/**
Making any result value printable as JSON: a walk over an object graph that cuts back-edges and
bounds the depth, and a fast path that prints directly when no walk is needed.
 */
module JsonNormalizer {
  import opened Wrappers

  type Ref = nat

  /** A host value; objects are references into a heap, so they may be shared or cyclic. */
  datatype Value =
    | Null | Undefined | Str(s: string) | Bool(b: bool) | Num(n: int) | NonFinite
    | BigInt(n: int) | Symbol(description: string) | Function(source: string) | Object(ref: Ref)

  datatype Node =
    | Arr(items: seq<Value>)
    | Rec(props: seq<(string, Value)>)
    | Err(name: string, message: string, stack: Option<string>, props: seq<(string, Value)>)

  type Heap = map<Ref, Node>

  /** A normalised tree. `ORaw` is a host value kept as it is, which happens only to extras of errors. */
  datatype Out =
    | ONull | OUndefined | OStr(s: string) | OBool(b: bool) | ONum(n: int)
    | OArr(items: seq<Out>) | ORec(props: seq<Member>) | ORaw(v: Value)

  /** What an assignment to a fresh object leaves: a member, or none when the key sets the prototype. */
  datatype Member = Member(key: string, out: Out) | NoMember

  function Assigned(key: string, out: Out): Member { if key == PROTO then NoMember else Member(key, out) }

  const MAX_NORMALIZE_DEPTH: nat := 64

  function NodeAt(heap: Heap, r: Ref): Node { if r in heap then heap[r] else Rec([]) }

  function Digits(n: nat): string {
    if n < 10 then [('0' as int + n) as char] else Digits(n / 10) + [('0' as int + n % 10) as char]
  }

  function BigIntText(n: int): string { if n < 0 then "-" + Digits(-n) else Digits(n) }

  function SymbolText(description: string): string { "Symbol(" + description + ")" }

  function FunctionText(source: string): string { if source != "" then source else "[function <anonymous>]" }

  /** The own keys of an error that end up among its extras. */
  predicate IsExtra(key: string) { key != "message" && key != "stack" && key != "name" && key != PROTO }

  function RawProps(props: seq<(string, Value)>): seq<Member> {
    if props == [] then []
    else
      var (key, v) := props[|props| - 1];
      RawProps(props[..|props| - 1]) +
      (if IsExtra(key) then [Member(key, ORaw(v))] else [])
  }

  function PropOf(props: seq<(string, Value)>, key: string): Option<Value> {
    if props == [] then None
    else if props[|props| - 1].0 == key then Some(props[|props| - 1].1)
    else PropOf(props[..|props| - 1], key)
  }

  function CodeMember(code: Option<Value>): seq<Member> {
    match code
    case Some(Str(s)) => [Member("code", OStr(s))]
    case Some(Num(n)) => [Member("code", ONum(n))]
    case Some(NonFinite) => [Member("code", ONull)]
    case _ => []
  }

  /** The members every serialised error has, all of them leaves. */
  function ErrorHead(e: Node): seq<Member>
    requires e.Err?
  {
    [Member("type", OStr("error")), Member("name", OStr(e.name)), Member("message", OStr(e.message)),
     Member("raw", OStr(if e.stack.Some? then e.stack.value else e.name + ": " + e.message))]
    + CodeMember(PropOf(e.props, "code"))
    + (if e.stack.Some? then [Member("stack", OStr(e.stack.value))] else [])
  }

  function SerializeError(e: Node): Out
    requires e.Err?
  {
    var extras := RawProps(e.props);
    ORec(ErrorHead(e) + (if extras != [] then [Member("details", ORec(extras))] else []))
  }

  /** What the walk computes; `seen` holds the objects open above this one. */
  function Normalize(heap: Heap, v: Value, seen: set<Ref>, depth: nat): Out
    decreases MAX_NORMALIZE_DEPTH + 1 - depth
  {
    if depth > MAX_NORMALIZE_DEPTH then OStr("[max depth reached]")
    else match v
      case Null => ONull
      case Undefined => OUndefined
      case Str(s) => OStr(s)
      case Bool(b) => OBool(b)
      case Num(n) => ONum(n)
      case NonFinite => ONull
      case BigInt(n) => OStr(BigIntText(n))
      case Symbol(d) => OStr(SymbolText(d))
      case Function(src) => OStr(FunctionText(src))
      case Object(r) =>
        var node := NodeAt(heap, r);
        if node.Err? then SerializeError(node)
        else if r in seen then OStr("__circular__")
        else match node
          case Arr(items) =>
            OArr(seq(|items|, i requires 0 <= i < |items| => Normalize(heap, items[i], seen + {r}, depth + 1)))
          case Rec(props) =>
            ORec(seq(|props|, i requires 0 <= i < |props| =>
              Assigned(props[i].0, Normalize(heap, props[i].1, seen + {r}, depth + 1))))
  }

  /** Whether some reachable value would be lost or rejected by direct printing. */
  predicate RequiresDeep(heap: Heap, v: Value, seen: set<Ref>, depth: nat)
    decreases MAX_NORMALIZE_DEPTH + 1 - depth
  {
    if depth > MAX_NORMALIZE_DEPTH then true
    else match v
      case BigInt(_) => true
      case Symbol(_) => true
      case Function(_) => true
      case Object(r) =>
        var node := NodeAt(heap, r);
        node.Err? || r in seen ||
        exists i | 0 <= i < |Children(node)| :: RequiresDeep(heap, Children(node)[i], seen + {r}, depth + 1)
      case _ => false
  }

  function Children(node: Node): seq<Value> {
    match node
    case Arr(items) => items
    case _ => seq(|node.props|, i requires 0 <= i < |node.props| => node.props[i].1)
  }

  // ----- The walk with one shared, updated set -----

  class Walker {
    const heap: Heap
    var seen: set<Ref>

    constructor (heap: Heap)
      ensures this.heap == heap && seen == {}
    {
      this.heap := heap;
      seen := {};
    }

    method NormalizeRecursive(v: Value, depth: nat) returns (out: Out)
      modifies this
      ensures seen == old(seen) && out == Normalize(heap, v, old(seen), depth)
      decreases MAX_NORMALIZE_DEPTH + 1 - depth
    {
      if depth > MAX_NORMALIZE_DEPTH { return OStr("[max depth reached]"); }
      match v {
        case Null => return ONull;
        case Undefined => return OUndefined;
        case Str(s) => return OStr(s);
        case Bool(b) => return OBool(b);
        case Num(n) => return ONum(n);
        case NonFinite => return ONull;
        case BigInt(n) => return OStr(BigIntText(n));
        case Symbol(d) => return OStr(SymbolText(d));
        case Function(src) => return OStr(FunctionText(src));
        case Object(_) =>
      }
      var r := v.ref;
      var node := NodeAt(heap, r);
      if node.Err? { return SerializeError(node); }
      if r in seen { return OStr("__circular__"); }
      seen := seen + {r};
      var i := 0;
      if node.Arr? {
        var items: seq<Out> := [];
        while i < |node.items|
          invariant i == |items| <= |node.items| && seen == old(seen) + {r}
          invariant forall j | 0 <= j < i :: items[j] == Normalize(heap, node.items[j], old(seen) + {r}, depth + 1)
        {
          var item := NormalizeRecursive(node.items[i], depth + 1);
          items := items + [item];
          i := i + 1;
        }
        out := OArr(items);
      } else {
        var props: seq<Member> := [];
        while i < |node.props|
          invariant i == |props| <= |node.props| && seen == old(seen) + {r}
          invariant forall j | 0 <= j < i ::
            props[j] == Assigned(node.props[j].0, Normalize(heap, node.props[j].1, old(seen) + {r}, depth + 1))
        {
          var prop := NormalizeRecursive(node.props[i].1, depth + 1);
          props := props + [if node.props[i].0 == PROTO then NoMember else Member(node.props[i].0, prop)];
          i := i + 1;
        }
        out := ORec(props);
      }
      seen := seen - {r};
    }

    method NeedsDeep(v: Value, depth: nat) returns (needed: bool)
      modifies this
      ensures seen == old(seen) && needed == RequiresDeep(heap, v, old(seen), depth)
      decreases MAX_NORMALIZE_DEPTH + 1 - depth
    {
      if depth > MAX_NORMALIZE_DEPTH { return true; }
      if v.BigInt? || v.Symbol? || v.Function? { return true; }
      if !v.Object? { return false; }
      var r := v.ref;
      var node := NodeAt(heap, r);
      if node.Err? || r in seen { return true; }
      seen := seen + {r};
      var children := Children(node);
      var i := 0;
      needed := false;
      while i < |children| && !needed
        invariant 0 <= i <= |children| && seen == old(seen) + {r}
        invariant needed <==> exists j | 0 <= j < i :: RequiresDeep(heap, children[j], old(seen) + {r}, depth + 1)
      {
        needed := NeedsDeep(children[i], depth + 1);
        i := i + 1;
      }
      seen := seen - {r};
    }
  }

  // ----- Where the back-edge marker appears -----

  /** A position is the list of child indices on the way down. */
  type Path = seq<nat>

  function ChildOf(heap: Heap, v: Value, i: nat): Option<Value> {
    if v.Object? && !NodeAt(heap, v.ref).Err? && i < |Children(NodeAt(heap, v.ref))| then
      Some(Children(NodeAt(heap, v.ref))[i])
    else None
  }

  function ValueAt(heap: Heap, v: Value, path: Path): Option<Value> {
    if path == [] then Some(v)
    else match ValueAt(heap, v, path[..|path| - 1])
      case Some(parent) => ChildOf(heap, parent, path[|path| - 1])
      case None => None
  }

  function OutChild(o: Out, i: nat): Option<Out> {
    match o
    case OArr(items) => if i < |items| then Some(items[i]) else None
    case ORec(props) => if i < |props| && props[i].Member? then Some(props[i].out) else None
    case _ => None
  }

  function OutAt(o: Out, path: Path): Option<Out> {
    if path == [] then Some(o)
    else match OutAt(o, path[..|path| - 1])
      case Some(parent) => OutChild(parent, path[|path| - 1])
      case None => None
  }

  /** The objects at the proper prefixes of a position: those still open when the walk gets there. */
  function Ancestors(heap: Heap, v: Value, path: Path): set<Ref> {
    if path == [] then {}
    else
      var above := path[..|path| - 1];
      Ancestors(heap, v, above) +
      (match ValueAt(heap, v, above) case Some(Object(r)) => {r} case _ => {})
  }

  /** The child under an own `__proto__` key of a plain record, which the tree has no place for. */
  predicate Dropped(node: Node, i: nat) { node.Rec? && i < |node.props| && node.props[i].0 == PROTO }

  /** The position exists, no object on the way down to it is its own ancestor, and no step is dropped. */
  predicate Reached(heap: Heap, v: Value, path: Path) {
    if path == [] then true
    else
      var above := path[..|path| - 1];
      && Reached(heap, v, above)
      && ValueAt(heap, v, path).Some?
      && ValueAt(heap, v, above).value.ref !in Ancestors(heap, v, above)
      && !Dropped(NodeAt(heap, ValueAt(heap, v, above).value.ref), path[|path| - 1])
  }

  /** At this position the tree has a node exactly if it is reached, and it is what the value there becomes. */
  predicate Follows(heap: Heap, v: Value, path: Path)
    requires ValueAt(heap, v, path).Some?
  {
    var o := OutAt(Normalize(heap, v, {}, 0), path);
    if Reached(heap, v, path) && |path| <= MAX_NORMALIZE_DEPTH + 1
    then o == Some(Normalize(heap, ValueAt(heap, v, path).value, Ancestors(heap, v, path), |path|))
    else o == None
  }

  lemma PositionBelow(heap: Heap, v: Value, path: Path, w: Value)
    requires path != [] && ValueAt(heap, v, path).Some? && ValueAt(heap, v, path[..|path| - 1]) == Some(w)
    requires Reached(heap, v, path[..|path| - 1])
    ensures var above, i := path[..|path| - 1], path[|path| - 1];
            && w.Object? && ValueAt(heap, v, path) == ChildOf(heap, w, i)
            && Ancestors(heap, v, path) == Ancestors(heap, v, above) + {w.ref}
            && (Reached(heap, v, path) <==> w.ref !in Ancestors(heap, v, above) && !Dropped(NodeAt(heap, w.ref), i))
  {
  }

  lemma FollowsReached(heap: Heap, v: Value, path: Path)
    requires path != [] && ValueAt(heap, v, path).Some? && ValueAt(heap, v, path[..|path| - 1]).Some?
    requires Reached(heap, v, path[..|path| - 1]) && |path| <= MAX_NORMALIZE_DEPTH + 2
    requires Follows(heap, v, path[..|path| - 1])
    ensures Follows(heap, v, path)
  {
    var above, i := path[..|path| - 1], path[|path| - 1];
    var w := ValueAt(heap, v, above).value;
    PositionBelow(heap, v, path, w);
    ChildOfNormalized(heap, w, Ancestors(heap, v, above), |above|, i);
  }

  lemma FollowsBelow(heap: Heap, v: Value, path: Path)
    requires path != [] && ValueAt(heap, v, path).Some? && ValueAt(heap, v, path[..|path| - 1]).Some?
    requires Follows(heap, v, path[..|path| - 1])
    ensures Follows(heap, v, path)
  {
    if Reached(heap, v, path[..|path| - 1]) && |path| <= MAX_NORMALIZE_DEPTH + 2 { FollowsReached(heap, v, path); }
  }

  /**
  The tree has a node at exactly the reached positions of at most 65 steps, and the node there is
  what the walk makes of the value there with its ancestors open.
   */
  lemma {:induction false} TreeFollowsGraph(heap: Heap, v: Value, path: Path)
    requires ValueAt(heap, v, path).Some?
    ensures OutAt(Normalize(heap, v, {}, 0), path).Some? <==>
            Reached(heap, v, path) && |path| <= MAX_NORMALIZE_DEPTH + 1
    ensures Reached(heap, v, path) && |path| <= MAX_NORMALIZE_DEPTH + 1 ==>
            OutAt(Normalize(heap, v, {}, 0), path) ==
            Some(Normalize(heap, ValueAt(heap, v, path).value, Ancestors(heap, v, path), |path|))
  {
    if path != [] {
      TreeFollowsGraph(heap, v, path[..|path| - 1]);
      FollowsBelow(heap, v, path);
    }
  }

  lemma ChildOfNormalized(heap: Heap, w: Value, seen: set<Ref>, depth: nat, i: nat)
    requires ChildOf(heap, w, i).Some?
    ensures OutChild(Normalize(heap, w, seen, depth), i) ==
            if depth <= MAX_NORMALIZE_DEPTH && w.ref !in seen && !Dropped(NodeAt(heap, w.ref), i)
            then Some(Normalize(heap, ChildOf(heap, w, i).value, seen + {w.ref}, depth + 1)) else None
  {
  }

  /** At a reached position within the depth bound, the marker stands exactly for an object that is its own ancestor. */
  lemma CircularExactlyAtBackEdges(heap: Heap, v: Value, path: Path, r: Ref)
    requires ValueAt(heap, v, path) == Some(Object(r)) && !NodeAt(heap, r).Err?
    requires Reached(heap, v, path) && |path| <= MAX_NORMALIZE_DEPTH
    ensures OutAt(Normalize(heap, v, {}, 0), path) == Some(OStr("__circular__")) <==> r in Ancestors(heap, v, path)
  {
    TreeFollowsGraph(heap, v, path);
  }

  function MaxHeight(os: seq<Out>): nat {
    if os == [] then 0
    else
      var h, k := Height(os[|os| - 1]), MaxHeight(os[..|os| - 1]);
      if h < k then k else h
  }

  function Height(o: Out): nat {
    match o
    case OArr(items) => 1 + MaxHeight(items)
    case ORec(props) => 1 + MaxPropHeight(props)
    case _ => 0
  }

  function MaxPropHeight(props: seq<Member>): nat {
    if props == [] then 0
    else
      var last, k := props[|props| - 1], MaxPropHeight(props[..|props| - 1]);
      if last.NoMember? || Height(last.out) < k then k else Height(last.out)
  }

  lemma {:induction false} ItemsBound(os: seq<Out>, b: nat)
    requires forall i | 0 <= i < |os| :: Height(os[i]) <= b
    ensures MaxHeight(os) <= b
  {
    if os != [] { ItemsBound(os[..|os| - 1], b); }
  }

  lemma {:induction false} PropsBound(ps: seq<Member>, b: nat)
    requires forall i | 0 <= i < |ps| && ps[i].Member? :: Height(ps[i].out) <= b
    ensures MaxPropHeight(ps) <= b
  {
    if ps != [] { PropsBound(ps[..|ps| - 1], b); }
  }

  lemma {:induction false} RawPropsAreFlat(props: seq<(string, Value)>)
    ensures forall i | 0 <= i < |RawProps(props)| :: RawProps(props)[i].Member? && RawProps(props)[i].out.ORaw?
  {
    if props != [] { RawPropsAreFlat(props[..|props| - 1]); }
  }

  lemma ErrorHeight(e: Node)
    requires e.Err?
    ensures Height(SerializeError(e)) <= 2
  {
    RawPropsAreFlat(e.props);
    PropsBound(RawProps(e.props), 0);
    var o := SerializeError(e);
    forall i | 0 <= i < |o.props| ensures o.props[i].Member? && Height(o.props[i].out) <= 1 { }
    PropsBound(o.props, 1);
  }

  /** However deep or cyclic the graph, the tree is at most 66 levels high. */
  lemma {:induction false} NormalizedHeight(heap: Heap, v: Value, seen: set<Ref>, depth: nat)
    ensures Height(Normalize(heap, v, seen, depth)) <=
            if depth > MAX_NORMALIZE_DEPTH then 0 else MAX_NORMALIZE_DEPTH + 2 - depth
    decreases MAX_NORMALIZE_DEPTH + 1 - depth
  {
    if depth <= MAX_NORMALIZE_DEPTH && v.Object? {
      var r, node := v.ref, NodeAt(heap, v.ref);
      var b := MAX_NORMALIZE_DEPTH + 1 - depth;
      match node
      case Err(_, _, _, _) => ErrorHeight(node);
      case Arr(items) =>
        if r !in seen {
          var o := Normalize(heap, v, seen, depth);
          forall i | 0 <= i < |o.items| ensures Height(o.items[i]) <= b {
            NormalizedHeight(heap, items[i], seen + {r}, depth + 1);
          }
          ItemsBound(o.items, b);
        }
      case Rec(props) =>
        if r !in seen {
          var o := Normalize(heap, v, seen, depth);
          forall i | 0 <= i < |o.props| && o.props[i].Member? ensures Height(o.props[i].out) <= b {
            NormalizedHeight(heap, props[i].1, seen + {r}, depth + 1);
          }
          PropsBound(o.props, b);
        }
    }
  }
}

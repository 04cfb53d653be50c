/** Printing of host values and of normalised trees as JSON token sequences, and the choice between the two. */
module JsonPrinting {
  import opened Wrappers
  import opened JsonNormalizer

  datatype Token =
    | LBrace | RBrace | LBracket | RBracket | Comma | Colon
    | TStr(s: string) | TNum(n: int) | TBool(b: bool) | TNull

  /** Printing throws, yields nothing (`undefined`), or yields text. */
  datatype Printed = Throws | Omitted | Text(tokens: seq<Token>)

  function Wrap(before: Token, inner: Printed, after: Token): Printed {
    if inner.Text? then Text([before] + inner.tokens + [after]) else Throws
  }

  /** An array element; one without a text prints as null. */
  function AppendItem(init: Printed, first: bool, item: Printed): Printed {
    if !init.Text? || item.Throws? then Throws
    else Text(init.tokens + (if first then [] else [Comma]) + (if item.Omitted? then [TNull] else item.tokens))
  }

  /** An object member; one without a text is left out. */
  function AppendProp(init: Printed, key: string, item: Printed): Printed {
    if !init.Text? || item.Throws? then Throws
    else if item.Omitted? then init
    else Text(init.tokens + (if init.tokens == [] then [] else [Comma]) + [TStr(key), Colon] + item.tokens)
  }

  /** `JSON.stringify` of a host value whose ancestors are `open`. */
  function Print(heap: Heap, v: Value, open: set<Ref>): Printed
    decreases heap.Keys - open, 0
  {
    match v
    case Null => Text([TNull])
    case NonFinite => Text([TNull])
    case Str(s) => Text([TStr(s)])
    case Bool(b) => Text([TBool(b)])
    case Num(n) => Text([TNum(n)])
    case Undefined => Omitted
    case Symbol(_) => Omitted
    case Function(_) => Omitted
    case BigInt(_) => Throws
    case Object(r) =>
      if r in open then Throws
      else if r !in heap then Text([LBrace, RBrace])
      else if heap[r].Arr? then Wrap(LBracket, PrintItems(heap, heap[r].items, open + {r}), RBracket)
      else Wrap(LBrace, PrintProps(heap, heap[r].props, open + {r}), RBrace)
  }

  function PrintItems(heap: Heap, items: seq<Value>, open: set<Ref>): Printed
    decreases heap.Keys - open, |items|
  {
    if items == [] then Text([])
    else AppendItem(PrintItems(heap, items[..|items| - 1], open), |items| == 1, Print(heap, items[|items| - 1], open))
  }

  function PrintProps(heap: Heap, props: seq<(string, Value)>, open: set<Ref>): Printed
    decreases heap.Keys - open, |props|
  {
    if props == [] then Text([])
    else
      var (key, v) := props[|props| - 1];
      AppendProp(PrintProps(heap, props[..|props| - 1], open), key, Print(heap, v, open))
  }

  /** `JSON.stringify` of a normalised tree. */
  function PrintOut(heap: Heap, o: Out): Printed {
    match o
    case ONull => Text([TNull])
    case OUndefined => Omitted
    case OStr(s) => Text([TStr(s)])
    case OBool(b) => Text([TBool(b)])
    case ONum(n) => Text([TNum(n)])
    case OArr(items) => Wrap(LBracket, PrintOutItems(heap, items), RBracket)
    case ORec(props) => Wrap(LBrace, PrintOutProps(heap, props), RBrace)
    case ORaw(v) => Print(heap, v, {})
  }

  function PrintOutItems(heap: Heap, items: seq<Out>): Printed {
    if items == [] then Text([])
    else AppendItem(PrintOutItems(heap, items[..|items| - 1]), |items| == 1, PrintOut(heap, items[|items| - 1]))
  }

  function PrintOutProps(heap: Heap, props: seq<Member>): Printed {
    if props == [] then Text([])
    else
      var init, m := PrintOutProps(heap, props[..|props| - 1]), props[|props| - 1];
      if m.Member? then AppendProp(init, m.key, PrintOut(heap, m.out)) else init
  }

  function Envelope(raw: string, kind: string): Printed {
    Text([LBrace, TStr("raw"), Colon, TStr(raw), Comma, TStr("type"), Colon, TStr(kind), RBrace])
  }

  function StringifyForMcp(heap: Heap, v: Value): Printed {
    match v
    case Null => Text([TNull])
    case Str(s) => Text([TStr(s)])
    case Num(n) => Text([TNum(n)])
    case NonFinite => Text([TNull])
    case Bool(b) => Text([TBool(b)])
    case BigInt(n) => Envelope(BigIntText(n), "bigint")
    case Symbol(d) => Envelope(SymbolText(d), "symbol")
    case Function(src) => Envelope(FunctionText(src), "function")
    case Undefined => Envelope("undefined", "undefined")
    case Object(r) =>
      if NodeAt(heap, r).Err? then PrintOut(heap, SerializeError(NodeAt(heap, r)))
      else if !RequiresDeep(heap, v, {}, 0) && Print(heap, v, {}).Text? then Print(heap, v, {})
      else PrintOut(heap, Normalize(heap, v, {}, 0))
  }

  // ----- When printing succeeds -----

  /** No big integer and no object inside itself: what `JSON.stringify` accepts. */
  predicate JsonSafe(heap: Heap, v: Value, open: set<Ref>)
    decreases heap.Keys - open
  {
    match v
    case BigInt(_) => false
    case Object(r) =>
      && r !in open
      && (r in heap ==>
            forall i | 0 <= i < |Children(heap[r])| :: JsonSafe(heap, Children(heap[r])[i], open + {r}))
    case _ => true
  }

  lemma {:induction false} ItemsThrow(heap: Heap, items: seq<Value>, open: set<Ref>)
    ensures PrintItems(heap, items, open).Text? <==> forall i | 0 <= i < |items| :: !Print(heap, items[i], open).Throws?
    ensures !PrintItems(heap, items, open).Omitted?
  {
    if items != [] { ItemsThrow(heap, items[..|items| - 1], open); }
  }

  lemma {:induction false} PropsThrow(heap: Heap, props: seq<(string, Value)>, open: set<Ref>)
    ensures PrintProps(heap, props, open).Text? <==>
            forall i | 0 <= i < |props| :: !Print(heap, props[i].1, open).Throws?
    ensures !PrintProps(heap, props, open).Omitted?
  {
    if props != [] { PropsThrow(heap, props[..|props| - 1], open); }
  }

  lemma {:induction false} PrintThrowsUnlessSafe(heap: Heap, v: Value, open: set<Ref>)
    ensures Print(heap, v, open).Throws? <==> !JsonSafe(heap, v, open)
    decreases heap.Keys - open
  {
    if v.Object? && v.ref !in open && v.ref in heap {
      var r, node := v.ref, heap[v.ref];
      var cs := Children(node);
      forall i | 0 <= i < |cs| ensures Print(heap, cs[i], open + {r}).Throws? <==> !JsonSafe(heap, cs[i], open + {r}) {
        PrintThrowsUnlessSafe(heap, cs[i], open + {r});
      }
      if node.Arr? {
        ItemsThrow(heap, node.items, open + {r});
      } else {
        PropsThrow(heap, node.props, open + {r});
        assert forall i | 0 <= i < |node.props| :: cs[i] == node.props[i].1;
      }
    }
  }

  // ----- Conditions on every reached object -----

  /** The extras of an error, which are copied without being walked. */
  predicate ExtrasSafe(heap: Heap, props: seq<(string, Value)>) {
    forall i | 0 <= i < |props| :: IsExtra(props[i].0) ==> JsonSafe(heap, props[i].1, {})
  }

  /** Every own `__proto__` member of a plain record is undefined, which prints as nothing anyway. */
  predicate ProtoIsVoid(node: Node) {
    forall i | 0 <= i < |Children(node)| :: Dropped(node, i) ==> Children(node)[i].Undefined?
  }

  /** What is asked of an object: printable extras if it is an error, or no printing `__proto__` member. */
  datatype Concern = Extras | Proto

  predicate OkAt(heap: Heap, r: Ref, what: Concern) {
    match what
    case Extras => NodeAt(heap, r).Err? ==> ExtrasSafe(heap, NodeAt(heap, r).props)
    case Proto => ProtoIsVoid(NodeAt(heap, r))
  }

  /** Every object at a position of the tree meets the condition. */
  ghost predicate AllOk(heap: Heap, v: Value, what: Concern) {
    forall path: Path | Reached(heap, v, path) && |path| <= MAX_NORMALIZE_DEPTH ::
      forall r | ValueAt(heap, v, path) == Some(Object(r)) :: OkAt(heap, r, what)
  }

  /** The same condition, following the walk. */
  predicate CleanFrom(heap: Heap, v: Value, seen: set<Ref>, depth: nat, what: Concern)
    decreases MAX_NORMALIZE_DEPTH + 1 - depth
  {
    depth <= MAX_NORMALIZE_DEPTH && v.Object? ==>
      var r, node := v.ref, NodeAt(heap, v.ref);
      && OkAt(heap, r, what)
      && (node.Err? || r in seen
          || forall i | 0 <= i < |Children(node)| && !Dropped(node, i) ::
               CleanFrom(heap, Children(node)[i], seen + {r}, depth + 1, what))
  }

  lemma ChildPosition(heap: Heap, v: Value, path: Path, i: nat)
    requires ValueAt(heap, v, path).Some? && Reached(heap, v, path) && ValueAt(heap, v, path).value.Object?
    requires ChildOf(heap, ValueAt(heap, v, path).value, i).Some?
    requires ValueAt(heap, v, path).value.ref !in Ancestors(heap, v, path)
    requires !Dropped(NodeAt(heap, ValueAt(heap, v, path).value.ref), i)
    ensures Reached(heap, v, path + [i])
    ensures ValueAt(heap, v, path + [i]) == ChildOf(heap, ValueAt(heap, v, path).value, i)
    ensures Ancestors(heap, v, path + [i]) == Ancestors(heap, v, path) + {ValueAt(heap, v, path).value.ref}
  {
    var below := path + [i];
    assert below[..|below| - 1] == path && below[|below| - 1] == i;
  }

  lemma ChildIsReached(heap: Heap, v: Value, path: Path, w: Value, i: nat)
    requires Reached(heap, v, path) && ValueAt(heap, v, path) == Some(w) && w.Object? && !NodeAt(heap, w.ref).Err?
    requires w.ref !in Ancestors(heap, v, path) && i < |Children(NodeAt(heap, w.ref))|
    requires !Dropped(NodeAt(heap, w.ref), i)
    ensures Reached(heap, v, path + [i])
    ensures ValueAt(heap, v, path + [i]) == Some(Children(NodeAt(heap, w.ref))[i])
    ensures Ancestors(heap, v, path + [i]) == Ancestors(heap, v, path) + {w.ref}
  {
    assert ChildOf(heap, w, i) == Some(Children(NodeAt(heap, w.ref))[i]);
    ChildPosition(heap, v, path, i);
  }

  lemma UncleanChild(heap: Heap, r: Ref, seen: set<Ref>, depth: nat, what: Concern) returns (i: nat)
    requires !CleanFrom(heap, Object(r), seen, depth, what) && OkAt(heap, r, what)
    ensures depth <= MAX_NORMALIZE_DEPTH && !NodeAt(heap, r).Err? && r !in seen
    ensures i < |Children(NodeAt(heap, r))| && !Dropped(NodeAt(heap, r), i)
    ensures !CleanFrom(heap, Children(NodeAt(heap, r))[i], seen + {r}, depth + 1, what)
  {
    var node := NodeAt(heap, r);
    i :| 0 <= i < |Children(node)| && !Dropped(node, i)
         && !CleanFrom(heap, Children(node)[i], seen + {r}, depth + 1, what);
  }

  /** Where the walk is not clean from a reached position on, some reached object below is to blame. */
  lemma {:induction false} FindUnclean(heap: Heap, v: Value, path: Path, w: Value, what: Concern)
    returns (bad: Path, r: Ref)
    requires Reached(heap, v, path) && |path| <= MAX_NORMALIZE_DEPTH + 1 && ValueAt(heap, v, path) == Some(w)
    requires !CleanFrom(heap, w, Ancestors(heap, v, path), |path|, what)
    ensures Reached(heap, v, bad) && |bad| <= MAX_NORMALIZE_DEPTH
    ensures ValueAt(heap, v, bad) == Some(Object(r)) && !OkAt(heap, r, what)
    decreases MAX_NORMALIZE_DEPTH + 1 - |path|
  {
    if !OkAt(heap, w.ref, what) {
      bad, r := path, w.ref;
    } else {
      var i := UncleanChild(heap, w.ref, Ancestors(heap, v, path), |path|, what);
      ChildIsReached(heap, v, path, w, i);
      bad, r := FindUnclean(heap, v, path + [i], Children(NodeAt(heap, w.ref))[i], what);
    }
  }

  lemma {:induction false} CleanAtPosition(heap: Heap, v: Value, path: Path, what: Concern)
    requires CleanFrom(heap, v, {}, 0, what) && Reached(heap, v, path) && |path| <= MAX_NORMALIZE_DEPTH + 1
    ensures ValueAt(heap, v, path).Some?
    ensures CleanFrom(heap, ValueAt(heap, v, path).value, Ancestors(heap, v, path), |path|, what)
  {
    if path != [] {
      CleanAtPosition(heap, v, path[..|path| - 1], what);
    }
  }

  lemma CleanIffAllOk(heap: Heap, v: Value, what: Concern)
    ensures CleanFrom(heap, v, {}, 0, what) <==> AllOk(heap, v, what)
  {
    if !CleanFrom(heap, v, {}, 0, what) { var bad, r := FindUnclean(heap, v, [], v, what); }
    if CleanFrom(heap, v, {}, 0, what) {
      forall path: Path | Reached(heap, v, path) && |path| <= MAX_NORMALIZE_DEPTH
        ensures forall r | ValueAt(heap, v, path) == Some(Object(r)) :: OkAt(heap, r, what)
      {
        CleanAtPosition(heap, v, path, what);
      }
    }
  }

  // ----- When the fast path agrees with the slow one -----

  /**
  Text `n` of a normalised tree compared with the direct text `t`: equal when nothing was dropped,
  and shorter when something was.
   */
  predicate Covers(t: Printed, n: Printed, same: bool) {
    && !t.Throws? && !n.Throws? && (t.Omitted? <==> n.Omitted?)
    && (if same then t == n else t.Text? && |n.tokens| < |t.tokens|)
  }

  predicate All(same: seq<bool>) { forall i | 0 <= i < |same| :: same[i] }

  lemma WrapCovers(before: Token, t: Printed, n: Printed, after: Token, same: bool)
    requires Covers(t, n, same) && t.Text?
    ensures Covers(Wrap(before, t, after), Wrap(before, n, after), same)
  {
  }

  lemma ItemCovers(ts: Printed, ns: Printed, all: bool, first: bool, t: Printed, n: Printed, same: bool)
    requires Covers(ts, ns, all) && ts.Text? && Covers(t, n, same)
    ensures Covers(AppendItem(ts, first, t), AppendItem(ns, first, n), all && same)
  {
  }

  lemma PropCovers(ts: Printed, ns: Printed, all: bool, key: string, t: Printed, n: Printed, same: bool)
    requires Covers(ts, ns, all) && ts.Text? && Covers(t, n, same)
    ensures Covers(AppendProp(ts, key, t), AppendProp(ns, key, n), all && same)
  {
  }

  lemma DroppedCovers(ts: Printed, ns: Printed, all: bool, key: string, t: Printed)
    requires Covers(ts, ns, all) && ts.Text? && !t.Throws?
    ensures Covers(AppendProp(ts, key, t), ns, all && t.Omitted?)
  {
  }

  lemma AllOfMore(same: seq<bool>)
    requires same != []
    ensures All(same) <==> All(same[..|same| - 1]) && same[|same| - 1]
  {
  }

  lemma {:induction false} ItemsCover(heap: Heap, items: seq<Value>, outs: seq<Out>, open: set<Ref>, same: seq<bool>)
    requires |items| == |outs| == |same|
    requires forall i | 0 <= i < |items| :: Covers(Print(heap, items[i], open), PrintOut(heap, outs[i]), same[i])
    ensures PrintItems(heap, items, open).Text?
    ensures Covers(PrintItems(heap, items, open), PrintOutItems(heap, outs), All(same))
  {
    if items != [] {
      var n := |items| - 1;
      AllOfMore(same);
      ItemsCover(heap, items[..n], outs[..n], open, same[..n]);
      ItemCovers(PrintItems(heap, items[..n], open), PrintOutItems(heap, outs[..n]), All(same[..n]), |items| == 1,
                 Print(heap, items[n], open), PrintOut(heap, outs[n]), same[n]);
    }
  }

  /** How one assigned member compares with the member it came from. */
  predicate MemberCovers(heap: Heap, prop: (string, Value), m: Member, open: set<Ref>, same: bool) {
    if m.Member? then m.key == prop.0 && Covers(Print(heap, prop.1, open), PrintOut(heap, m.out), same)
    else !Print(heap, prop.1, open).Throws? && (same <==> Print(heap, prop.1, open).Omitted?)
  }

  lemma {:induction false} PropsCover(
      heap: Heap, props: seq<(string, Value)>, outs: seq<Member>, open: set<Ref>, same: seq<bool>)
    requires |props| == |outs| == |same|
    requires forall i | 0 <= i < |props| :: MemberCovers(heap, props[i], outs[i], open, same[i])
    ensures PrintProps(heap, props, open).Text?
    ensures Covers(PrintProps(heap, props, open), PrintOutProps(heap, outs), All(same))
  {
    if props != [] {
      var n := |props| - 1;
      AllOfMore(same);
      PropsCover(heap, props[..n], outs[..n], open, same[..n]);
      var ts, ns := PrintProps(heap, props[..n], open), PrintOutProps(heap, outs[..n]);
      assert MemberCovers(heap, props[n], outs[n], open, same[n]);
      if outs[n].Member? {
        PropCovers(ts, ns, All(same[..n]), props[n].0,
                   Print(heap, props[n].1, open), PrintOut(heap, outs[n].out), same[n]);
      } else {
        DroppedCovers(ts, ns, All(same[..n]), props[n].0, Print(heap, props[n].1, open));
      }
    }
  }

  /** Whether child `i` of the node comes out the same either way. */
  predicate SameChild(heap: Heap, node: Node, i: nat, open: set<Ref>, depth: nat)
    requires i < |Children(node)|
  {
    if Dropped(node, i) then Children(node)[i].Undefined? else CleanFrom(heap, Children(node)[i], open, depth, Proto)
  }

  function SameChildren(heap: Heap, node: Node, open: set<Ref>, depth: nat): (same: seq<bool>)
    ensures |same| == |Children(node)|
    ensures forall i | 0 <= i < |same| :: same[i] == SameChild(heap, node, i, open, depth)
  {
    seq(|Children(node)|, i requires 0 <= i < |Children(node)| => SameChild(heap, node, i, open, depth))
  }

  ghost predicate ChildrenCover(heap: Heap, node: Node, open: set<Ref>, depth: nat) {
    var cs := Children(node);
    forall i | 0 <= i < |cs| ::
      && (Print(heap, cs[i], open).Omitted? <==> cs[i].Undefined?)
      && Covers(Print(heap, cs[i], open), PrintOut(heap, Normalize(heap, cs[i], open, depth)),
                CleanFrom(heap, cs[i], open, depth, Proto))
  }

  lemma ArrayItemCovers(heap: Heap, node: Node, i: nat, open: set<Ref>, depth: nat)
    requires node.Arr? && i < |node.items| && ChildrenCover(heap, node, open, depth)
    ensures Covers(Print(heap, node.items[i], open), PrintOut(heap, Normalize(heap, node.items[i], open, depth)),
                   SameChildren(heap, node, open, depth)[i])
  {
    assert Children(node)[i] == node.items[i] && !Dropped(node, i);
  }

  lemma ArrayItemsCover(heap: Heap, node: Node, outs: seq<Out>, open: set<Ref>, depth: nat)
    requires node.Arr? && ChildrenCover(heap, node, open, depth) && |outs| == |node.items|
    requires forall i | 0 <= i < |outs| :: outs[i] == Normalize(heap, node.items[i], open, depth)
    ensures PrintItems(heap, node.items, open).Text?
    ensures Covers(PrintItems(heap, node.items, open), PrintOutItems(heap, outs),
                   All(SameChildren(heap, node, open, depth)))
  {
    var same := SameChildren(heap, node, open, depth);
    forall i | 0 <= i < |outs| ensures Covers(Print(heap, node.items[i], open), PrintOut(heap, outs[i]), same[i]) {
      ArrayItemCovers(heap, node, i, open, depth);
    }
    ItemsCover(heap, node.items, outs, open, same);
  }

  lemma ArrayPrints(heap: Heap, r: Ref, open: set<Ref>, depth: nat)
    requires depth <= MAX_NORMALIZE_DEPTH && r !in open && NodeAt(heap, r).Arr?
    ensures Print(heap, Object(r), open) ==
            Wrap(LBracket, PrintItems(heap, NodeAt(heap, r).items, open + {r}), RBracket)
    ensures var o := Normalize(heap, Object(r), open, depth);
            o.OArr? && PrintOut(heap, o) == Wrap(LBracket, PrintOutItems(heap, o.items), RBracket)
  {
  }

  lemma ArrayCovers(heap: Heap, r: Ref, open: set<Ref>, depth: nat)
    requires depth <= MAX_NORMALIZE_DEPTH && r !in open && NodeAt(heap, r).Arr?
    requires ChildrenCover(heap, NodeAt(heap, r), open + {r}, depth + 1)
    ensures Covers(Print(heap, Object(r), open), PrintOut(heap, Normalize(heap, Object(r), open, depth)),
                   All(SameChildren(heap, NodeAt(heap, r), open + {r}, depth + 1)))
  {
    ArrayPrints(heap, r, open, depth);
    var node, inner, outs := NodeAt(heap, r), open + {r}, Normalize(heap, Object(r), open, depth).items;
    ArrayItemsCover(heap, node, outs, inner, depth + 1);
    WrapCovers(LBracket, PrintItems(heap, node.items, inner), PrintOutItems(heap, outs), RBracket,
               All(SameChildren(heap, node, inner, depth + 1)));
  }

  lemma RecordCovers(heap: Heap, r: Ref, open: set<Ref>, depth: nat)
    requires depth <= MAX_NORMALIZE_DEPTH && r !in open && NodeAt(heap, r).Rec?
    requires ChildrenCover(heap, NodeAt(heap, r), open + {r}, depth + 1)
    ensures Covers(Print(heap, Object(r), open), PrintOut(heap, Normalize(heap, Object(r), open, depth)),
                   All(SameChildren(heap, NodeAt(heap, r), open + {r}, depth + 1)))
  {
    var node, inner := NodeAt(heap, r), open + {r};
    var outs, same := Normalize(heap, Object(r), open, depth).props, SameChildren(heap, node, inner, depth + 1);
    forall i | 0 <= i < |node.props| ensures MemberCovers(heap, node.props[i], outs[i], inner, same[i]) {
      assert Children(node)[i] == node.props[i].1;
    }
    PropsCover(heap, node.props, outs, inner, same);
    WrapCovers(LBrace, PrintProps(heap, node.props, inner), PrintOutProps(heap, outs), RBrace, All(same));
    assert r !in heap ==> Wrap(LBrace, PrintProps(heap, node.props, inner), RBrace) == Text([LBrace, RBrace]);
  }

  lemma ShallowChildren(heap: Heap, r: Ref, open: set<Ref>, depth: nat, i: nat)
    requires !RequiresDeep(heap, Object(r), open, depth) && i < |Children(NodeAt(heap, r))|
    ensures depth <= MAX_NORMALIZE_DEPTH && r !in open && !NodeAt(heap, r).Err?
    ensures !RequiresDeep(heap, Children(NodeAt(heap, r))[i], open + {r}, depth + 1)
  {
  }

  /** An object that needs no deep walk is clean exactly when each of its children comes out the same. */
  lemma CleanIffSameChildren(heap: Heap, r: Ref, open: set<Ref>, depth: nat)
    requires depth <= MAX_NORMALIZE_DEPTH && r !in open && !NodeAt(heap, r).Err?
    ensures CleanFrom(heap, Object(r), open, depth, Proto) <==>
            All(SameChildren(heap, NodeAt(heap, r), open + {r}, depth + 1))
  {
    var node, inner := NodeAt(heap, r), open + {r};
    var cs, same := Children(node), SameChildren(heap, node, inner, depth + 1);
    if All(same) {
      forall i | 0 <= i < |cs|
        ensures Dropped(node, i) ==> cs[i].Undefined?
        ensures !Dropped(node, i) ==> CleanFrom(heap, cs[i], inner, depth + 1, Proto)
      {
        assert same[i];
      }
    } else {
      var i :| 0 <= i < |same| && !same[i];
      assert if Dropped(node, i) then !cs[i].Undefined? else !CleanFrom(heap, cs[i], inner, depth + 1, Proto);
    }
  }

  /**
  When no deep walk is required, direct printing and printing the normalised tree give the same text
  exactly when no reached record has an own `__proto__` member that prints; otherwise the direct text is longer.
   */
  lemma {:induction false} FastPathCovers(heap: Heap, v: Value, open: set<Ref>, depth: nat)
    requires !RequiresDeep(heap, v, open, depth)
    ensures Print(heap, v, open).Omitted? <==> v.Undefined?
    ensures Covers(Print(heap, v, open), PrintOut(heap, Normalize(heap, v, open, depth)),
                   CleanFrom(heap, v, open, depth, Proto))
    decreases MAX_NORMALIZE_DEPTH + 1 - depth
  {
    if v.Object? {
      var r, node := v.ref, NodeAt(heap, v.ref);
      var cs, inner := Children(node), open + {r};
      forall i | 0 <= i < |cs|
        ensures Print(heap, cs[i], inner).Omitted? <==> cs[i].Undefined?
        ensures Covers(Print(heap, cs[i], inner), PrintOut(heap, Normalize(heap, cs[i], inner, depth + 1)),
                       CleanFrom(heap, cs[i], inner, depth + 1, Proto))
      {
        ShallowChildren(heap, r, open, depth, i);
        FastPathCovers(heap, cs[i], inner, depth + 1);
      }
      assert ChildrenCover(heap, node, inner, depth + 1);
      CleanIffSameChildren(heap, r, open, depth);
      if node.Arr? { ArrayCovers(heap, r, open, depth); } else { RecordCovers(heap, r, open, depth); }
    }
  }

  /** The fast path agrees with the slow one exactly when no reached record has an own `__proto__` that prints. */
  lemma FastPathAgreesIff(heap: Heap, v: Value)
    requires !RequiresDeep(heap, v, {}, 0)
    ensures Print(heap, v, {}) == PrintOut(heap, Normalize(heap, v, {}, 0)) <==> AllOk(heap, v, Proto)
  {
    FastPathCovers(heap, v, {}, 0);
    CleanIffAllOk(heap, v, Proto);
  }

  /** They do part: `{"__proto__": {"a": n}}` is printed as it is by the one and as `{}` by the other. */
  lemma ProtoMemberIsLost(n: int)
    ensures var heap: Heap := map[0 := Rec([(PROTO, Object(1))]), 1 := Rec([("a", Num(n))])];
            && !RequiresDeep(heap, Object(0), {}, 0)
            && PrintOut(heap, Normalize(heap, Object(0), {}, 0)) == Text([LBrace, RBrace])
            && StringifyForMcp(heap, Object(0)) != Text([LBrace, RBrace])
  {
    var heap: Heap := map[0 := Rec([(PROTO, Object(1))]), 1 := Rec([("a", Num(n))])];
    assert Children(heap[1]) == [Num(n)] && Children(heap[0]) == [Object(1)];
    assert !RequiresDeep(heap, Object(1), {0}, 1);
    assert !RequiresDeep(heap, Object(0), {}, 0);
    var outs := Normalize(heap, Object(0), {}, 0).props;
    assert outs == [NoMember] && outs[..0] == [];
    assert PrintOutProps(heap, outs) == Text([]);
    assert Dropped(heap[0], 0) && !ProtoIsVoid(heap[0]);
    assert !CleanFrom(heap, Object(0), {}, 0, Proto);
    FastPathCovers(heap, Object(0), {}, 0);
  }

  // ----- When the whole function succeeds -----

  lemma {:induction false} OutItemsThrow(heap: Heap, items: seq<Out>)
    ensures PrintOutItems(heap, items).Text? <==> forall i | 0 <= i < |items| :: !PrintOut(heap, items[i]).Throws?
    ensures !PrintOutItems(heap, items).Omitted?
  {
    if items != [] { OutItemsThrow(heap, items[..|items| - 1]); }
  }

  lemma {:induction false} OutPropsThrow(heap: Heap, props: seq<Member>)
    ensures PrintOutProps(heap, props).Text? <==>
            (forall i | 0 <= i < |props| && props[i].Member? :: !PrintOut(heap, props[i].out).Throws?)
    ensures !PrintOutProps(heap, props).Omitted?
  {
    if props != [] { OutPropsThrow(heap, props[..|props| - 1]); }
  }

  lemma {:induction false} RawPropsThrow(heap: Heap, props: seq<(string, Value)>)
    ensures forall i | 0 <= i < |RawProps(props)| :: RawProps(props)[i].Member?
    ensures (forall i | 0 <= i < |RawProps(props)| :: !PrintOut(heap, RawProps(props)[i].out).Throws?) <==>
            ExtrasSafe(heap, props)
  {
    if props != [] {
      var init, last := props[..|props| - 1], props[|props| - 1];
      RawPropsThrow(heap, init);
      PrintThrowsUnlessSafe(heap, last.1, {});
      var raw, rest := RawProps(props), RawProps(init);
      assert forall i | 0 <= i < |rest| :: raw[i] == rest[i];
      assert ExtrasSafe(heap, props) <==>
             ExtrasSafe(heap, init) && (IsExtra(last.0) ==> JsonSafe(heap, last.1, {})) by {
        assert forall i | 0 <= i < |init| :: props[i] == init[i];
      }
      if |raw| > |rest| { assert raw[|rest|] == Member(last.0, ORaw(last.1)); }
    }
  }

  lemma HeadPrints(heap: Heap, e: Node, i: nat)
    requires e.Err? && i < |ErrorHead(e)|
    ensures ErrorHead(e)[i].Member? && !PrintOut(heap, ErrorHead(e)[i].out).Throws?
  {
    assert ErrorHead(e)[i].out.OStr? || ErrorHead(e)[i].out.ONum? || ErrorHead(e)[i].out.ONull?;
  }

  lemma ExtrasPrint(heap: Heap, props: seq<(string, Value)>)
    ensures PrintOut(heap, ORec(RawProps(props))).Throws? <==> !ExtrasSafe(heap, props)
  {
    RawPropsThrow(heap, props);
    OutPropsThrow(heap, RawProps(props));
  }

  lemma ErrorPrintThrows(heap: Heap, e: Node)
    requires e.Err?
    ensures PrintOut(heap, SerializeError(e)).Text? <==> ExtrasSafe(heap, e.props)
    ensures !PrintOut(heap, SerializeError(e)).Omitted?
  {
    var head, extras, all := ErrorHead(e), RawProps(e.props), SerializeError(e).props;
    RawPropsThrow(heap, e.props);
    ExtrasPrint(heap, e.props);
    OutPropsThrow(heap, all);
    forall i | 0 <= i < |head| ensures all[i] == head[i] && all[i].Member? && !PrintOut(heap, all[i].out).Throws? {
      HeadPrints(heap, e, i);
    }
    if extras != [] { assert |all| == |head| + 1 && all[|head|].out == ORec(extras); }
  }

  /** A container throws exactly when one of its children does. */
  lemma ContainerThrows(heap: Heap, r: Ref, seen: set<Ref>, depth: nat)
    requires depth <= MAX_NORMALIZE_DEPTH && r !in seen && !NodeAt(heap, r).Err?
    ensures var o, cs := PrintOut(heap, Normalize(heap, Object(r), seen, depth)), Children(NodeAt(heap, r));
            && !o.Omitted?
            && (o.Text? <==> forall i | 0 <= i < |cs| && !Dropped(NodeAt(heap, r), i) ::
                               !PrintOut(heap, Normalize(heap, cs[i], seen + {r}, depth + 1)).Throws?)
  {
    var node, o := NodeAt(heap, r), Normalize(heap, Object(r), seen, depth);
    var cs := Children(node);
    if node.Arr? {
      OutItemsThrow(heap, o.items);
      assert forall i | 0 <= i < |cs| :: o.items[i] == Normalize(heap, cs[i], seen + {r}, depth + 1);
    } else {
      OutPropsThrow(heap, o.props);
      forall i | 0 <= i < |cs|
        ensures o.props[i] == Assigned(node.props[i].0, Normalize(heap, cs[i], seen + {r}, depth + 1))
      {
      }
      forall i | 0 <= i < |cs| ensures o.props[i].Member? <==> !Dropped(node, i) { }
    }
  }

  lemma {:induction false} NormalizedPrintThrows(heap: Heap, v: Value, seen: set<Ref>, depth: nat)
    ensures PrintOut(heap, Normalize(heap, v, seen, depth)).Throws? <==> !CleanFrom(heap, v, seen, depth, Extras)
    ensures v.Object? ==> !PrintOut(heap, Normalize(heap, v, seen, depth)).Omitted?
    decreases MAX_NORMALIZE_DEPTH + 1 - depth
  {
    if depth <= MAX_NORMALIZE_DEPTH && v.Object? {
      var r, node := v.ref, NodeAt(heap, v.ref);
      if node.Err? {
        ErrorPrintThrows(heap, node);
      } else if r !in seen {
        var cs := Children(node);
        forall i | 0 <= i < |cs|
          ensures PrintOut(heap, Normalize(heap, cs[i], seen + {r}, depth + 1)).Throws? <==>
                  !CleanFrom(heap, cs[i], seen + {r}, depth + 1, Extras)
        {
          NormalizedPrintThrows(heap, cs[i], seen + {r}, depth + 1);
        }
        ContainerThrows(heap, r, seen, depth);
      }
    }
  }

  /**
  The text of an object is that of its normalised tree exactly when the tree was needed anyway or no
  reached record has an own `__proto__` that prints.
   */
  lemma StringifyPrintsNormalisedIff(heap: Heap, r: Ref)
    ensures StringifyForMcp(heap, Object(r)) == PrintOut(heap, Normalize(heap, Object(r), {}, 0)) <==>
            RequiresDeep(heap, Object(r), {}, 0) || AllOk(heap, Object(r), Proto)
  {
    if !RequiresDeep(heap, Object(r), {}, 0) {
      FastPathCovers(heap, Object(r), {}, 0);
      FastPathAgreesIff(heap, Object(r));
    }
  }

  /**
  The function yields a JSON text, never `undefined`, exactly when every error object in the tree
  carries extras that print; extras are the one thing the walk does not normalise.
   */
  lemma StringifySucceedsIff(heap: Heap, v: Value)
    ensures StringifyForMcp(heap, v).Text? <==> AllOk(heap, v, Extras)
    ensures !StringifyForMcp(heap, v).Omitted?
  {
    CleanIffAllOk(heap, v, Extras);
    if v.Object? {
      NormalizedPrintThrows(heap, v, {}, 0);
      if !RequiresDeep(heap, v, {}, 0) { FastPathCovers(heap, v, {}, 0); }
    }
  }

  /** An error carrying a big integer under an ordinary key makes printing throw. */
  lemma UnsafeExtraThrows(name: string, message: string, key: string, n: int)
    requires IsExtra(key)
    ensures StringifyForMcp(map[0 := Err(name, message, None, [(key, BigInt(n))])], Object(0)).Throws?
  {
    var e := Err(name, message, None, [(key, BigInt(n))]);
    assert e.props[0] == (key, BigInt(n));
    ErrorPrintThrows(map[0 := e], e);
  }

  /** The same big integer in a plain record does not. */
  lemma SameValueInRecordPrints(key: string, n: int)
    ensures StringifyForMcp(map[0 := Rec([(key, BigInt(n))])], Object(0)).Text?
  {
    var heap := map[0 := Rec([(key, BigInt(n))])];
    assert Children(heap[0]) == [BigInt(n)];
    assert RequiresDeep(heap, Object(0), {}, 0) by { assert RequiresDeep(heap, Children(heap[0])[0], {0}, 1); }
    NormalizedPrintThrows(heap, Object(0), {}, 0);
  }
}

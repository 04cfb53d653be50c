/**
What the normaliser makes of leaves and errors, stated by the value, and what the printed text says: a
reader of JSON tokens gets back exactly the tree that was printed.
 */
module JsonReading {
  import opened Wrappers
  import opened JsonNormalizer
  import opened JsonPrinting

  // ----- Leaves -----

  function DigitValue(c: char): int { c as int - '0' as int }

  function ReadDigits(s: string): int {
    if s == "" then 0 else ReadDigits(s[..|s| - 1]) * 10 + DigitValue(s[|s| - 1])
  }

  function ReadInteger(s: string): int {
    if s != "" && s[0] == '-' then -ReadDigits(s[1..]) else ReadDigits(s)
  }

  lemma {:induction false} DigitsReadBack(n: nat)
    ensures Digits(n) != "" && ReadDigits(Digits(n)) == n
    ensures forall i | 0 <= i < |Digits(n)| :: '0' <= Digits(n)[i] <= '9'
  {
    if n < 10 {
      var s := Digits(n);
      assert s[..0] == "";
    } else {
      DigitsReadBack(n / 10);
      var s := Digits(n);
      assert s[..|s| - 1] == Digits(n / 10);
    }
  }

  /** The text of a big integer is the decimal numeral of it. */
  lemma BigIntReadsBack(n: int)
    ensures ReadInteger(BigIntText(n)) == n
  {
    if n < 0 {
      DigitsReadBack(-n);
      assert ("-" + Digits(-n))[1..] == Digits(-n);
    } else {
      DigitsReadBack(n);
    }
  }

  /** What stands for a value that is not an object. */
  ghost predicate IsLeafOf(v: Value, o: Out) {
    match v
    case Null => o == ONull
    case Undefined => o == OUndefined
    case Str(s) => o == OStr(s)
    case Bool(b) => o == OBool(b)
    case Num(n) => o == ONum(n)
    case NonFinite => o == ONull
    case BigInt(n) => o.OStr? && ReadInteger(o.s) == n
    case Symbol(d) => o == OStr("Symbol(" + d + ")")
    case Function(src) => o == OStr(if src == "" then "[function <anonymous>]" else src)
    case Object(_) => false
  }

  /** At every reached position within the depth bound, a value that is not an object is there as its leaf. */
  lemma LeafAtPosition(heap: Heap, v: Value, path: Path, w: Value)
    requires ValueAt(heap, v, path) == Some(w) && !w.Object? && Reached(heap, v, path) && |path| <= 64
    ensures OutAt(Normalize(heap, v, {}, 0), path).Some?
    ensures IsLeafOf(w, OutAt(Normalize(heap, v, {}, 0), path).value)
  {
    TreeFollowsGraph(heap, v, path);
    if w.BigInt? { BigIntReadsBack(w.n); }
  }

  /** A container at a reached position keeps its kind, its members' keys and their order, up to `__proto__`. */
  lemma ContainerAtPosition(heap: Heap, v: Value, path: Path, r: Ref)
    requires ValueAt(heap, v, path) == Some(Object(r)) && Reached(heap, v, path) && |path| <= 64
    requires !NodeAt(heap, r).Err? && r !in Ancestors(heap, v, path)
    ensures OutAt(Normalize(heap, v, {}, 0), path).Some?
    ensures var node, o := NodeAt(heap, r), OutAt(Normalize(heap, v, {}, 0), path).value;
            if node.Arr? then o.OArr? && |o.items| == |node.items|
            else && o.ORec? && |o.props| == |node.props|
                 && forall i | 0 <= i < |node.props| ::
                      if node.props[i].0 == "__proto__" then o.props[i] == NoMember
                      else o.props[i].Member? && o.props[i].key == node.props[i].0
  {
    TreeFollowsGraph(heap, v, path);
  }

  // ----- Errors -----

  /** The member of a printed object under a key. */
  function Get(props: seq<Member>, key: string): Option<Out> {
    if props == [] then None
    else if props[|props| - 1].Member? && props[|props| - 1].key == key then Some(props[|props| - 1].out)
    else Get(props[..|props| - 1], key)
  }

  lemma {:induction false} GetOfConcat(a: seq<Member>, b: seq<Member>, key: string)
    ensures Get(a + b, key) == if Get(b, key).Some? then Get(b, key) else Get(a, key)
  {
    if b == [] {
      assert a + b == a;
    } else {
      GetOfConcat(a, b[..|b| - 1], key);
      assert (a + b)[..|a + b| - 1] == a + b[..|b| - 1];
    }
  }

  lemma GetOfOne(m: Member, key: string)
    ensures Get([m], key) == if m.Member? && m.key == key then Some(m.out) else None
  {
    assert [m][..0] == [];
  }

  /** The keys that stand for parts of the error itself. */
  predicate IsOwnPart(key: string) { key == "message" || key == "stack" || key == "name" }

  /** The details of an error hold exactly its own members, as they are, except its own parts and `__proto__`. */
  lemma {:induction false} DetailsHoldTheRest(props: seq<(string, Value)>, key: string)
    ensures Get(RawProps(props), key) ==
            if IsOwnPart(key) || key == "__proto__" then None
            else match PropOf(props, key) case Some(v) => Some(ORaw(v)) case None => None
    ensures RawProps(props) == [] <==>
            forall i | 0 <= i < |props| :: IsOwnPart(props[i].0) || props[i].0 == "__proto__"
  {
    if props != [] {
      var init, last := props[..|props| - 1], props[|props| - 1];
      DetailsHoldTheRest(init, key);
      if IsExtra(last.0) {
        GetOfConcat(RawProps(init), [Member(last.0, ORaw(last.1))], key);
        GetOfOne(Member(last.0, ORaw(last.1)), key);
      } else {
        assert RawProps(props) == RawProps(init);
      }
    }
  }

  function CodePart(code: Option<Value>): Option<Out> {
    match code
    case Some(Str(s)) => Some(OStr(s))
    case Some(Num(n)) => Some(ONum(n))
    case Some(NonFinite) => Some(ONull)
    case _ => None
  }

  function RawText(e: Node): string
    requires e.Err?
  {
    if e.stack.Some? then e.stack.value else e.name + ": " + e.message
  }

  lemma GetOfFour(a: Member, b: Member, c: Member, d: Member, key: string)
    requires a.Member? && b.Member? && c.Member? && d.Member?
    ensures Get([a, b, c, d], key) ==
            if d.key == key then Some(d.out) else if c.key == key then Some(c.out)
            else if b.key == key then Some(b.out) else if a.key == key then Some(a.out) else None
  {
    var all := [a, b, c, d];
    assert all[..3] == [a, b, c] && [a, b, c][..2] == [a, b] && [a, b][..1] == [a];
    GetOfOne(a, key);
    assert Get([a, b], key) == if b.key == key then Some(b.out) else Get([a], key);
    assert Get([a, b, c], key) == if c.key == key then Some(c.out) else Get([a, b], key);
  }

  /** The head of a serialised error, looked up by key. */
  lemma HeadParts(e: Node, key: string)
    requires e.Err?
    ensures Get(ErrorHead(e), key) ==
            if key == "type" then Some(OStr("error"))
            else if key == "name" then Some(OStr(e.name))
            else if key == "message" then Some(OStr(e.message))
            else if key == "raw" then Some(OStr(if e.stack.Some? then e.stack.value else e.name + ": " + e.message))
            else if key == "code" then CodePart(PropOf(e.props, "code"))
            else if key == "stack" then (if e.stack.Some? then Some(OStr(e.stack.value)) else None)
            else None
  {
    var a, b, c, d := Member("type", OStr("error")), Member("name", OStr(e.name)),
                      Member("message", OStr(e.message)), Member("raw", OStr(RawText(e)));
    var four, code := [a, b, c, d], CodeMember(PropOf(e.props, "code"));
    var stack := if e.stack.Some? then [Member("stack", OStr(e.stack.value))] else [];
    assert ErrorHead(e) == four + code + stack;
    GetOfConcat(four + code, stack, key);
    GetOfConcat(four, code, key);
    GetOfFour(a, b, c, d, key);
    if code != [] { GetOfOne(code[0], key); }
    if stack != [] { GetOfOne(stack[0], key); }
  }

  /**
  An error comes out with its own name, message, text, code and stack under those keys, and with its other
  own members, exactly those and as they are, under `details`, which is absent when there are none.
   */
  lemma ErrorIsItself(heap: Heap, v: Value, r: Ref, seen: set<Ref>, depth: nat, key: string)
    requires v == Object(r) && NodeAt(heap, r).Err? && depth <= 64
    ensures var e, o := NodeAt(heap, r), Normalize(heap, v, seen, depth);
            && o.ORec?
            && Get(o.props, "type") == Some(OStr("error")) && Get(o.props, "name") == Some(OStr(e.name))
            && Get(o.props, "message") == Some(OStr(e.message))
            && Get(o.props, "raw") == Some(OStr(if e.stack.Some? then e.stack.value else e.name + ": " + e.message))
            && Get(o.props, "stack") == (if e.stack.Some? then Some(OStr(e.stack.value)) else None)
            && Get(o.props, "code") == CodePart(PropOf(e.props, "code"))
            && (key !in {"type", "name", "message", "raw", "stack", "code", "details"} ==> Get(o.props, key) == None)
    ensures var e, o := NodeAt(heap, r), Normalize(heap, v, seen, depth);
            if forall i | 0 <= i < |e.props| :: IsOwnPart(e.props[i].0) || e.props[i].0 == "__proto__"
            then Get(o.props, "details") == None
            else && Get(o.props, "details").Some? && Get(o.props, "details").value.ORec?
                 && Get(Get(o.props, "details").value.props, key) ==
                    if IsOwnPart(key) || key == "__proto__" then None
                    else match PropOf(e.props, key) case Some(x) => Some(ORaw(x)) case None => None
  {
    var e := NodeAt(heap, r);
    var extras := RawProps(e.props);
    var details := if extras != [] then [Member("details", ORec(extras))] else [];
    DetailsHoldTheRest(e.props, key);
    ErrorPart(e, details, "type");
    ErrorPart(e, details, "name");
    ErrorPart(e, details, "message");
    ErrorPart(e, details, "raw");
    ErrorPart(e, details, "stack");
    ErrorPart(e, details, "code");
    ErrorPart(e, details, "details");
    ErrorPart(e, details, key);
  }

  lemma ErrorPart(e: Node, details: seq<Member>, key: string)
    requires e.Err? && details == if RawProps(e.props) != [] then [Member("details", ORec(RawProps(e.props)))] else []
    ensures Get(SerializeError(e).props, key) ==
            if key == "details" && details != [] then Some(ORec(RawProps(e.props))) else Get(ErrorHead(e), key)
    ensures key == "details" ==> Get(ErrorHead(e), key) == None
    ensures Get(ErrorHead(e), key) ==
            if key == "type" then Some(OStr("error"))
            else if key == "name" then Some(OStr(e.name))
            else if key == "message" then Some(OStr(e.message))
            else if key == "raw" then Some(OStr(if e.stack.Some? then e.stack.value else e.name + ": " + e.message))
            else if key == "code" then CodePart(PropOf(e.props, "code"))
            else if key == "stack" then (if e.stack.Some? then Some(OStr(e.stack.value)) else None)
            else None
  {
    HeadParts(e, key);
    GetOfConcat(ErrorHead(e), details, key);
    if details != [] { GetOfOne(details[0], key); }
  }

  lemma {:induction false} PropOfFindsLast(props: seq<(string, Value)>, i: nat)
    requires i < |props| && forall j | i < j < |props| :: props[j].0 != props[i].0
    ensures PropOf(props, props[i].0) == Some(props[i].1)
  {
    if i < |props| - 1 {
      var init := props[..|props| - 1];
      assert init[i] == props[i];
      PropOfFindsLast(init, i);
    }
  }

  lemma {:induction false} ItemHeight(os: seq<Out>, i: nat)
    requires i < |os|
    ensures Height(os[i]) <= MaxHeight(os)
  {
    if i < |os| - 1 { ItemHeight(os[..|os| - 1], i); }
  }

  lemma {:induction false} PropHeight(ps: seq<Member>, i: nat)
    requires i < |ps| && ps[i].Member?
    ensures Height(ps[i].out) <= MaxPropHeight(ps)
  {
    if i < |ps| - 1 { PropHeight(ps[..|ps| - 1], i); }
  }

  /** A tree is at least as high as any position in it is deep. */
  lemma {:induction false} DeepIsHigh(o: Out, path: Path)
    requires OutAt(o, path).Some?
    ensures |path| + Height(OutAt(o, path).value) <= Height(o)
  {
    if path != [] {
      var parent, i := OutAt(o, path[..|path| - 1]).value, path[|path| - 1];
      DeepIsHigh(o, path[..|path| - 1]);
      if parent.OArr? { ItemHeight(parent.items, i); } else { PropHeight(parent.props, i); }
    }
  }

  /** Nothing in the tree lies more than 66 steps down, and what was 65 steps down is cut. */
  lemma CutAtDepth(heap: Heap, v: Value, path: Path)
    ensures OutAt(Normalize(heap, v, {}, 0), path).Some? ==> |path| <= 66
    ensures ValueAt(heap, v, path).Some? && Reached(heap, v, path) && |path| == 65 ==>
            OutAt(Normalize(heap, v, {}, 0), path) == Some(OStr("[max depth reached]"))
  {
    NormalizedHeight(heap, v, {}, 0);
    if OutAt(Normalize(heap, v, {}, 0), path).Some? { DeepIsHigh(Normalize(heap, v, {}, 0), path); }
    if ValueAt(heap, v, path).Some? { TreeFollowsGraph(heap, v, path); }
  }

  // ----- Reading tokens -----

  datatype Tree =
    | TreeNull | TreeStr(s: string) | TreeBool(b: bool) | TreeNum(n: int)
    | TreeArr(items: seq<Tree>) | TreeObj(fields: seq<Field>)

  datatype Field = Field(key: string, value: Tree)

  /** A reader of JSON: the value at the front, and what follows it. */
  function Read(ts: seq<Token>): (r: Option<(Tree, seq<Token>)>)
    ensures r.Some? ==> |r.value.1| < |ts|
    decreases |ts|, 0
  {
    if ts == [] then None
    else match ts[0]
      case TNull => Some((TreeNull, ts[1..]))
      case TStr(s) => Some((TreeStr(s), ts[1..]))
      case TBool(b) => Some((TreeBool(b), ts[1..]))
      case TNum(n) => Some((TreeNum(n), ts[1..]))
      case LBracket =>
        if |ts| > 1 && ts[1] == RBracket then Some((TreeArr([]), ts[2..])) else ReadItems([], ts[1..])
      case LBrace =>
        if |ts| > 1 && ts[1] == RBrace then Some((TreeObj([]), ts[2..])) else ReadMembers([], ts[1..])
      case _ => None
  }

  function ReadItems(done: seq<Tree>, ts: seq<Token>): (r: Option<(Tree, seq<Token>)>)
    ensures r.Some? ==> |r.value.1| < |ts|
    decreases |ts|, 1
  {
    match Read(ts)
    case None => None
    case Some((t, rest)) =>
      if rest == [] then None
      else if rest[0] == Comma then ReadItems(done + [t], rest[1..])
      else if rest[0] == RBracket then Some((TreeArr(done + [t]), rest[1..]))
      else None
  }

  function ReadMembers(done: seq<Field>, ts: seq<Token>): (r: Option<(Tree, seq<Token>)>)
    ensures r.Some? ==> |r.value.1| < |ts|
    decreases |ts|, 1
  {
    if |ts| < 2 || !ts[0].TStr? || ts[1] != Colon then None
    else match Read(ts[2..])
      case None => None
      case Some((t, rest)) =>
        if rest == [] then None
        else if rest[0] == Comma then ReadMembers(done + [Field(ts[0].s, t)], rest[1..])
        else if rest[0] == RBrace then Some((TreeObj(done + [Field(ts[0].s, t)]), rest[1..]))
        else None
  }

  /** The tokens of a tree, followed by `rest`. */
  function SpellTo(t: Tree, rest: seq<Token>): (ts: seq<Token>)
    ensures ts != [] && ts[0] != RBracket && ts[0] != RBrace
    decreases t, 0
  {
    match t
    case TreeNull => [TNull] + rest
    case TreeStr(s) => [TStr(s)] + rest
    case TreeBool(b) => [TBool(b)] + rest
    case TreeNum(n) => [TNum(n)] + rest
    case TreeArr(items) => [LBracket] + ItemsTo(items, [RBracket] + rest)
    case TreeObj(fields) => [LBrace] + FieldsTo(fields, [RBrace] + rest)
  }

  function ItemsTo(items: seq<Tree>, rest: seq<Token>): seq<Token>
    decreases items, 1
  {
    if items == [] then rest else SpellTo(items[0], MoreItemsTo(items[1..], rest))
  }

  function MoreItemsTo(items: seq<Tree>, rest: seq<Token>): seq<Token>
    decreases items, 2
  {
    if items == [] then rest else [Comma] + ItemsTo(items, rest)
  }

  function FieldTo(f: Field, rest: seq<Token>): (ts: seq<Token>)
    ensures |ts| >= 2 && ts[0] == TStr(f.key)
    decreases f, 0
  {
    [TStr(f.key)] + ([Colon] + SpellTo(f.value, rest))
  }

  function FieldsTo(fields: seq<Field>, rest: seq<Token>): seq<Token>
    decreases fields, 1
  {
    if fields == [] then rest else FieldTo(fields[0], MoreFieldsTo(fields[1..], rest))
  }

  function MoreFieldsTo(fields: seq<Field>, rest: seq<Token>): seq<Token>
    decreases fields, 2
  {
    if fields == [] then rest else [Comma] + FieldsTo(fields, rest)
  }

  lemma DropFirst(x: Token, rest: seq<Token>)
    ensures ([x] + rest)[0] == x && ([x] + rest)[1..] == rest
  {
  }

  lemma DropTwo(x: Token, y: Token, rest: seq<Token>)
    ensures var ts := [x] + ([y] + rest); ts[0] == x && ts[1] == y && ts[2..] == rest
  {
  }

  /** Reading what was spelled gives the tree back and leaves what follows. */
  lemma {:induction false} ReadsBack(t: Tree, rest: seq<Token>)
    ensures Read(SpellTo(t, rest)) == Some((t, rest))
    decreases t, 0
  {
    match t
    case TreeNull => DropFirst(TNull, rest);
    case TreeStr(s) => DropFirst(TStr(s), rest);
    case TreeBool(b) => DropFirst(TBool(b), rest);
    case TreeNum(n) => DropFirst(TNum(n), rest);
    case TreeArr(items) => ArrayReadsBack(items, rest);
    case TreeObj(fields) => ObjectReadsBack(fields, rest);
  }

  lemma {:induction false} ArrayReadsBack(items: seq<Tree>, rest: seq<Token>)
    ensures Read(SpellTo(TreeArr(items), rest)) == Some((TreeArr(items), rest))
    decreases items, 2
  {
    var body := ItemsTo(items, [RBracket] + rest);
    DropFirst(LBracket, body);
    if items == [] {
      DropTwo(LBracket, RBracket, rest);
    } else {
      assert ([LBracket] + body)[1] == body[0];
      ItemsReadBack([], items, rest);
      assert [] + items == items;
    }
  }

  lemma {:induction false} ObjectReadsBack(fields: seq<Field>, rest: seq<Token>)
    ensures Read(SpellTo(TreeObj(fields), rest)) == Some((TreeObj(fields), rest))
    decreases fields, 2
  {
    var body := FieldsTo(fields, [RBrace] + rest);
    DropFirst(LBrace, body);
    if fields == [] {
      DropTwo(LBrace, RBrace, rest);
    } else {
      var f := fields[0];
      assert body == FieldTo(f, MoreFieldsTo(fields[1..], [RBrace] + rest));
      assert ([LBrace] + body)[1] == TStr(f.key);
      FieldsReadBack([], fields, rest);
      assert [] + fields == fields;
    }
  }

  lemma {:induction false} ItemsReadBack(done: seq<Tree>, items: seq<Tree>, rest: seq<Token>)
    requires items != []
    ensures ReadItems(done, ItemsTo(items, [RBracket] + rest)) == Some((TreeArr(done + items), rest))
    decreases items, 1
  {
    var first, others, close := items[0], items[1..], [RBracket] + rest;
    assert items == [first] + others;
    ReadsBack(first, MoreItemsTo(others, close));
    if others == [] {
      assert MoreItemsTo(others, close) == close && done + [first] == done + items;
      DropFirst(RBracket, rest);
    } else {
      DropFirst(Comma, ItemsTo(others, close));
      ItemsReadBack(done + [first], others, rest);
      assert (done + [first]) + others == done + items;
    }
  }

  lemma {:induction false} FieldsReadBack(done: seq<Field>, fields: seq<Field>, rest: seq<Token>)
    requires fields != []
    ensures ReadMembers(done, FieldsTo(fields, [RBrace] + rest)) == Some((TreeObj(done + fields), rest))
    decreases fields, 1
  {
    var first, others, close := fields[0], fields[1..], [RBrace] + rest;
    assert fields == [first] + others;
    DropTwo(TStr(first.key), Colon, SpellTo(first.value, MoreFieldsTo(others, close)));
    ReadsBack(first.value, MoreFieldsTo(others, close));
    if others == [] {
      assert MoreFieldsTo(others, close) == close && done + [first] == done + fields;
      DropFirst(RBrace, rest);
    } else {
      DropFirst(Comma, FieldsTo(others, close));
      FieldsReadBack(done + [first], others, rest);
      assert (done + [first]) + others == done + fields;
    }
  }

  // ----- The printers spell trees -----

  /** One more item at the end. */
  lemma {:induction false} ItemsToMore(items: seq<Tree>, x: Tree, rest: seq<Token>)
    ensures ItemsTo(items + [x], rest) ==
            ItemsTo(items, if items == [] then SpellTo(x, rest) else [Comma] + SpellTo(x, rest))
    ensures MoreItemsTo(items + [x], rest) == MoreItemsTo(items, [Comma] + SpellTo(x, rest))
  {
    var all := items + [x];
    if items == [] {
      assert all == [x] && all[1..] == [];
      assert ItemsTo(all, rest) == SpellTo(x, MoreItemsTo([], rest));
    } else {
      assert all[0] == items[0] && all[1..] == items[1..] + [x];
      ItemsToMore(items[1..], x, rest);
    }
  }

  lemma {:induction false} FieldsToMore(fields: seq<Field>, x: Field, rest: seq<Token>)
    ensures FieldsTo(fields + [x], rest) ==
            FieldsTo(fields, if fields == [] then FieldTo(x, rest) else [Comma] + FieldTo(x, rest))
    ensures MoreFieldsTo(fields + [x], rest) == MoreFieldsTo(fields, [Comma] + FieldTo(x, rest))
  {
    var all := fields + [x];
    if fields == [] {
      assert all == [x] && all[1..] == [];
      assert FieldsTo(all, rest) == FieldTo(x, MoreFieldsTo([], rest));
    } else {
      assert all[0] == fields[0] && all[1..] == fields[1..] + [x];
      FieldsToMore(fields[1..], x, rest);
    }
  }

  /** The JSON value of a host value, if it has one, as the ECMAScript function `JSON.stringify` sees it. */
  function HostTree(heap: Heap, v: Value, open: set<Ref>): Option<Tree>
    decreases heap.Keys - open, 0
  {
    match v
    case Null => Some(TreeNull)
    case NonFinite => Some(TreeNull)
    case Str(s) => Some(TreeStr(s))
    case Bool(b) => Some(TreeBool(b))
    case Num(n) => Some(TreeNum(n))
    case Object(r) =>
      if r in open then None
      else if r !in heap then Some(TreeObj([]))
      else if heap[r].Arr? then Some(TreeArr(HostItems(heap, heap[r].items, open + {r})))
      else Some(TreeObj(HostFields(heap, heap[r].props, open + {r})))
    case _ => None
  }

  function OrNull(t: Option<Tree>): Tree { if t.Some? then t.value else TreeNull }

  function IfAny(key: string, t: Option<Tree>): seq<Field> { if t.Some? then [Field(key, t.value)] else [] }

  function HostItems(heap: Heap, items: seq<Value>, open: set<Ref>): seq<Tree>
    decreases heap.Keys - open, |items|
  {
    if items == [] then []
    else HostItems(heap, items[..|items| - 1], open) + [OrNull(HostTree(heap, items[|items| - 1], open))]
  }

  function HostFields(heap: Heap, props: seq<(string, Value)>, open: set<Ref>): seq<Field>
    decreases heap.Keys - open, |props|
  {
    if props == [] then []
    else
      var (key, v) := props[|props| - 1];
      HostFields(heap, props[..|props| - 1], open) + IfAny(key, HostTree(heap, v, open))
  }

  /** The printed result is that of an optional tree. */
  ghost predicate Says(p: Printed, t: Option<Tree>) {
    match p
    case Throws => true
    case Omitted => t == None
    case Text(ts) => t.Some? && forall rest: seq<Token> :: ts + rest == SpellTo(t.value, rest)
  }

  ghost predicate SaysItems(p: Printed, items: seq<Tree>) {
    p.Text? ==> forall rest: seq<Token> :: p.tokens + rest == ItemsTo(items, rest)
  }

  ghost predicate SaysFields(p: Printed, fields: seq<Field>) {
    p.Text? ==>
      && (p.tokens == [] <==> fields == [])
      && forall rest: seq<Token> :: p.tokens + rest == FieldsTo(fields, rest)
  }

  lemma Regroup(x: seq<Token>, y: seq<Token>, z: seq<Token>)
    ensures (x + y) + z == x + (y + z)
  {
  }

  lemma EmptyFront(rest: seq<Token>)
    ensures [] + rest == rest
  {
  }

  lemma ItemSays(init: Printed, items: seq<Tree>, item: Printed, t: Option<Tree>)
    requires SaysItems(init, items) && Says(item, t)
    ensures SaysItems(AppendItem(init, items == [], item), items + [OrNull(t)])
  {
    var p := AppendItem(init, items == [], item);
    if p.Text? {
      var comma, x := if items == [] then [] else [Comma], OrNull(t);
      var own := if item.Omitted? then [TNull] else item.tokens;
      forall rest: seq<Token> ensures p.tokens + rest == ItemsTo(items + [x], rest) {
        assert own + rest == SpellTo(x, rest);
        Regroup(init.tokens + comma, own, rest);
        Regroup(init.tokens, comma, own + rest);
        EmptyFront(SpellTo(x, rest));
        ItemsToMore(items, x, rest);
      }
    }
  }

  lemma FieldSays(init: Printed, fields: seq<Field>, key: string, item: Printed, t: Option<Tree>)
    requires SaysFields(init, fields) && Says(item, t)
    ensures SaysFields(AppendProp(init, key, item), fields + IfAny(key, t))
  {
    var p := AppendProp(init, key, item);
    if p.Text? && item.Omitted? {
      assert fields + [] == fields;
    } else if p.Text? {
      var comma, f := if fields == [] then [] else [Comma], Field(key, t.value);
      forall rest: seq<Token> ensures p.tokens + rest == FieldsTo(fields + [f], rest) {
        assert item.tokens + rest == SpellTo(t.value, rest);
        var head := [TStr(key), Colon];
        Regroup(init.tokens + comma + head, item.tokens, rest);
        Regroup(init.tokens + comma, head, item.tokens + rest);
        Regroup(init.tokens, comma, head + (item.tokens + rest));
        assert head + SpellTo(t.value, rest) == FieldTo(f, rest);
        EmptyFront(FieldTo(f, rest));
        FieldsToMore(fields, f, rest);
      }
    }
  }

  lemma WrapItemsSays(p: Printed, items: seq<Tree>)
    requires SaysItems(p, items) && !p.Omitted?
    ensures Says(Wrap(LBracket, p, RBracket), Some(TreeArr(items)))
  {
    if p.Text? {
      forall rest: seq<Token> ensures Wrap(LBracket, p, RBracket).tokens + rest == SpellTo(TreeArr(items), rest) {
        Regroup([LBracket] + p.tokens, [RBracket], rest);
        Regroup([LBracket], p.tokens, [RBracket] + rest);
      }
    }
  }

  lemma WrapFieldsSays(p: Printed, fields: seq<Field>)
    requires SaysFields(p, fields) && !p.Omitted?
    ensures Says(Wrap(LBrace, p, RBrace), Some(TreeObj(fields)))
  {
    if p.Text? {
      forall rest: seq<Token> ensures Wrap(LBrace, p, RBrace).tokens + rest == SpellTo(TreeObj(fields), rest) {
        Regroup([LBrace] + p.tokens, [RBrace], rest);
        Regroup([LBrace], p.tokens, [RBrace] + rest);
      }
    }
  }

  lemma NothingSaid()
    ensures SaysItems(Text([]), []) && SaysFields(Text([]), [])
  {
    forall rest: seq<Token> ensures [] + rest == rest { }
  }

  lemma {:induction false} PrintSays(heap: Heap, v: Value, open: set<Ref>)
    ensures Says(Print(heap, v, open), HostTree(heap, v, open))
    decreases heap.Keys - open, 0
  {
    if v.Object? && v.ref !in open {
      if v.ref !in heap {
        NothingSaid();
        WrapFieldsSays(Text([]), []);
        assert Wrap(LBrace, Text([]), RBrace) == Text([LBrace, RBrace]);
      } else if heap[v.ref].Arr? {
        var items, inner := heap[v.ref].items, open + {v.ref};
        PrintItemsSay(heap, items, inner);
        WrapItemsSays(PrintItems(heap, items, inner), HostItems(heap, items, inner));
      } else {
        var props, inner := heap[v.ref].props, open + {v.ref};
        PrintPropsSay(heap, props, inner);
        WrapFieldsSays(PrintProps(heap, props, inner), HostFields(heap, props, inner));
      }
    }
  }

  lemma {:induction false} PrintItemsSay(heap: Heap, items: seq<Value>, open: set<Ref>)
    ensures SaysItems(PrintItems(heap, items, open), HostItems(heap, items, open))
    ensures !PrintItems(heap, items, open).Omitted? && |HostItems(heap, items, open)| == |items|
    decreases heap.Keys - open, |items|
  {
    if items == [] {
      NothingSaid();
    } else {
      var init, last := items[..|items| - 1], items[|items| - 1];
      PrintItemsSay(heap, init, open);
      PrintSays(heap, last, open);
      ItemSays(PrintItems(heap, init, open), HostItems(heap, init, open),
               Print(heap, last, open), HostTree(heap, last, open));
    }
  }

  lemma {:induction false} PrintPropsSay(heap: Heap, props: seq<(string, Value)>, open: set<Ref>)
    ensures SaysFields(PrintProps(heap, props, open), HostFields(heap, props, open))
    ensures !PrintProps(heap, props, open).Omitted?
    decreases heap.Keys - open, |props|
  {
    if props == [] {
      NothingSaid();
    } else {
      var init, last := props[..|props| - 1], props[|props| - 1];
      PrintPropsSay(heap, init, open);
      PrintSays(heap, last.1, open);
      FieldSays(PrintProps(heap, init, open), HostFields(heap, init, open), last.0,
                Print(heap, last.1, open), HostTree(heap, last.1, open));
    }
  }

  /** The JSON value of a normalised tree, if it has one. */
  function OutTree(heap: Heap, o: Out): Option<Tree> {
    match o
    case ONull => Some(TreeNull)
    case OUndefined => None
    case OStr(s) => Some(TreeStr(s))
    case OBool(b) => Some(TreeBool(b))
    case ONum(n) => Some(TreeNum(n))
    case OArr(items) => Some(TreeArr(OutItems(heap, items)))
    case ORec(props) => Some(TreeObj(OutFields(heap, props)))
    case ORaw(v) => HostTree(heap, v, {})
  }

  function OutItems(heap: Heap, items: seq<Out>): seq<Tree> {
    if items == [] then []
    else OutItems(heap, items[..|items| - 1]) + [OrNull(OutTree(heap, items[|items| - 1]))]
  }

  function OutFields(heap: Heap, props: seq<Member>): seq<Field> {
    if props == [] then []
    else
      var init, m := OutFields(heap, props[..|props| - 1]), props[|props| - 1];
      if m.Member? then init + IfAny(m.key, OutTree(heap, m.out)) else init
  }

  lemma {:induction false} OutSays(heap: Heap, o: Out)
    ensures Says(PrintOut(heap, o), OutTree(heap, o))
  {
    match o
    case OArr(items) =>
      OutItemsSay(heap, items);
      WrapItemsSays(PrintOutItems(heap, items), OutItems(heap, items));
    case ORec(props) =>
      OutPropsSay(heap, props);
      WrapFieldsSays(PrintOutProps(heap, props), OutFields(heap, props));
    case ORaw(v) => PrintSays(heap, v, {});
    case _ =>
  }

  lemma {:induction false} OutItemsSay(heap: Heap, items: seq<Out>)
    ensures SaysItems(PrintOutItems(heap, items), OutItems(heap, items))
    ensures !PrintOutItems(heap, items).Omitted? && |OutItems(heap, items)| == |items|
  {
    if items == [] {
      NothingSaid();
    } else {
      var init, last := items[..|items| - 1], items[|items| - 1];
      OutItemsSay(heap, init);
      OutSays(heap, last);
      ItemSays(PrintOutItems(heap, init), OutItems(heap, init), PrintOut(heap, last), OutTree(heap, last));
    }
  }

  lemma {:induction false} OutPropsSay(heap: Heap, props: seq<Member>)
    ensures SaysFields(PrintOutProps(heap, props), OutFields(heap, props))
    ensures !PrintOutProps(heap, props).Omitted?
  {
    if props == [] {
      NothingSaid();
    } else {
      var init, m := props[..|props| - 1], props[|props| - 1];
      OutPropsSay(heap, init);
      if m.Member? {
        OutSays(heap, m.out);
        FieldSays(PrintOutProps(heap, init), OutFields(heap, init), m.key, PrintOut(heap, m.out), OutTree(heap, m.out));
      }
    }
  }

  lemma SaidIsRead(p: Printed, t: Option<Tree>)
    requires Says(p, t) && p.Text?
    ensures t.Some? && Read(p.tokens) == Some((t.value, []))
  {
    assert p.tokens + [] == p.tokens;
    ReadsBack(t.value, []);
  }

  /** Whatever is printed reads back as the JSON value of the host value, or of the normalised tree. */
  lemma PrintedReadsBack(heap: Heap, v: Value, open: set<Ref>, o: Out)
    ensures Print(heap, v, open).Text? ==>
            && HostTree(heap, v, open).Some?
            && Read(Print(heap, v, open).tokens) == Some((HostTree(heap, v, open).value, []))
    ensures PrintOut(heap, o).Text? ==>
            OutTree(heap, o).Some? && Read(PrintOut(heap, o).tokens) == Some((OutTree(heap, o).value, []))
  {
    PrintSays(heap, v, open);
    OutSays(heap, o);
    if Print(heap, v, open).Text? { SaidIsRead(Print(heap, v, open), HostTree(heap, v, open)); }
    if PrintOut(heap, o).Text? { SaidIsRead(PrintOut(heap, o), OutTree(heap, o)); }
  }

  /** A value that needs no deep walk and is not undefined is printed directly, primitives included. */
  lemma ShallowPrintsDirectly(heap: Heap, v: Value)
    requires !RequiresDeep(heap, v, {}, 0) && !v.Undefined?
    ensures StringifyForMcp(heap, v) == Print(heap, v, {}) && StringifyForMcp(heap, v).Text?
  {
    if v.Object? { FastPathCovers(heap, v, {}, 0); }
  }

  /** A value at the top that JSON has no place for is printed with its text and its type. */
  lemma EnvelopeReadsBack(heap: Heap, v: Value) returns (raw: string, kind: string)
    requires v.BigInt? || v.Symbol? || v.Function? || v.Undefined?
    ensures StringifyForMcp(heap, v).Text?
    ensures Read(StringifyForMcp(heap, v).tokens) ==
            Some((TreeObj([Field("raw", TreeStr(raw)), Field("type", TreeStr(kind))]), []))
    ensures v.BigInt? ==> kind == "bigint" && ReadInteger(raw) == v.n
    ensures v.Symbol? ==> kind == "symbol" && raw == "Symbol(" + v.description + ")"
    ensures v.Function? ==> kind == "function" && raw == (if v.source == "" then "[function <anonymous>]" else v.source)
    ensures v.Undefined? ==> kind == "undefined" && raw == "undefined"
  {
    kind := if v.BigInt? then "bigint" else if v.Symbol? then "symbol"
            else if v.Function? then "function" else "undefined";
    raw := if v.BigInt? then BigIntText(v.n) else if v.Symbol? then SymbolText(v.description)
           else if v.Function? then FunctionText(v.source) else "undefined";
    if v.BigInt? { BigIntReadsBack(v.n); }
    EnvelopeSpells(raw, kind);
    ReadsBack(TreeObj([Field("raw", TreeStr(raw)), Field("type", TreeStr(kind))]), []);
  }

  lemma EnvelopeSpells(raw: string, kind: string)
    ensures Envelope(raw, kind).tokens ==
            SpellTo(TreeObj([Field("raw", TreeStr(raw)), Field("type", TreeStr(kind))]), [])
  {
    var a, b, close := Field("raw", TreeStr(raw)), Field("type", TreeStr(kind)), [RBrace] + [];
    var two, one := [a, b], [b];
    assert two[1..] == one && one[1..] == [];
    assert FieldTo(b, close) == [TStr("type"), Colon, TStr(kind), RBrace];
    assert FieldsTo(one, close) == FieldTo(b, MoreFieldsTo([], close));
    assert MoreFieldsTo(one, close) == [Comma] + FieldTo(b, close);
    assert FieldsTo(two, close) == FieldTo(a, MoreFieldsTo(one, close));
  }
}

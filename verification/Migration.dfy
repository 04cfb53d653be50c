/**
Migrating a project configuration: three rewrites of legacy fields, the remediation they report, and
the line diff shown for review. `base` is the file-name part of a path.
 */
module Migration {
  import opened Wrappers
  import opened Json
  import opened TextLines

  type Basename = string -> string

  predicate IsLetter(c: char) { 'a' <= c <= 'z' || 'A' <= c <= 'Z' }

  predicate IsAbsolute(p: string) {
    (|p| >= 1 && p[0] == '/') || (|p| >= 3 && IsLetter(p[0]) && p[1] == ':' && (p[2] == '/' || p[2] == '\\'))
  }

  /** A frontend path that is more than a file name. */
  predicate LegacyAccess(base: Basename, m: Fields) {
    "accessPath" in m && m["accessPath"].JStr? && m["accessPath"].s != ""
    && (IsAbsolute(m["accessPath"].s) || base(m["accessPath"].s) != m["accessPath"].s)
  }

  function ObjectAt(m: Fields, key: string): Fields { if HasObj(m, key) then m[key].fields else map[] }

  function AddMissing(m: Fields, key: string, value: J, wanted: bool): Fields {
    if key !in m && wanted then m[key := value] else m
  }

  function MoveAccessPath(base: Basename, m: Fields): Fields {
    if !LegacyAccess(base, m) then m
    else AddMissing(m, "frontendFile", JStr(base(m["accessPath"].s)), true) - {"accessPath"}
  }

  function MoveAllowWrites(m: Fields): Fields {
    if "allowWrites" !in m then m
    else
      var caps := AddMissing(ObjectAt(m, "capabilities"), "allowWrites", m["allowWrites"], m["allowWrites"].JBool?);
      m["capabilities" := JObj(caps)] - {"allowWrites"}
  }

  function MoveProcedures(m: Fields): Fields {
    if "allowedProcedures" !in m then m
    else
      var caps := ObjectAt(m, "capabilities");
      var value := m["allowedProcedures"];
      var procedures := AddMissing(ObjectAt(caps, "procedures"), "allow", value, value.JArr?);
      m["capabilities" := JObj(caps["procedures" := JObj(procedures)])] - {"allowedProcedures"}
  }

  function Migrate(base: Basename, m: Fields): Fields { MoveProcedures(MoveAllowWrites(MoveAccessPath(base, m))) }

  const MAX_DEPTH: nat := 32

  /** What rebuilding by assignment makes of a value: down to the depth bound an own `__proto__` is lost. */
  function Normal(j: J, depth: nat): J
    decreases MAX_DEPTH + 1 - depth, 0
  {
    if depth > MAX_DEPTH then j
    else match j
      case JArr(items) => JArr(seq(|items|, i requires 0 <= i < |items| => Normal(items[i], depth + 1)))
      case JObj(fields) => JObj(NormalFields(fields, depth + 1))
      case _ => j
  }

  function NormalFields(fields: Fields, depth: nat): Fields
    requires depth <= MAX_DEPTH + 1
    decreases MAX_DEPTH + 1 - depth, 1
  {
    map k | k in fields && k != PROTO :: Normal(fields[k], depth)
  }

  /** No object at most `MAX_DEPTH` levels down has an own `__proto__`. */
  predicate NoProto(j: J, depth: nat)
    decreases MAX_DEPTH + 1 - depth
  {
    depth <= MAX_DEPTH ==>
      match j
      case JArr(items) => forall i | 0 <= i < |items| :: NoProto(items[i], depth + 1)
      case JObj(fields) => PROTO !in fields && forall k | k in fields :: NoProto(fields[k], depth + 1)
      case _ => true
  }

  /** What the migration proposes: the rewritten configuration, normalised. */
  function Proposed(base: Basename, m: Fields): Fields { NormalFields(Migrate(base, m), 1) }

  datatype Remediation = Remediation(field: string, target: string)

  /** One report per legacy field that was moved. */
  function Reports(base: Basename, m: Fields): seq<Remediation> {
    (if LegacyAccess(base, m) then [Remediation("accessPath", "frontendFile")] else [])
    + (if "allowWrites" in m then [Remediation("allowWrites", "capabilities.allowWrites")] else [])
    + (if "allowedProcedures" in m then [Remediation("allowedProcedures", "capabilities.procedures.allow")] else [])
  }

  /**
  The three rewrites on one working copy, each reporting what it moved; then both sides are normalised,
  compared, and shown as a diff if they differ. `jsonText` is the indented JSON text of an object.
   */
  method TryMigrate(base: Basename, jsonText: Fields -> string, fileLabel: string, parsed: Fields)
    returns (proposed: Fields, remediation: seq<Remediation>, changed: bool, diff: seq<string>)
    ensures proposed == Proposed(base, parsed) && remediation == Reports(base, parsed)
    ensures changed <==> remediation != []
    ensures changed <==> diff != []
    ensures changed <==> LegacyAccess(base, parsed) || "allowWrites" in parsed || "allowedProcedures" in parsed
    ensures forall r | r in remediation :: r.field in parsed && r.field !in proposed
    ensures changed ==> |diff| >= 2 && Side('-', diff[2..]) == SplitLines(jsonText(parsed))
                        && Side('+', diff[2..]) == SplitLines(jsonText(proposed))
  {
    var edited;
    edited, remediation := Rewrite(base, parsed);
    var normalizedCurrent := NormalizeForJson(JObj(parsed), 0);
    var normalizedProposed := NormalizeForJson(JObj(edited), 0);
    proposed := normalizedProposed.fields;
    changed := normalizedCurrent != normalizedProposed;
    ChangedIffLegacy(base, parsed);
    ReportedFieldsAreGone(base, parsed);
    diff := [];
    if changed { diff := UnifiedDiff(jsonText(parsed), jsonText(proposed), fileLabel); }
  }

  /** The three rewrites in the source's order. */
  method Rewrite(base: Basename, parsed: Fields) returns (edited: Fields, remediation: seq<Remediation>)
    ensures edited == Migrate(base, parsed) && remediation == Reports(base, parsed)
  {
    LaterFieldsStay(base, parsed);
    edited, remediation := parsed, [];
    var legacy := IsLegacyPath(base, edited);
    if legacy {
      var newBasename := base(edited["accessPath"].s);
      if "frontendFile" !in edited { edited := edited["frontendFile" := JStr(newBasename)]; }
      edited := edited - {"accessPath"};
      remediation := remediation + [Remediation("accessPath", "frontendFile")];
    }
    assert edited == MoveAccessPath(base, parsed);
    if "allowWrites" in edited {
      edited := RewriteAllowWrites(edited);
      remediation := remediation + [Remediation("allowWrites", "capabilities.allowWrites")];
    }
    if "allowedProcedures" in edited {
      edited := RewriteProcedures(edited);
      remediation := remediation + [Remediation("allowedProcedures", "capabilities.procedures.allow")];
    }
  }

  /** Rebuilds arrays and objects down to the depth bound. */
  method NormalizeForJson(value: J, depth: nat) returns (out: J)
    ensures out == Normal(value, depth)
    decreases MAX_DEPTH + 1 - depth, 0
  {
    out := value;
    if depth > MAX_DEPTH { return; }
    if value.JArr? {
      var mapped := NormalizeItems(value.items, depth + 1);
      out := JArr(mapped);
    } else if value.JObj? {
      var filled := NormalizeMembers(value.fields, depth + 1);
      out := JObj(filled);
    }
  }

  method NormalizeItems(items: seq<J>, depth: nat) returns (mapped: seq<J>)
    requires depth <= MAX_DEPTH + 1
    ensures |mapped| == |items| && forall i | 0 <= i < |items| :: mapped[i] == Normal(items[i], depth)
    decreases MAX_DEPTH + 1 - depth, 1
  {
    mapped := [];
    while |mapped| < |items|
      invariant |mapped| <= |items|
      invariant forall i | 0 <= i < |mapped| :: mapped[i] == Normal(items[i], depth)
    {
      var item := NormalizeForJson(items[|mapped|], depth);
      mapped := mapped + [item];
    }
  }

  /** Fills a fresh object key by key; the assignment under `__proto__` leaves no member. */
  method NormalizeMembers(fields: Fields, depth: nat) returns (out: Fields)
    requires depth <= MAX_DEPTH + 1
    ensures out == NormalFields(fields, depth)
    decreases MAX_DEPTH + 1 - depth, 1
  {
    out := map[];
    var todo := fields.Keys;
    while todo != {}
      invariant todo <= fields.Keys
      invariant forall k :: k in out <==> k in fields && k !in todo && k != PROTO
      invariant forall k | k in out :: out[k] == Normal(fields[k], depth)
      decreases |todo|
    {
      var key :| key in todo;
      var member := NormalizeForJson(fields[key], depth);
      if key != PROTO { out := out[key := member]; }
      todo := todo - {key};
    }
  }

  /** Whether the frontend is given as more than a file name: the tests in their order. */
  method IsLegacyPath(base: Basename, m: Fields) returns (legacy: bool)
    ensures legacy == LegacyAccess(base, m)
  {
    if "accessPath" !in m || !m["accessPath"].JStr? { return false; }
    var p := m["accessPath"].s;
    if |p| == 0 { return false; }
    var drive := |p| >= 3 && ('a' <= p[0] <= 'z' || 'A' <= p[0] <= 'Z') && p[1] == ':' && (p[2] == '\\' || p[2] == '/');
    var absolute := drive || p[0] == '/';
    var basenameOnly := base(p) == p;
    return absolute || !basenameOnly;
  }

  method RewriteAllowWrites(m: Fields) returns (proposed: Fields)
    requires "allowWrites" in m
    ensures proposed == MoveAllowWrites(m)
  {
    var value := m["allowWrites"];
    var capabilities := if HasObj(m, "capabilities") then m["capabilities"].fields else map[];
    if "allowWrites" !in capabilities && value.JBool? { capabilities := capabilities["allowWrites" := value]; }
    proposed := m["capabilities" := JObj(capabilities)];
    proposed := proposed - {"allowWrites"};
  }

  method RewriteProcedures(m: Fields) returns (proposed: Fields)
    requires "allowedProcedures" in m
    ensures proposed == MoveProcedures(m)
  {
    var value := m["allowedProcedures"];
    var capabilities := if HasObj(m, "capabilities") then m["capabilities"].fields else map[];
    var procedures := if HasObj(capabilities, "procedures") then capabilities["procedures"].fields else map[];
    if "allow" !in procedures && value.JArr? { procedures := procedures["allow" := value]; }
    capabilities := capabilities["procedures" := JObj(procedures)];
    proposed := m["capabilities" := JObj(capabilities)];
    proposed := proposed - {"allowedProcedures"};
  }

  lemma ReportedFieldsAreGone(base: Basename, m: Fields)
    ensures forall r | r in Reports(base, m) :: r.field in m && r.field !in Proposed(base, m)
  {
    var b := MoveAllowWrites(MoveAccessPath(base, m));
    assert LegacyAccess(base, m) ==> "accessPath" !in b;
    assert "allowWrites" !in b;
  }

  lemma LaterFieldsStay(base: Basename, m: Fields)
    ensures "allowWrites" in MoveAccessPath(base, m) <==> "allowWrites" in m
    ensures "allowedProcedures" in MoveAllowWrites(MoveAccessPath(base, m)) <==> "allowedProcedures" in m
  {
  }

  /** The normalised sides differ exactly when there was something to migrate. */
  lemma ChangedIffLegacy(base: Basename, m: Fields)
    ensures Normal(JObj(m), 0) != Normal(JObj(Migrate(base, m)), 0) <==>
            LegacyAccess(base, m) || "allowWrites" in m || "allowedProcedures" in m
    ensures Normal(JObj(Migrate(base, m)), 0) == JObj(Proposed(base, m))
  {
    var current, proposed := NormalFields(m, 1), Proposed(base, m);
    ReportedFieldsAreGone(base, m);
    assert forall r | r in Reports(base, m) :: r.field in current && r.field !in proposed;
    if LegacyAccess(base, m) {
      assert Reports(base, m)[0].field == "accessPath";
      assert "accessPath" in current && "accessPath" !in proposed;
    } else if "allowWrites" in m {
      assert Reports(base, m)[0].field == "allowWrites";
      assert "allowWrites" in current && "allowWrites" !in proposed;
    } else if "allowedProcedures" in m {
      assert Reports(base, m)[0].field == "allowedProcedures";
      assert "allowedProcedures" in current && "allowedProcedures" !in proposed;
    }
  }

  // ----- What the normaliser changes -----

  /** Normalising is the identity exactly on values without an own `__proto__` within the depth bound. */
  lemma {:induction false} NormalIsIdentityIff(j: J, depth: nat)
    ensures Normal(j, depth) == j <==> NoProto(j, depth)
    decreases MAX_DEPTH + 1 - depth
  {
    if depth <= MAX_DEPTH {
      match j
      case JArr(items) =>
        forall i | 0 <= i < |items| ensures Normal(items[i], depth + 1) == items[i] <==> NoProto(items[i], depth + 1) {
          NormalIsIdentityIff(items[i], depth + 1);
        }
        var out := Normal(j, depth).items;
        if NoProto(j, depth) { assert out == items; } else { assert exists i | 0 <= i < |items| :: out[i] != items[i]; }
      case JObj(fields) =>
        forall k | k in fields ensures Normal(fields[k], depth + 1) == fields[k] <==> NoProto(fields[k], depth + 1) {
          NormalIsIdentityIff(fields[k], depth + 1);
        }
        var out := NormalFields(fields, depth + 1);
        if NoProto(j, depth) {
          assert out == fields;
        } else if PROTO !in fields {
          var k :| k in fields && !NoProto(fields[k], depth + 1);
          assert out[k] != fields[k];
        }
      case _ =>
    }
  }

  lemma {:induction false} NormalHasNoProto(j: J, depth: nat)
    ensures NoProto(Normal(j, depth), depth)
    decreases MAX_DEPTH + 1 - depth
  {
    if depth <= MAX_DEPTH {
      match j
      case JArr(items) =>
        forall i | 0 <= i < |items| ensures NoProto(Normal(items[i], depth + 1), depth + 1) {
          NormalHasNoProto(items[i], depth + 1);
        }
      case JObj(fields) =>
        forall k | k in fields ensures NoProto(Normal(fields[k], depth + 1), depth + 1) {
          NormalHasNoProto(fields[k], depth + 1);
        }
      case _ =>
    }
  }

  // ----- Order and repetition -----

  lemma AccessCommutesWithWrites(base: Basename, m: Fields)
    ensures MoveAccessPath(base, MoveAllowWrites(m)) == MoveAllowWrites(MoveAccessPath(base, m))
  {
    var x, y := MoveAllowWrites(m), MoveAccessPath(base, m);
    assert LegacyAccess(base, x) <==> LegacyAccess(base, m);
    assert ObjectAt(y, "capabilities") == ObjectAt(m, "capabilities");
    assert MoveAccessPath(base, x) == MoveAllowWrites(y);
  }

  lemma AccessCommutesWithProcedures(base: Basename, m: Fields)
    ensures MoveAccessPath(base, MoveProcedures(m)) == MoveProcedures(MoveAccessPath(base, m))
  {
    var x, y := MoveProcedures(m), MoveAccessPath(base, m);
    assert LegacyAccess(base, x) <==> LegacyAccess(base, m);
    assert ObjectAt(y, "capabilities") == ObjectAt(m, "capabilities");
    assert MoveAccessPath(base, x) == MoveProcedures(y);
  }

  lemma WritesCommuteWithProcedures(m: Fields)
    ensures MoveAllowWrites(MoveProcedures(m)) == MoveProcedures(MoveAllowWrites(m))
  {
    if "allowWrites" in m && "allowedProcedures" in m {
      var x, y := MoveProcedures(m), MoveAllowWrites(m);
      var caps := ObjectAt(m, "capabilities");
      var allow, writes := m["allowedProcedures"], m["allowWrites"];
      var procedures := AddMissing(ObjectAt(caps, "procedures"), "allow", allow, allow.JArr?);
      var both := AddMissing(caps, "allowWrites", writes, writes.JBool?)["procedures" := JObj(procedures)];
      assert ObjectAt(x, "capabilities") == caps["procedures" := JObj(procedures)];
      assert ObjectAt(ObjectAt(y, "capabilities"), "procedures") == ObjectAt(caps, "procedures");
      assert AddMissing(caps["procedures" := JObj(procedures)], "allowWrites", writes, writes.JBool?) == both;
      assert MoveAllowWrites(x) == m["capabilities" := JObj(both)] - {"allowWrites", "allowedProcedures"};
      assert MoveProcedures(y) == m["capabilities" := JObj(both)] - {"allowWrites", "allowedProcedures"};
    }
  }

  /** All six orders of the three rewrites give the same configuration. */
  lemma OrderDoesNotMatter(base: Basename, m: Fields)
    ensures Migrate(base, m) == MoveAllowWrites(MoveProcedures(MoveAccessPath(base, m)))
    ensures Migrate(base, m) == MoveProcedures(MoveAccessPath(base, MoveAllowWrites(m)))
    ensures Migrate(base, m) == MoveAccessPath(base, MoveProcedures(MoveAllowWrites(m)))
    ensures Migrate(base, m) == MoveAllowWrites(MoveAccessPath(base, MoveProcedures(m)))
    ensures Migrate(base, m) == MoveAccessPath(base, MoveAllowWrites(MoveProcedures(m)))
  {
    AccessCommutesWithWrites(base, m);
    AccessCommutesWithProcedures(base, m);
    AccessCommutesWithProcedures(base, MoveAllowWrites(m));
    WritesCommuteWithProcedures(m);
    WritesCommuteWithProcedures(MoveAccessPath(base, m));
  }

  lemma RewritesAreIdempotent(base: Basename, m: Fields)
    requires !LegacyAccess(base, m) && "allowWrites" !in m && "allowedProcedures" !in m
    ensures Migrate(base, m) == m
  {
  }

  lemma NothingLegacyLeft(base: Basename, m: Fields)
    ensures !LegacyAccess(base, Migrate(base, m))
    ensures "allowWrites" !in Migrate(base, m) && "allowedProcedures" !in Migrate(base, m)
  {
    var a := MoveAccessPath(base, m);
    var b := MoveAllowWrites(a);
    assert !LegacyAccess(base, a) && !LegacyAccess(base, b);
  }

  lemma NormalKeepsStrings(base: Basename, m: Fields)
    requires !LegacyAccess(base, m)
    ensures !LegacyAccess(base, NormalFields(m, 1))
  {
    var n := NormalFields(m, 1);
    if "accessPath" in n && n["accessPath"].JStr? { assert n["accessPath"] == m["accessPath"]; }
  }

  /** A migrated configuration is migrated: doing it again proposes the same and reports nothing. */
  lemma MigrationIsIdempotent(base: Basename, m: Fields)
    ensures Proposed(base, Proposed(base, m)) == Proposed(base, m)
    ensures Reports(base, Proposed(base, m)) == []
  {
    var p := Proposed(base, m);
    NothingLegacyLeft(base, m);
    NormalKeepsStrings(base, Migrate(base, m));
    RewritesAreIdempotent(base, p);
    NormalHasNoProto(JObj(Migrate(base, m)), 0);
    NormalIsIdentityIff(JObj(p), 0);
    assert Normal(JObj(p), 0) == JObj(NormalFields(p, 1));
  }

  /** Which keys the rewrites leave alone, before normalising. */
  lemma RewritesKeep(base: Basename, m: Fields, key: string)
    ensures key in m && key !in {"accessPath", "allowWrites", "allowedProcedures", "capabilities"} ==>
            key in Migrate(base, m) && Migrate(base, m)[key] == m[key]
    ensures key !in m && key !in {"frontendFile", "capabilities"} ==> key !in Migrate(base, m)
    ensures var caps, caps' := ObjectAt(m, "capabilities"), ObjectAt(Migrate(base, m), "capabilities");
            && (key in caps && key != "procedures" ==> key in caps' && caps'[key] == caps[key])
            && (key in ObjectAt(caps, "procedures") ==>
                  && key in ObjectAt(caps', "procedures")
                  && ObjectAt(caps', "procedures")[key] == ObjectAt(caps, "procedures")[key])
  {
    var a := MoveAccessPath(base, m);
    var b := MoveAllowWrites(a);
    assert ObjectAt(a, "capabilities") == ObjectAt(m, "capabilities");
    assert ObjectAt(ObjectAt(b, "capabilities"), "procedures") == ObjectAt(ObjectAt(a, "capabilities"), "procedures");
  }

  lemma NormalObjectAt(m: Fields, key: string, depth: nat)
    requires depth <= MAX_DEPTH && key != PROTO
    ensures ObjectAt(NormalFields(m, depth), key) == NormalFields(ObjectAt(m, key), depth + 1)
  {
    if key in m { assert NormalFields(m, depth)[key] == Normal(m[key], depth); }
  }

  /** The capabilities and procedures of the proposal are those of the rewritten configuration, normalised. */
  lemma ProposedCapabilities(base: Basename, m: Fields)
    ensures var caps := ObjectAt(Migrate(base, m), "capabilities");
            && ObjectAt(Proposed(base, m), "capabilities") == NormalFields(caps, 2)
            && ObjectAt(ObjectAt(Proposed(base, m), "capabilities"), "procedures") ==
               NormalFields(ObjectAt(caps, "procedures"), 3)
  {
    NormalObjectAt(Migrate(base, m), "capabilities", 1);
    NormalObjectAt(ObjectAt(Migrate(base, m), "capabilities"), "procedures", 2);
  }

  predicate KeptIn(out: Fields, m: Fields, key: string)
    requires key in m
  {
    key in out && out[key] == m[key]
  }

  lemma KeptIffNoProto(rewritten: Fields, m: Fields, key: string, depth: nat)
    requires depth <= MAX_DEPTH && key in m && KeptIn(rewritten, m, key)
    ensures KeptIn(NormalFields(rewritten, depth), m, key) <==> key != PROTO && NoProto(m[key], depth)
  {
    NormalIsIdentityIff(m[key], depth);
  }

  /**
  What is kept: every key outside the five it handles, an existing `frontendFile`, the existing `allowWrites`
  and `procedures.allow` capabilities, and every other capability and procedure setting, each exactly if
  neither the key nor an object inside the value within the depth bound is an own `__proto__`.
   */
  lemma MigrationKeepsIff(base: Basename, m: Fields, key: string)
    ensures key in m && key !in {"accessPath", "allowWrites", "allowedProcedures", "capabilities"} ==>
            (KeptIn(Proposed(base, m), m, key) <==> key != PROTO && NoProto(m[key], 1))
    ensures key !in m && key !in {"frontendFile", "capabilities"} ==> key !in Proposed(base, m)
    ensures var caps, caps' := ObjectAt(m, "capabilities"), ObjectAt(Proposed(base, m), "capabilities");
            && (key in caps && key != "procedures" ==>
                  (KeptIn(caps', caps, key) <==> key != PROTO && NoProto(caps[key], 2)))
            && (key in ObjectAt(caps, "procedures") ==>
                  (KeptIn(ObjectAt(caps', "procedures"), ObjectAt(caps, "procedures"), key) <==>
                   key != PROTO && NoProto(ObjectAt(caps, "procedures")[key], 3)))
  {
    var caps, rewritten := ObjectAt(m, "capabilities"), Migrate(base, m);
    var caps1 := ObjectAt(rewritten, "capabilities");
    RewritesKeep(base, m, key);
    ProposedCapabilities(base, m);
    if key in m && KeptIn(rewritten, m, key) { KeptIffNoProto(rewritten, m, key, 1); }
    if key in caps && KeptIn(caps1, caps, key) { KeptIffNoProto(caps1, caps, key, 2); }
    if key in ObjectAt(caps, "procedures") {
      KeptIffNoProto(ObjectAt(caps1, "procedures"), ObjectAt(caps, "procedures"), key, 3);
    }
  }

  /** An unrelated key is lost: `__proto__` beside any legacy `allowWrites`. */
  lemma ProtoKeyIsLost(base: Basename, value: J, writes: bool)
    ensures var m: Fields := map["allowWrites" := JBool(writes), PROTO := value];
            PROTO in m && PROTO !in Proposed(base, m) && Reports(base, m) != []
  {
  }

  lemma RewritesMove(base: Basename, m: Fields)
    ensures var out := Migrate(base, m); var caps, caps' := ObjectAt(m, "capabilities"), ObjectAt(out, "capabilities");
            && (LegacyAccess(base, m) && "frontendFile" !in m ==> IsStr(out, "frontendFile", base(m["accessPath"].s)))
            && ("allowWrites" in m && m["allowWrites"].JBool? && "allowWrites" !in caps ==>
                  "allowWrites" in caps' && caps'["allowWrites"] == m["allowWrites"])
            && ("allowedProcedures" in m && m["allowedProcedures"].JArr? && "allow" !in ObjectAt(caps, "procedures") ==>
                  && "allow" in ObjectAt(caps', "procedures")
                  && ObjectAt(caps', "procedures")["allow"] == m["allowedProcedures"])
  {
    var a := MoveAccessPath(base, m);
    var b := MoveAllowWrites(a);
    assert ObjectAt(a, "capabilities") == ObjectAt(m, "capabilities");
    assert ObjectAt(ObjectAt(b, "capabilities"), "procedures") == ObjectAt(ObjectAt(a, "capabilities"), "procedures");
  }

  /** Where a moved value arrives: a boolean or list from a legacy field, when the new place was free. */
  lemma MigrationMoves(base: Basename, m: Fields)
    ensures var out := Proposed(base, m); var caps, caps' := ObjectAt(m, "capabilities"), ObjectAt(out, "capabilities");
            && (LegacyAccess(base, m) && "frontendFile" !in m ==> IsStr(out, "frontendFile", base(m["accessPath"].s)))
            && ("allowWrites" in m && m["allowWrites"].JBool? && "allowWrites" !in caps ==>
                  "allowWrites" in caps' && caps'["allowWrites"] == m["allowWrites"])
            && ("allowedProcedures" in m && m["allowedProcedures"].JArr? && "allow" !in ObjectAt(caps, "procedures") ==>
                  && "allow" in ObjectAt(caps', "procedures")
                  && (ObjectAt(caps', "procedures")["allow"] == m["allowedProcedures"] <==>
                      NoProto(m["allowedProcedures"], 3)))
  {
    RewritesMove(base, m);
    ProposedCapabilities(base, m);
    if "allowedProcedures" in m { NormalIsIdentityIff(m["allowedProcedures"], 3); }
  }

  // ----- The diff -----

  /** Splitting at newlines, each with the carriage return before it. */
  function SplitLines(text: string): (ls: seq<string>)
    ensures |ls| == |Lines(text)| + 1
  {
    Stripped(Lines(text)) + [Tail(text)]
  }

  /** The lines of one side: context lines and those with the given sign, without their first character. */
  function Side(sign: char, diff: seq<string>): seq<string> {
    if diff == [] then [] else Side(sign, diff[..|diff| - 1]) + Unsigned(sign, diff[|diff| - 1])
  }

  function Unsigned(sign: char, l: string): seq<string> {
    if l != "" && (l[0] == ' ' || l[0] == sign) then [l[1..]] else []
  }

  lemma {:induction false} SideOfConcat(sign: char, x: seq<string>, y: seq<string>)
    ensures Side(sign, x + y) == Side(sign, x) + Side(sign, y)
  {
    if y == [] {
      assert x + y == x;
    } else {
      assert (x + y)[..|x + y| - 1] == x + y[..|y| - 1];
      SideOfConcat(sign, x, y[..|y| - 1]);
    }
  }

  /** What the diff says about position `i`: one context line, or the old and the new line there. */
  function DiffAt(a: seq<string>, b: seq<string>, i: nat): seq<string> {
    if i < |a| && i < |b| && a[i] == b[i] then [" " + a[i]]
    else (if i < |a| then ["-" + a[i]] else []) + (if i < |b| then ["+" + b[i]] else [])
  }

  function Flat(pieces: seq<seq<string>>): seq<string> {
    if pieces == [] then [] else Flat(pieces[..|pieces| - 1]) + pieces[|pieces| - 1]
  }

  function Pieces(a: seq<string>, b: seq<string>, n: nat): seq<seq<string>> {
    seq(n, i requires 0 <= i < n => DiffAt(a, b, i))
  }

  function DiffBody(a: seq<string>, b: seq<string>, n: nat): seq<string> { Flat(Pieces(a, b, n)) }

  function LineAt(text: seq<string>, i: nat): seq<string> { if i < |text| then [text[i]] else [] }

  /** The first n lines, or all of them when there are fewer. */
  function Upto(text: seq<string>, n: nat): seq<string> {
    if n == 0 then [] else Upto(text, n - 1) + LineAt(text, n - 1)
  }

  lemma {:induction false} UptoIsPrefix(text: seq<string>, n: nat)
    ensures Upto(text, n) == if n < |text| then text[..n] else text
  {
    if n > 0 { UptoIsPrefix(text, n - 1); }
  }

  lemma SideOfOne(sign: char, mark: char, l: string)
    ensures Side(sign, [[mark] + l]) == if mark == ' ' || mark == sign then [l] else []
  {
    assert ([mark] + l)[1..] == l && [[mark] + l][..0] == [];
  }

  /** The text that the lines of a sign belong to. */
  function TextOf(sign: char, a: seq<string>, b: seq<string>): seq<string> { if sign == '-' then a else b }

  lemma SideOfPosition(sign: char, a: seq<string>, b: seq<string>, i: nat)
    requires sign == '-' || sign == '+'
    ensures Side(sign, DiffAt(a, b, i)) == LineAt(TextOf(sign, a, b), i)
  {
    if i < |a| {
      SideOfOne(sign, ' ', a[i]);
      SideOfOne(sign, '-', a[i]);
    }
    if i < |b| { SideOfOne(sign, '+', b[i]); }
    SideOfConcat(sign, if i < |a| then ["-" + a[i]] else [], if i < |b| then ["+" + b[i]] else []);
  }

  predicate Rebuilds(sign: char, diff: seq<string>, text: seq<string>, n: nat) { Side(sign, diff) == Upto(text, n) }

  predicate Tells(sign: char, at: seq<string>, text: seq<string>, i: nat) { Side(sign, at) == LineAt(text, i) }

  lemma RebuildOneMore(sign: char, body: seq<string>, at: seq<string>, text: seq<string>, n: nat)
    requires n > 0 && Rebuilds(sign, body, text, n - 1) && Tells(sign, at, text, n - 1)
    ensures Rebuilds(sign, body + at, text, n)
  {
    SideOfConcat(sign, body, at);
  }

  lemma {:induction false} FlatRebuilds(sign: char, pieces: seq<seq<string>>, text: seq<string>)
    requires forall i | 0 <= i < |pieces| :: Tells(sign, pieces[i], text, i)
    ensures Rebuilds(sign, Flat(pieces), text, |pieces|)
  {
    if pieces != [] {
      var n := |pieces|;
      FlatRebuilds(sign, pieces[..n - 1], text);
      RebuildOneMore(sign, Flat(pieces[..n - 1]), pieces[n - 1], text, n);
    }
  }

  /** The first n positions of the diff rebuild the first n lines of either side. */
  lemma DiffRebuilds(sign: char, a: seq<string>, b: seq<string>, n: nat)
    requires sign == '-' || sign == '+'
    ensures Rebuilds(sign, DiffBody(a, b, n), TextOf(sign, a, b), n)
  {
    forall i | 0 <= i < n ensures Tells(sign, Pieces(a, b, n)[i], TextOf(sign, a, b), i) {
      SideOfPosition(sign, a, b, i);
    }
    FlatRebuilds(sign, Pieces(a, b, n), TextOf(sign, a, b));
  }

  predicate NoNewlines(lines: seq<string>) { forall i | 0 <= i < |lines| :: '\n' !in lines[i] }

  lemma DiffAtHasNoNewline(a: seq<string>, b: seq<string>, i: nat)
    requires NoNewlines(a) && NoNewlines(b)
    ensures NoNewlines(DiffAt(a, b, i))
  {
  }

  lemma {:induction false} FlatHasNoNewline(pieces: seq<seq<string>>)
    requires forall i | 0 <= i < |pieces| :: NoNewlines(pieces[i])
    ensures NoNewlines(Flat(pieces))
  {
    if pieces != [] { FlatHasNoNewline(pieces[..|pieces| - 1]); }
  }

  lemma DiffHasNoNewline(a: seq<string>, b: seq<string>, n: nat)
    requires NoNewlines(a) && NoNewlines(b)
    ensures NoNewlines(DiffBody(a, b, n))
  {
    forall i | 0 <= i < n ensures NoNewlines(Pieces(a, b, n)[i]) { DiffAtHasNoNewline(a, b, i); }
    FlatHasNoNewline(Pieces(a, b, n));
  }

  /**
  The context and minus lines after the two header lines rebuild the old text line by line, the context
  and plus lines the new one; a label without newline keeps this readable from the printed text.
   */
  method UnifiedDiff(before: string, after: string, fileLabel: string) returns (lines: seq<string>)
    ensures |lines| >= 2 && lines[0] == "--- " + fileLabel && lines[1] == "+++ " + fileLabel
    ensures Side('-', lines[2..]) == SplitLines(before)
    ensures Side('+', lines[2..]) == SplitLines(after)
    ensures '\n' !in fileLabel ==> Lines(Unlines(lines)) == lines
  {
    var a, b := SplitLines(before), SplitLines(after);
    var max := if |a| < |b| then |b| else |a|;
    var header := ["--- " + fileLabel, "+++ " + fileLabel];
    lines := AppendDiff(header, a, b, max);
    DiffSides(header, a, b, max);
    if '\n' !in fileLabel { LabelledDiffReadsBack(before, after, fileLabel, max); }
  }

  lemma LabelledDiffReadsBack(before: string, after: string, fileLabel: string, max: nat)
    requires '\n' !in fileLabel
    ensures var all := ["--- " + fileLabel, "+++ " + fileLabel] + DiffBody(SplitLines(before), SplitLines(after), max);
            Lines(Unlines(all)) == all
  {
    SplitHasNoNewline(before);
    SplitHasNoNewline(after);
    DiffReadsBack(["--- " + fileLabel, "+++ " + fileLabel], SplitLines(before), SplitLines(after), max);
  }

  lemma DiffSides(header: seq<string>, a: seq<string>, b: seq<string>, max: nat)
    requires |header| == 2 && |a| <= max && |b| <= max
    ensures Side('-', (header + DiffBody(a, b, max))[2..]) == a
    ensures Side('+', (header + DiffBody(a, b, max))[2..]) == b
  {
    UptoIsPrefix(a, max);
    UptoIsPrefix(b, max);
    DiffRebuilds('-', a, b, max);
    DiffRebuilds('+', a, b, max);
    assert (header + DiffBody(a, b, max))[2..] == DiffBody(a, b, max);
  }

  lemma DiffReadsBack(header: seq<string>, a: seq<string>, b: seq<string>, max: nat)
    requires NoNewlines(header) && NoNewlines(a) && NoNewlines(b)
    ensures Lines(Unlines(header + DiffBody(a, b, max))) == header + DiffBody(a, b, max)
  {
    DiffHasNoNewline(a, b, max);
    LinesOfUnlines(header + DiffBody(a, b, max));
  }

  /** The cursor loop over both line lists. */
  method AppendDiff(header: seq<string>, a: seq<string>, b: seq<string>, max: nat) returns (lines: seq<string>)
    ensures lines == header + DiffBody(a, b, max)
  {
    lines := header;
    var cursor := 0;
    while cursor < max
      invariant 0 <= cursor <= max && lines == header + DiffBody(a, b, cursor)
    {
      BodyGrows(header, a, b, cursor);
      lines := AppendPosition(lines, a, b, cursor);
      cursor := cursor + 1;
    }
  }

  method AppendPosition(before: seq<string>, a: seq<string>, b: seq<string>, cursor: nat) returns (lines: seq<string>)
    ensures lines == before + DiffAt(a, b, cursor)
  {
    lines := before;
    if cursor < |a| && cursor < |b| && a[cursor] == b[cursor] {
      lines := lines + [" " + a[cursor]];
    } else {
      if cursor < |a| { lines := lines + ["-" + a[cursor]]; }
      if cursor < |b| { lines := lines + ["+" + b[cursor]]; }
    }
  }

  lemma BodyGrows(header: seq<string>, a: seq<string>, b: seq<string>, n: nat)
    ensures header + DiffBody(a, b, n + 1) == header + DiffBody(a, b, n) + DiffAt(a, b, n)
  {
    assert Pieces(a, b, n + 1)[..n] == Pieces(a, b, n);
    Associates(header, DiffBody(a, b, n), DiffAt(a, b, n));
  }

  lemma Associates(x: seq<string>, y: seq<string>, z: seq<string>)
    ensures x + (y + z) == x + y + z
  {
  }

  lemma SplitHasNoNewline(text: string)
    ensures NoNewlines(SplitLines(text))
  {
    SplitIsExact(text);
    forall i | 0 <= i < |Lines(text)| ensures '\n' !in SplitLines(text)[i] { assert Lines(text)[i] in Lines(text); }
  }
}

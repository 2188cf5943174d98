/** Reading work priorities out of loosely shaped parameters. */
module Preflight {
  import opened Values
  import opened Seqs

  const RESERVED: set<string> := {
    "id", "priority", "pawn_id", "colonist_id", "target_colonist_id", "work", "work_type",
    "skill", "work_priorities", "reason", "map_id"}

  /** The value naming a single work type, if any. */
  function NamedWork(params: Params): Value {
    GetOr(params, "work_type", GetOr(params, "work", Get(params, "skill")))
  }

  predicate IsNamed(params: Params) {
    var name := NamedWork(params);
    name != Null && PyStr(name) != "" && PyStr(name) !in RESERVED
  }

  /** The integer entries of a nested object. */
  function NestedMap(fields: map<string, Value>): map<string, int> {
    map w | w in fields && PyInt(fields[w]).Some? :: PyInt(fields[w]).value
  }

  /** The unreserved integer entries of a flat payload. */
  function FlatMap(params: Params): map<string, int> {
    map w | w in params && w !in RESERVED && params[w].Int? :: params[w].i
  }

  /** What `extract_work_priorities` returns: nested object, single named type, or flat map. */
  function Extract(params: Params): map<string, int> {
    var nested := Get(params, "work_priorities");
    if nested.Obj? then NestedMap(nested.fields)
    else if IsNamed(params) then
      match PyInt(GetOr(params, "priority", Int(1)))
      case Some(n) => map[PyStr(NamedWork(params)) := n]
      case None => map[]
    else FlatMap(params)
  }

  method ExtractWorkPriorities(params: Params) returns (out: map<string, int>)
    ensures out == Extract(params)
  {
    var nested := Get(params, "work_priorities");
    out := map[];
    if nested.Obj? {
      var todo := nested.fields.Keys;
      while todo != {}
        invariant todo <= nested.fields.Keys
        invariant out == NestedMap(map w | w in nested.fields && w !in todo :: nested.fields[w])
        decreases todo
      {
        var work :| work in todo;
        todo := todo - {work};
        var pri := PyInt(nested.fields[work]);
        if pri.Some? {
          out := out[work := pri.value];
        }
      }
      assert (map w | w in nested.fields && w !in todo :: nested.fields[w]) == nested.fields;
    } else if IsNamed(params) {
      var pri := PyInt(GetOr(params, "priority", Int(1)));
      if pri.Some? {
        out := map[PyStr(NamedWork(params)) := pri.value];
      }
    } else {
      var todo := params.Keys;
      while todo != {}
        invariant todo <= params.Keys
        invariant out == FlatMap(map w | w in params && w !in todo :: params[w])
        decreases todo
      {
        var work :| work in todo;
        todo := todo - {work};
        if work !in RESERVED && params[work].Int? {
          out := out[work := params[work].i];
        }
      }
      assert (map w | w in params && w !in todo :: params[w]) == params;
    }
  }

  /** Outside the nested shape a reserved key is never read as a work type. */
  lemma ExtractAvoidsReserved(params: Params)
    requires !Get(params, "work_priorities").Obj?
    ensures Extract(params).Keys !! RESERVED
  {
  }

  /** The three documented shapes of one assignment read alike. */
  lemma ShapesAgree(work: string, n: int, text: string)
    requires work != "" && work !in RESERVED
    ensures Extract(map[work := Int(n)]) == map[work := n]
    ensures Extract(map["work_priorities" := Obj(map[work := Int(n)], text)]) == map[work := n]
    ensures forall key :: key in {"work_type", "work", "skill"} ==>
      Extract(map[key := Str(work), "priority" := Int(n)]) == map[work := n]
  {
    var flat: Params := map[work := Int(n)];
    assert "work" in RESERVED && "work_type" in RESERVED && "skill" in RESERVED && "work_priorities" in RESERVED;
    assert NamedWork(flat) == Null && !Get(flat, "work_priorities").Obj?;
    assert NestedMap(map[work := Int(n)]) == map[work := n];
  }

  /** Reserved names that `Extract` skips without reading them as the name of a work type. */
  function InertNames(): set<string> {
    RESERVED - {"work", "work_type", "skill"}
  }

  lemma NumberNotReserved(i: int)
    ensures IntText(i) !in RESERVED
  {
  }

  /** A flat integer map reads back as itself exactly when it names no reserved key, and
      reads back as nothing exactly when it holds inert names only. */
  lemma FlatReadsBack(m: map<string, int>)
    ensures Extract(IntParams(m)) == m <==> m.Keys !! RESERVED
    ensures Extract(IntParams(m)) == map[] <==> m.Keys <= InertNames()
  {
    var params := IntParams(m);
    if !(m.Keys !! {"work", "work_type", "skill"}) {
      assert NamedWork(params).Int?;
      NumberNotReserved(NamedWork(params).i);
      assert PyStr(NamedWork(params)) in Extract(params);
    } else {
      assert NamedWork(params) == Null;
      assert Extract(params) == FlatMap(params);
      if m.Keys !! RESERVED {
        assert FlatMap(params) == m;
      }
      if exists w :: w in m && w !in RESERVED {
        var w :| w in m && w !in RESERVED;
        assert w in FlatMap(params);
      }
    }
  }

  // ---- Validation against the work list ----

  /** The work types known without a work list from RIMAPI. */
  const VANILLA_WORK_TYPES: seq<string> := [
    "Firefighter", "Patient", "Doctor", "PatientBedRest", "BasicWorker", "Warden", "Handling", "Cooking",
    "Hunting", "Construction", "Growing", "Mining", "PlantCutting", "Smithing", "Tailoring", "Art",
    "Crafting", "Hauling", "Cleaning", "Research", "Childcare"]

  /** `lookup.get(work.lower())`: the known spelling of a name. Of two known names that differ in
      case only, the later one stands. */
  function Canonical(allowed: seq<string>, work: string): Option<string> {
    if allowed == [] then None
    else
      var n := |allowed| - 1;
      if Lower(allowed[n]) == Lower(work) then Some(allowed[n]) else Canonical(allowed[..n], work)
  }

  /** `work` is the spelling under which the game knows a work type. */
  predicate IsType(allowed: seq<string>, work: string) { Canonical(allowed, work) == Some(work) }

  predicate Known(allowed: seq<string>, work: string) { Canonical(allowed, work).Some? }

  function Spelling(allowed: seq<string>, work: string): string
    requires Known(allowed, work)
  {
    Canonical(allowed, work).value
  }

  lemma {:induction false} CanonicalSameLower(allowed: seq<string>, u: string, v: string)
    requires Lower(u) == Lower(v)
    ensures Canonical(allowed, u) == Canonical(allowed, v)
  {
    if allowed != [] {
      CanonicalSameLower(allowed[..|allowed| - 1], u, v);
    }
  }

  /** A name is known exactly when some known name equals it but for case; the spelling it is
      given is a known one, and its own. */
  lemma {:induction false} CanonicalSpelling(allowed: seq<string>, work: string)
    ensures Known(allowed, work) <==> exists k :: 0 <= k < |allowed| && Lower(allowed[k]) == Lower(work)
    ensures Known(allowed, work) ==>
      var c := Canonical(allowed, work).value;
      c in allowed && Lower(c) == Lower(work) && IsType(allowed, c)
  {
    if allowed != [] {
      var n := |allowed| - 1;
      CanonicalSpelling(allowed[..n], work);
      if k :| 0 <= k < n && Lower(allowed[k]) == Lower(work) {
        assert Lower(allowed[..n][k]) == Lower(work);
      }
      if Known(allowed, work) {
        CanonicalSameLower(allowed, Canonical(allowed, work).value, work);
      }
    }
  }

  predicate InRange(n: int) { 0 <= n <= 4 }

  /** The game takes the settings: there are some, of known types, in range. */
  predicate Acceptable(allowed: seq<string>, pairs: map<string, int>) {
    pairs != map[] && forall w :: w in pairs ==> Known(allowed, w) && InRange(pairs[w])
  }

  predicate Accepted(allowed: seq<string>, params: Params) { Acceptable(allowed, Extract(params)) }

  /** `keys` are the keys of `pairs` in the order of the dict. */
  ghost predicate Lists(keys: seq<string>, pairs: map<string, int>) {
    Distinct(keys) && forall w :: w in keys <==> w in pairs
  }

  predicate AllKnown(allowed: seq<string>, pairs: map<string, int>, keys: seq<string>) {
    forall k :: 0 <= k < |keys| ==> keys[k] in pairs && Known(allowed, keys[k])
  }

  /** `validated[canonical] = pri` for one key after the other. */
  function Validated(allowed: seq<string>, pairs: map<string, int>, keys: seq<string>): map<string, int>
    requires AllKnown(allowed, pairs, keys)
  {
    if keys == [] then map[]
    else
      var n := |keys| - 1;
      Validated(allowed, pairs, keys[..n])[Spelling(allowed, keys[n]) := pairs[keys[n]]]
  }

  /** What `normalize_work_priorities` returns; `None` is ValueError. */
  ghost function Normalize(allowed: seq<string>, params: Params, keys: seq<string>): Option<map<string, int>>
    requires Lists(keys, Extract(params))
  {
    if Accepted(allowed, params) then Some(Validated(allowed, Extract(params), keys)) else None
  }

  method Canonicalize(allowed: seq<string>, work: string) returns (canonical: Option<string>)
    ensures canonical == Canonical(allowed, work)
  {
    canonical := None;
    for i := 0 to |allowed|
      invariant canonical == Canonical(allowed[..i], work)
    {
      assert allowed[..i + 1][..i] == allowed[..i];
      if Lower(allowed[i]) == Lower(work) {
        canonical := Some(allowed[i]);
      }
    }
    assert allowed[..|allowed|] == allowed;
  }

  /** Some order of the keys. */
  method AnyOrder(pairs: map<string, int>) returns (keys: seq<string>)
    ensures Lists(keys, pairs)
  {
    keys := [];
    var todo := pairs.Keys;
    while todo != {}
      invariant todo <= pairs.Keys && Distinct(keys)
      invariant forall w :: w in keys <==> w in pairs && w !in todo
      decreases todo
    {
      var work :| work in todo;
      keys, todo := keys + [work], todo - {work};
    }
  }

  method NormalizeWorkPriorities(params: Params, allowed: seq<string>, keys: seq<string>)
    returns (validated: Option<map<string, int>>)
    requires Lists(keys, Extract(params))
    ensures validated == Normalize(allowed, params, keys)
  {
    var pairs := ExtractWorkPriorities(params);
    if pairs == map[] {
      return None;
    }
    var done: map<string, int> := map[];
    var unknown := false;
    for i := 0 to |keys|
      invariant unknown ==> !Acceptable(allowed, pairs)
      invariant forall k :: 0 <= k < i ==> Known(allowed, keys[k]) ==> InRange(pairs[keys[k]])
      invariant !unknown ==> AllKnown(allowed, pairs, keys[..i]) && done == Validated(allowed, pairs, keys[..i])
    {
      assert keys[i] in keys;
      ValidatedStep(allowed, pairs, keys, i);
      var canonical := Canonicalize(allowed, keys[i]);
      if canonical.None? {
        unknown := true;
      } else if !InRange(pairs[keys[i]]) {
        return None;
      } else {
        done := done[canonical.value := pairs[keys[i]]];
      }
    }
    assert keys[..|keys|] == keys;
    if unknown {
      return None;
    }
    KeysAcceptable(allowed, pairs, keys);
    validated := Some(done);
  }

  lemma ValidatedStep(allowed: seq<string>, pairs: map<string, int>, keys: seq<string>, i: nat)
    requires i < |keys| && keys[i] in pairs
    ensures AllKnown(allowed, pairs, keys[..i]) && Known(allowed, keys[i]) ==>
      AllKnown(allowed, pairs, keys[..i + 1]) && Validated(allowed, pairs, keys[..i + 1]) ==
        Validated(allowed, pairs, keys[..i])[Spelling(allowed, keys[i]) := pairs[keys[i]]]
  {
    assert keys[..i + 1][..i] == keys[..i];
  }

  lemma KeysAcceptable(allowed: seq<string>, pairs: map<string, int>, keys: seq<string>)
    requires pairs != map[] && Lists(keys, pairs) && AllKnown(allowed, pairs, keys)
    requires forall k :: 0 <= k < |keys| ==> Known(allowed, keys[k]) ==> InRange(pairs[keys[k]])
    ensures Acceptable(allowed, pairs)
  {
    forall w | w in pairs ensures Known(allowed, w) && InRange(pairs[w]) {
      var k :| 0 <= k < |keys| && keys[k] == w;
    }
  }

  /** What is accepted sets known types only, in range: those it gives some spelling of. */
  lemma ValidatedTypes(allowed: seq<string>, pairs: map<string, int>, keys: seq<string>)
    requires Acceptable(allowed, pairs) && Lists(keys, pairs)
    ensures AllKnown(allowed, pairs, keys)
    ensures var done := Validated(allowed, pairs, keys);
      (forall c :: c in done ==> IsType(allowed, c) && InRange(done[c]) && GivenAs(allowed, pairs, c, done[c])) &&
      (forall w :: w in pairs ==> Spelling(allowed, w) in done)
  {
    var done := Validated(allowed, pairs, keys);
    forall c | c in done ensures IsType(allowed, c) && InRange(done[c]) && GivenAs(allowed, pairs, c, done[c]) {
      ValidatedFrom(allowed, pairs, keys, c);
      var k :| 0 <= k < |keys| && Canonical(allowed, keys[k]) == Some(c) && pairs[keys[k]] == done[c];
      CanonicalSpelling(allowed, keys[k]);
    }
    forall w | w in pairs ensures Spelling(allowed, w) in done {
      ValidatedFrom(allowed, pairs, keys, Spelling(allowed, w));
      var k :| 0 <= k < |keys| && keys[k] == w;
    }
  }

  /** Some spelling of `c` is given the value. */
  predicate GivenAs(allowed: seq<string>, pairs: map<string, int>, c: string, n: int) {
    exists w :: w in pairs && Canonical(allowed, w) == Some(c) && pairs[w] == n
  }

  /** A type is set exactly when some spelling of it is given, to a value given under one of its
      spellings. */
  lemma {:induction false} ValidatedFrom(allowed: seq<string>, pairs: map<string, int>, keys: seq<string>, c: string)
    requires AllKnown(allowed, pairs, keys)
    ensures var done := Validated(allowed, pairs, keys);
      (c in done <==> exists k :: 0 <= k < |keys| && Canonical(allowed, keys[k]) == Some(c)) &&
      (c in done ==> exists k ::
        0 <= k < |keys| && Canonical(allowed, keys[k]) == Some(c) && pairs[keys[k]] == done[c])
  {
    if keys != [] {
      var n := |keys| - 1;
      var front := keys[..n];
      ValidatedFrom(allowed, pairs, front, c);
      if k :| 0 <= k < n && Canonical(allowed, front[k]) == Some(c) {
        assert Canonical(allowed, keys[k]) == Some(c);
      }
      if c in Validated(allowed, pairs, keys) && Canonical(allowed, keys[n]) != Some(c) {
        var k :| 0 <= k < n && Canonical(allowed, front[k]) == Some(c) &&
          pairs[front[k]] == Validated(allowed, pairs, front)[c];
        assert keys[k] == front[k];
      }
    }
  }

  lemma VanillaGrowing()
    ensures Canonical(VANILLA_WORK_TYPES, "growing") == Some("Growing")
  {
    var names := VANILLA_WORK_TYPES;
    assert Lower("Growing") == "growing" && Lower("growing") == "growing";
    assert names[10] == "Growing";
    forall m | 10 < m < |names| ensures Lower(names[m]) != "growing" {
      if |names[m]| == 7 {
        assert Lower(names[m])[0] != 'g';
      }
    }
    CanonicalLast(names, "growing", 10);
  }

  lemma {:induction false} CanonicalLast(allowed: seq<string>, work: string, k: nat)
    requires k < |allowed| && Lower(allowed[k]) == Lower(work)
    requires forall m :: k < m < |allowed| ==> Lower(allowed[m]) != Lower(work)
    ensures Canonical(allowed, work) == Some(allowed[k])
  {
    if k < |allowed| - 1 {
      CanonicalLast(allowed[..|allowed| - 1], work, k);
    }
  }

  /** Case is folded: `{"growing": n}` sets Growing. */
  lemma LowercaseNormalized(n: int)
    requires InRange(n)
    ensures Extract(map["growing" := Int(n)]) == map["growing" := n]
    ensures Lists(["growing"], map["growing" := n])
    ensures Normalize(VANILLA_WORK_TYPES, map["growing" := Int(n)], ["growing"]) == Some(map["Growing" := n])
  {
    var pairs := map["growing" := n];
    assert IntParams(pairs) == map["growing" := Int(n)];
    FlatReadsBack(pairs);
    VanillaGrowing();
    assert "growing" in pairs && ["growing"][..0] == [];
    assert Validated(VANILLA_WORK_TYPES, pairs, []) == map[];
  }

  // ---- The same in plain numbers and names ----

  /** A flat payload for one type is accepted exactly when the name is known but for case and the
      priority is one of 0 to 4. */
  lemma FlatAcceptedIff(allowed: seq<string>, work: string, n: int)
    requires work !in RESERVED
    ensures Accepted(allowed, map[work := Int(n)]) <==>
      (exists k :: 0 <= k < |allowed| && Lower(allowed[k]) == Lower(work)) && n in {0, 1, 2, 3, 4}
  {
    var pairs := map[work := n];
    assert IntParams(pairs) == map[work := Int(n)];
    FlatReadsBack(pairs);
    CanonicalSpelling(allowed, work);
    assert work in pairs;
  }

  /** The vanilla work types. */
  lemma VanillaNames()
    ensures (set w | w in VANILLA_WORK_TYPES) == {
      "Firefighter", "Patient", "Doctor", "PatientBedRest", "BasicWorker", "Warden", "Handling", "Cooking", "Hunting",
      "Construction", "Growing", "Mining", "PlantCutting", "Smithing", "Tailoring", "Art", "Crafting", "Hauling",
      "Cleaning", "Research", "Childcare"}
  {
  }

  /** `work_type` names the type before `work`, and `work` before `skill`. */
  lemma NamePrecedence(u: string, v: string, w: string, n: int)
    requires u != "" && v != "" && u !in RESERVED && v !in RESERVED
    ensures
      Extract(map["work_type" := Str(u), "work" := Str(v), "skill" := Str(w), "priority" := Int(n)]) == map[u := n]
    ensures Extract(map["work" := Str(v), "skill" := Str(w), "priority" := Int(n)]) == map[v := n]
  {
    var first: Params := map["work_type" := Str(u), "work" := Str(v), "skill" := Str(w), "priority" := Int(n)];
    var second: Params := map["work" := Str(v), "skill" := Str(w), "priority" := Int(n)];
    assert NamedWork(first) == Str(u) && NamedWork(second) == Str(v);
  }

  /** Field names of the transfer object are no work types: an integer under one of them sets
      nothing. */
  lemma FieldsSetNothing(key: string, n: int)
    requires key in {
      "id", "priority", "pawn_id", "colonist_id", "target_colonist_id", "work_priorities", "reason", "map_id"}
    ensures Extract(map[key := Int(n)]) == map[]
  {
    var m := map[key := n];
    assert IntParams(m) == map[key := Int(n)];
    FlatReadsBack(m);
    assert m.Keys == {key};
  }

  /** A parameter that names a single work type: the first there is of `work_type`, `work` and
      `skill`, unless it is null, empty or a field name. */
  predicate TypeNamed(params: Params, name: string) {
    (if "work_type" in params then params["work_type"] != Null && name == PyStr(params["work_type"])
     else if "work" in params then params["work"] != Null && name == PyStr(params["work"])
     else "skill" in params && params["skill"] != Null && name == PyStr(params["skill"])) &&
    name != "" && !FieldName(name)
  }

  predicate FieldName(name: string) {
    name in {
      "id", "priority", "pawn_id", "colonist_id", "target_colonist_id", "work", "work_type", "skill",
      "work_priorities", "reason", "map_id"}
  }

  /** Entry by entry, what is read out of parameters of any shape. */
  lemma ExtractMeans(params: Params, work: string, n: int)
    ensures (work, n) in Extract(params).Items <==>
      if "work_priorities" in params && params["work_priorities"].Obj? then
        work in params["work_priorities"].fields && PyInt(params["work_priorities"].fields[work]) == Some(n)
      else if exists name :: TypeNamed(params, name) then
        TypeNamed(params, work) && (if "priority" in params then PyInt(params["priority"]) == Some(n) else n == 1)
      else work in params && !FieldName(work) && params[work] == Int(n)
  {
    var nested := Get(params, "work_priorities");
    if nested.Obj? {
      assert Extract(params) == NestedMap(nested.fields);
    } else {
      var name := PyStr(NamedWork(params));
      assert IsNamed(params) <==> TypeNamed(params, name);
      if IsNamed(params) {
        assert TypeNamed(params, name);
      } else {
        assert forall other :: !TypeNamed(params, other);
        assert Extract(params) == FlatMap(params);
      }
    }
  }
}

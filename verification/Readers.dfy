/** One `work_priority` payload, three readers: what the resolver and the executor take it to
    set, and what the detector does. */
module Readers {
  import opened Values
  import opened Actions
  import opened Preflight
  import opened Resolver
  import opened ResolverLaws
  import opened Coherence
  import opened Executor

  // ---- When the detector mirrors the executor ----

  /** The integer parameters outside `skipped` are at most `name: n`. */
  predicate AtMost(params: Params, skipped: set<string>, name: string, n: int) {
    forall w :: w in params && w !in skipped && params[w].Int? ==> w == name && params[w].i == n
  }

  /** The integer parameters outside `skipped` are exactly `name: n`. */
  predicate Only(params: Params, skipped: set<string>, name: string, n: int) {
    name in params && name !in skipped && params[name] == Int(n) && AtMost(params, skipped, name, n)
  }

  /** No parameter outside `skipped` is an integer. */
  predicate NoneBut(params: Params, skipped: set<string>) {
    forall w :: w in params && w !in skipped ==> !params[w].Int?
  }

  /** Branch by branch, what a payload must hold for both readers to see the same settings. */
  predicate Mirrored(params: Params) {
    var nested, name := Get(params, "work_priorities"), PyStr(NamedWork(params));
    var pri := GetOr(params, "priority", Int(1));
    if nested.Obj? then
      forall w :: w in nested.fields && PyInt(nested.fields[w]).Some? ==> IsInt(nested.fields[w])
    else if "work_type" in params then
      if IsNamed(params) then PyInt(pri).Some? ==> IsInt(pri)
      else if IsInt(pri) then Only(params, RESERVED, name, IntOf(pri))
      else NoneBut(params, RESERVED)
    else if IsNamed(params) then
      if PyInt(pri).Some? then Only(params, {}, name, PyInt(pri).value) else NoneBut(params, {})
    else forall w :: w in params && w in RESERVED ==> !params[w].Int?
  }

  function Single(name: string, n: int): map<string, int> { map[name := n] }

  /** The integer parameters outside `skipped`. */
  function IntsBut(params: Params, skipped: set<string>): map<string, int> {
    map w | w in params && w !in skipped && params[w].Int? :: params[w].i
  }

  lemma IntsAre(params: Params, skipped: set<string>, name: string, n: int)
    ensures IntsBut(params, skipped) == Single(name, n) <==> Only(params, skipped, name, n)
    ensures IntsBut(params, skipped) == map[] <==> NoneBut(params, skipped)
  {
    var ints := IntsBut(params, skipped);
    if ints == Single(name, n) {
      assert name in ints;
      forall w | w in params && w !in skipped && params[w].Int? ensures w == name && params[w].i == n {
        assert w in ints;
      }
    }
    if ints == map[] {
      forall w | w in params && w !in skipped ensures !params[w].Int? {
        assert w !in ints;
      }
    }
  }

  lemma NestedMirrored(fields: map<string, Value>)
    ensures NestedMap(fields) == (map w | w in fields && IsInt(fields[w]) :: IntOf(fields[w])) <==>
      forall w :: w in fields && PyInt(fields[w]).Some? ==> IsInt(fields[w])
  {
    var seen := map w | w in fields && IsInt(fields[w]) :: IntOf(fields[w]);
    if NestedMap(fields) == seen {
      forall w | w in fields && PyInt(fields[w]).Some? ensures IsInt(fields[w]) {
        assert w in NestedMap(fields);
      }
    }
  }

  lemma FlatMirrored(params: Params)
    ensures IntsBut(params, RESERVED) == IntsBut(params, {}) <==>
      forall w :: w in params && w in RESERVED ==> !params[w].Int?
  {
    if IntsBut(params, RESERVED) == IntsBut(params, {}) {
      forall w | w in params && w in RESERVED ensures !params[w].Int? {
        assert w !in IntsBut(params, RESERVED);
      }
    }
  }

  /** The detector takes a payload for what the executor does exactly when it is `Mirrored`. */
  lemma MirroredIff(params: Params)
    ensures Extract(params) == WorkOf(params) <==> Mirrored(params)
  {
    var nested, name := Get(params, "work_priorities"), PyStr(NamedWork(params));
    var pri := GetOr(params, "priority", Int(1));
    if nested.Obj? {
      NestedMirrored(nested.fields);
    } else {
      var n := if PyInt(pri).Some? then PyInt(pri).value else 0;
      assert FlatMap(params) == IntsBut(params, RESERVED);
      assert "work_type" !in params ==> WorkOf(params) == IntsBut(params, {});
      IntsAre(params, RESERVED, name, n);
      IntsAre(params, {}, name, n);
      FlatMirrored(params);
      assert name in Single(name, n);
    }
  }

  /** So a type named by `work` or `skill` is never mirrored when its priority is an integer. */
  lemma NamedWithPriorityApart(params: Params)
    requires !Get(params, "work_priorities").Obj? && "work_type" !in params && IsNamed(params)
    requires Get(params, "priority").Int?
    ensures Extract(params) == Single(PyStr(NamedWork(params)), params["priority"].i)
    ensures "priority" in WorkOf(params) && Extract(params) != WorkOf(params)
  {
    assert "priority" in RESERVED;
    assert "priority" !in Extract(params);
  }

  // ---- What the executor sets ----

  /** A `work_priority` write that reaches a pawn and is accepted, with its keys in dict order. */
  ghost predicate Executable(types: seq<string>, o: ActionOutcome, keys: seq<string>) {
    KindOf(o) == WorkPriority && !NoPawn(PawnOf(o.target)) && Accepted(types, o.parameters) &&
    Lists(keys, Extract(o.parameters))
  }

  /** The priorities it sets, by known type. */
  ghost function SetBy(types: seq<string>, o: ActionOutcome, keys: seq<string>): map<string, int>
    requires Executable(types, o, keys)
  {
    Normalize(types, o.parameters, keys).value
  }

  lemma SetsTypes(types: seq<string>, o: ActionOutcome, keys: seq<string>)
    requires Executable(types, o, keys)
    ensures var pairs, done := Extract(o.parameters), SetBy(types, o, keys);
      (forall c :: c in done ==> IsType(types, c) && InRange(done[c]) && GivenAs(types, pairs, c, done[c])) &&
      (forall w :: w in pairs ==> Known(types, w) && Spelling(types, w) in done)
  {
    ValidatedTypes(types, Extract(o.parameters), keys);
  }

  predicate Differ(x: map<string, int>, y: map<string, int>) { exists w :: w in x && w in y && x[w] != y[w] }

  /** Two writes that give one work type of a pawn two priorities. */
  ghost predicate SetApart(types: seq<string>, a: ActionOutcome, ka: seq<string>, b: ActionOutcome, kb: seq<string>)
    requires Executable(types, a, ka) && Executable(types, b, kb)
  {
    PawnOf(a.target) == PawnOf(b.target) && Differ(SetBy(types, a, ka), SetBy(types, b, kb))
  }

  /** The detector sees exactly what the executor sets. */
  ghost predicate Transparent(types: seq<string>, o: ActionOutcome, keys: seq<string>) {
    Executable(types, o, keys) && WorkOf(o.parameters) == SetBy(types, o, keys)
  }

  // ---- When the detector judges a write rightly ----

  /** Against every transparent write, the detector finds a contradiction where there is one. */
  ghost predicate RightlyJudged(types: seq<string>, a: ActionOutcome, ka: seq<string>)
    requires Executable(types, a, ka)
  {
    forall b: ActionOutcome, kb: seq<string> :: Transparent(types, b, kb) ==>
      (WorkClash(a, b) <==> SetApart(types, a, ka, b, kb))
  }

  /** The two maps agree on every known type. */
  ghost predicate Agree(types: seq<string>, shown: map<string, int>, done: map<string, int>) {
    forall c :: IsType(types, c) ==> (c in shown <==> c in done) && (c in done && c in shown ==> shown[c] == done[c])
  }

  /** A nested payload that sets one work type, whatever its name. */
  function Setting(work: string, n: int): Params {
    map["work_priorities" := Obj(map[work := Int(n)], "")]
  }

  lemma SettingRead(work: string, n: int)
    ensures Extract(Setting(work, n)) == WorkOf(Setting(work, n)) == Single(work, n)
  {
    var fields := map[work := Int(n)];
    assert NestedMap(fields) == Single(work, n);
    MirroredIff(Setting(work, n));
  }

  lemma SingleSet(types: seq<string>, w: string, n: int)
    requires Known(types, w)
    ensures Lists([w], Single(w, n)) && AllKnown(types, Single(w, n), [w])
    ensures Validated(types, Single(w, n), [w]) == Single(Spelling(types, w), n)
  {
    assert [w][..0] == [];
    assert Validated(types, Single(w, n), []) == map[];
  }

  lemma SettingTransparent(types: seq<string>, a: ActionOutcome, c: string, n: int)
    requires KindOf(a) == WorkPriority && !NoPawn(PawnOf(a.target)) && IsType(types, c) && InRange(n)
    ensures var b := a.(parameters := Setting(c, n)); Transparent(types, b, [c]) && SetBy(types, b, [c]) == Single(c, n)
  {
    SettingRead(c, n);
    SingleSet(types, c, n);
    assert c in Single(c, n);
  }

  /** A write that disagrees on type `c` is misjudged against the right single setting of it. */
  lemma MisjudgedAt(types: seq<string>, a: ActionOutcome, ka: seq<string>, c: string, n: int)
    requires Executable(types, a, ka) && IsType(types, c) && InRange(n)
    requires var x, y := SetBy(types, a, ka), WorkOf(a.parameters);
      (c in x && x[c] != n) != (c in y && y[c] != n)
    ensures !RightlyJudged(types, a, ka)
  {
    SettingTransparent(types, a, c, n);
    var b := a.(parameters := Setting(c, n));
    DifferSingle(SetBy(types, a, ka), c, n);
    DifferSingle(WorkOf(a.parameters), c, n);
    assert WorkClash(a, b) <==> Differ(WorkOf(a.parameters), WorkOf(b.parameters));
    assert Transparent(types, b, [c]);
  }

  lemma DifferSingle(x: map<string, int>, c: string, n: int)
    ensures Differ(x, Single(c, n)) <==> c in x && x[c] != n
  {
    assert c in Single(c, n);
  }

  /** An executable write is judged rightly exactly when what the detector sees of it and what the
      executor sets agree on every known type. Names that are no types do no harm here. */
  lemma JudgedRightlyIff(types: seq<string>, a: ActionOutcome, ka: seq<string>)
    requires Executable(types, a, ka)
    ensures RightlyJudged(types, a, ka) <==> Agree(types, WorkOf(a.parameters), SetBy(types, a, ka))
  {
    if Agree(types, WorkOf(a.parameters), SetBy(types, a, ka)) {
      forall b: ActionOutcome, kb: seq<string> | Transparent(types, b, kb)
        ensures WorkClash(a, b) <==> SetApart(types, a, ka, b, kb)
      {
        AgreeingJudged(types, a, ka, b, kb);
      }
    } else {
      DisagreeingMisjudged(types, a, ka);
    }
  }

  lemma AgreeingJudged(types: seq<string>, a: ActionOutcome, ka: seq<string>, b: ActionOutcome, kb: seq<string>)
    requires Executable(types, a, ka) && Agree(types, WorkOf(a.parameters), SetBy(types, a, ka))
    requires Transparent(types, b, kb)
    ensures WorkClash(a, b) <==> SetApart(types, a, ka, b, kb)
  {
    SetsTypes(types, b, kb);
    AgreeDiffer(types, SetBy(types, a, ka), WorkOf(a.parameters), SetBy(types, b, kb));
    assert WorkClash(a, b) <==>
      PawnOf(a.target) == PawnOf(b.target) && Differ(WorkOf(a.parameters), WorkOf(b.parameters));
  }

  lemma DisagreeingMisjudged(types: seq<string>, a: ActionOutcome, ka: seq<string>)
    requires Executable(types, a, ka) && !Agree(types, WorkOf(a.parameters), SetBy(types, a, ka))
    ensures !RightlyJudged(types, a, ka)
  {
    var x, y := SetBy(types, a, ka), WorkOf(a.parameters);
    SetsTypes(types, a, ka);
    var c :| IsType(types, c) && !((c in y <==> c in x) && (c in x && c in y ==> y[c] == x[c]));
    MisjudgedAt(types, a, ka, c, TellingValue(x, y, c));
  }

  /** A priority that shows the difference. */
  function TellingValue(x: map<string, int>, y: map<string, int>, c: string): (n: int)
    requires (c in x ==> InRange(x[c])) && !((c in y <==> c in x) && (c in x && c in y ==> y[c] == x[c]))
    ensures InRange(n) && (c in x && x[c] != n) != (c in y && y[c] != n)
  {
    if c in x then if c in y then x[c] else (x[c] + 1) % 5
    else if y[c] == 0 then 1
    else 0
  }

  lemma AgreeDiffer(types: seq<string>, x: map<string, int>, y: map<string, int>, z: map<string, int>)
    requires Agree(types, y, x) && forall c :: c in z ==> IsType(types, c)
    ensures Differ(y, z) <==> Differ(x, z)
  {
  }

  /** Between two writes that agree, only a name that is no type can mislead the detector. */
  lemma AgreeingPair(types: seq<string>, a: ActionOutcome, ka: seq<string>, b: ActionOutcome, kb: seq<string>)
    requires Executable(types, a, ka) && Executable(types, b, kb) && PawnOf(a.target) == PawnOf(b.target)
    requires Agree(types, WorkOf(a.parameters), SetBy(types, a, ka))
    requires Agree(types, WorkOf(b.parameters), SetBy(types, b, kb))
    ensures var x, y := WorkOf(a.parameters), WorkOf(b.parameters);
      WorkClash(a, b) <==>
        SetApart(types, a, ka, b, kb) || exists w :: !IsType(types, w) && w in x && w in y && x[w] != y[w]
  {
    var x, y := WorkOf(a.parameters), WorkOf(b.parameters);
    SetsTypes(types, a, ka);
    SetsTypes(types, b, kb);
    assert WorkClash(a, b) <==> Differ(x, y);
  }

  // ---- The condition, branch by branch ----

  predicate Gives(done: map<string, int>, c: string, n: int) { c in done && done[c] == n }

  /** The parameter under `c` is the integer that is set. */
  predicate ShowsSetting(params: Params, done: map<string, int>, c: string) {
    c in params && params[c].Int? && Gives(done, c, params[c].i)
  }

  /** For the nested shape: each type is also given in its known spelling, as an integer, and that
      entry is the one that is set. */
  predicate NestedShown(types: seq<string>, fields: map<string, Value>, done: map<string, int>) {
    forall w :: w in fields && PyInt(fields[w]).Some? && Known(types, w) ==>
      var c := Spelling(types, w);
      c in fields && IsInt(fields[c]) && Gives(done, c, IntOf(fields[c]))
  }

  /** For the flat shape: the same, and no reserved key passes for a type that is not set so. */
  predicate FlatShown(types: seq<string>, params: Params, done: map<string, int>) {
    (forall w :: w in params && w !in RESERVED && params[w].Int? && Known(types, w) ==>
      ShowsSetting(params, done, Spelling(types, w))) &&
    forall w :: w in params && w in RESERVED && params[w].Int? && IsType(types, w) ==> Gives(done, w, params[w].i)
  }

  /** Unnamed `work_type`: everything given is a spelling of it, set to the integer priority. */
  predicate UnnamedShown(types: seq<string>, params: Params, name: string, pri: Value, done: map<string, int>) {
    IsInt(pri) && Gives(done, name, IntOf(pri)) &&
    forall w :: w in params && w !in RESERVED && params[w].Int? ==> Canonical(types, w) == Some(name)
  }

  /** Named by `work` or `skill`: the known spelling is also a parameter with the priority, and no
      other type is an integer parameter. */
  predicate NamedShown(types: seq<string>, params: Params, name: string, n: int) {
    Known(types, name) && Get(params, Spelling(types, name)) == Int(n) &&
    forall w :: w in params && params[w].Int? && w != Spelling(types, name) ==> !IsType(types, w)
  }

  predicate Shown(types: seq<string>, params: Params, done: map<string, int>) {
    var nested, name := Get(params, "work_priorities"), PyStr(NamedWork(params));
    var pri := GetOr(params, "priority", Int(1));
    if nested.Obj? then NestedShown(types, nested.fields, done)
    else if "work_type" in params then
      if IsNamed(params) then IsInt(pri) && IsType(types, name) else UnnamedShown(types, params, name, pri, done)
    else if IsNamed(params) then PyInt(pri).Some? && NamedShown(types, params, name, PyInt(pri).value)
    else FlatShown(types, params, done)
  }

  /** `done` is what `pairs` may come to: known types, each to a value given under some spelling. */
  ghost predicate ComesTo(types: seq<string>, pairs: map<string, int>, done: map<string, int>) {
    pairs != map[] &&
    (forall c :: c in done ==> IsType(types, c) && GivenAs(types, pairs, c, done[c])) &&
    (forall w :: w in pairs ==> Known(types, w) && Spelling(types, w) in done)
  }

  lemma NestedAgree(types: seq<string>, fields: map<string, Value>, done: map<string, int>)
    requires ComesTo(types, NestedMap(fields), done)
    ensures var shown := map w | w in fields && IsInt(fields[w]) :: IntOf(fields[w]);
      Agree(types, shown, done) <==> NestedShown(types, fields, done)
  {
    var shown := map w | w in fields && IsInt(fields[w]) :: IntOf(fields[w]);
    if Agree(types, shown, done) {
      forall w | w in fields && PyInt(fields[w]).Some? && Known(types, w)
        ensures var c := Spelling(types, w); c in fields && IsInt(fields[c]) && Gives(done, c, IntOf(fields[c]))
      {
        assert w in NestedMap(fields);
      }
    }
    if NestedShown(types, fields, done) {
      forall c | IsType(types, c)
        ensures (c in shown <==> c in done) && (c in done && c in shown ==> shown[c] == done[c])
      {
        if c in shown {
          assert PyInt(fields[c]).Some? && Spelling(types, c) == c;
        }
        if c in done {
          var w :| w in NestedMap(fields) && Canonical(types, w) == Some(c);
          assert Spelling(types, w) == c;
        }
      }
    }
  }

  lemma FlatAgree(types: seq<string>, params: Params, done: map<string, int>)
    requires ComesTo(types, FlatMap(params), done)
    ensures Agree(types, IntsBut(params, {}), done) <==> FlatShown(types, params, done)
  {
    var shown := IntsBut(params, {});
    if Agree(types, shown, done) {
      forall w | w in params && w !in RESERVED && params[w].Int? && Known(types, w)
        ensures ShowsSetting(params, done, Spelling(types, w))
      {
        assert w in FlatMap(params);
        assert Spelling(types, w) in shown;
      }
      forall w | w in params && w in RESERVED && params[w].Int? && IsType(types, w)
        ensures Gives(done, w, params[w].i)
      {
        assert w in shown;
      }
    }
    if FlatShown(types, params, done) {
      forall c | IsType(types, c)
        ensures (c in shown <==> c in done) && (c in done && c in shown ==> shown[c] == done[c])
      {
        if c in shown && c !in RESERVED {
          assert Spelling(types, c) == c;
        }
        if c in done {
          var w :| w in FlatMap(params) && Canonical(types, w) == Some(c);
          assert Spelling(types, w) == c;
        }
      }
    }
  }

  lemma UnnamedAgree(types: seq<string>, params: Params, name: string, pri: Value, done: map<string, int>)
    requires ComesTo(types, FlatMap(params), done)
    ensures var shown := if IsInt(pri) then Single(name, IntOf(pri)) else map[];
      Agree(types, shown, done) <==> UnnamedShown(types, params, name, pri, done)
  {
    if UnnamedShown(types, params, name, pri, done) {
      UnnamedSet(types, params, name, IntOf(pri), done);
    } else if IsInt(pri) {
      if Agree(types, Single(name, IntOf(pri)), done) {
        UnnamedSpelt(types, params, name, IntOf(pri), done);
      }
    } else {
      var some :| some in FlatMap(params);
      assert Spelling(types, some) in done;
    }
  }

  lemma UnnamedSet(types: seq<string>, params: Params, name: string, n: int, done: map<string, int>)
    requires ComesTo(types, FlatMap(params), done) && Gives(done, name, n)
    requires forall w :: w in FlatMap(params) ==> Canonical(types, w) == Some(name)
    ensures Agree(types, Single(name, n), done)
  {
    forall c | c in done ensures c == name {
      var w :| w in FlatMap(params) && Canonical(types, w) == Some(c);
    }
  }

  lemma UnnamedSpelt(types: seq<string>, params: Params, name: string, n: int, done: map<string, int>)
    requires ComesTo(types, FlatMap(params), done) && Agree(types, Single(name, n), done)
    ensures Gives(done, name, n) && forall w :: w in FlatMap(params) ==> Canonical(types, w) == Some(name)
  {
    forall w | w in FlatMap(params) ensures Spelling(types, w) == name && Gives(done, name, n) {
      assert Spelling(types, w) in done && IsType(types, Spelling(types, w));
      assert Spelling(types, w) in Single(name, n);
    }
    var some :| some in FlatMap(params);
  }

  lemma NamedAgree(types: seq<string>, params: Params, name: string, n: int, done: map<string, int>)
    requires ComesTo(types, Single(name, n), done)
    ensures done == Single(Spelling(types, name), n)
    ensures Agree(types, IntsBut(params, {}), done) <==> NamedShown(types, params, name, n)
  {
    NamedSet(types, name, n, done);
    SingleAgree(types, params, Spelling(types, name), n);
  }

  lemma NamedSet(types: seq<string>, name: string, n: int, done: map<string, int>)
    requires ComesTo(types, Single(name, n), done)
    ensures Known(types, name) && IsType(types, Spelling(types, name)) && done == Single(Spelling(types, name), n)
  {
    assert name in Single(name, n);
    forall c | c in done ensures c == Spelling(types, name) && done[c] == n {
      GivenBySingle(types, name, n, c, done[c]);
    }
    assert Spelling(types, name) in done;
  }

  lemma GivenBySingle(types: seq<string>, name: string, n: int, c: string, v: int)
    requires GivenAs(types, Single(name, n), c, v)
    ensures Canonical(types, name) == Some(c) && v == n
  {
  }

  lemma SingleAgree(types: seq<string>, params: Params, c: string, n: int)
    requires IsType(types, c)
    ensures Agree(types, IntsBut(params, {}), Single(c, n)) <==>
      Get(params, c) == Int(n) && forall w :: w in params && params[w].Int? && w != c ==> !IsType(types, w)
  {
    var shown := IntsBut(params, {});
    assert c in Single(c, n);
    if Agree(types, shown, Single(c, n)) {
      assert c in shown;
      forall w | w in params && params[w].Int? && w != c ensures !IsType(types, w) {
        assert w in shown && w !in Single(c, n);
      }
    }
  }

  /** What the agreement asks of a payload, by its shape and spelling. */
  lemma AgreeIffShown(types: seq<string>, a: ActionOutcome, ka: seq<string>)
    requires Executable(types, a, ka)
    ensures var done := SetBy(types, a, ka);
      Agree(types, WorkOf(a.parameters), done) <==> Shown(types, a.parameters, done)
  {
    var params, done := a.parameters, SetBy(types, a, ka);
    var nested, name := Get(params, "work_priorities"), PyStr(NamedWork(params));
    var pri := GetOr(params, "priority", Int(1));
    SetsTypes(types, a, ka);
    assert ComesTo(types, Extract(params), done);
    if nested.Obj? {
      NestedAgree(types, nested.fields, done);
    } else if IsNamed(params) {
      var n := PyInt(pri).value;
      NamedAgree(types, params, name, n, done);
      if "work_type" in params {
        assert name in Single(name, n) && Spelling(types, name) in Single(Spelling(types, name), n);
      } else {
        assert WorkOf(params) == IntsBut(params, {});
      }
    } else if "work_type" in params {
      UnnamedAgree(types, params, name, pri, done);
    } else {
      assert WorkOf(params) == IntsBut(params, {});
      FlatAgree(types, params, done);
    }
  }

  // ---- Verdicts that are wrong ----

  /** `{"work": work, "priority": n}` on a pawn. */
  function NamedWrite(actionType: string, target: Option<string>, work: string, n: int): ActionOutcome {
    ActionOutcome(actionType, target, true, map["work" := Str(work), "priority" := Int(n)])
  }

  /** `{work: n}` on a pawn. */
  function FlatWrite(actionType: string, target: Option<string>, work: string, n: int): ActionOutcome {
    ActionOutcome(actionType, target, true, IntParams(Single(work, n)))
  }

  /** `work` can be written as a plain name. */
  predicate Plain(types: seq<string>, work: string) { Known(types, work) && work != "" && work !in RESERVED }

  lemma NamedWriteRead(types: seq<string>, actionType: string, target: Option<string>, work: string, n: int)
    requires Plain(types, work) && InRange(n)
    requires ResolveEndpoint(actionType) == WorkPriority && !NoPawn(PawnOf(target))
    ensures var o := NamedWrite(actionType, target, work, n);
      WorkOf(o.parameters) == Single("priority", n) && Executable(types, o, [work]) &&
      SetBy(types, o, [work]) == Single(Spelling(types, work), n)
  {
    NamedParamsRead(work, n);
    SingleSet(types, work, n);
    assert work in Single(work, n);
  }

  lemma NamedParamsRead(work: string, n: int)
    requires work != "" && work !in RESERVED
    ensures var params: Params := map["work" := Str(work), "priority" := Int(n)];
      Extract(params) == Single(work, n) && WorkOf(params) == Single("priority", n)
  {
    var params: Params := map["work" := Str(work), "priority" := Int(n)];
    assert NamedWork(params) == Str(work);
    assert WorkOf(params).Keys == {"priority"};
  }

  lemma FlatWriteRead(types: seq<string>, actionType: string, target: Option<string>, work: string, n: int)
    requires Plain(types, work) && InRange(n)
    requires ResolveEndpoint(actionType) == WorkPriority && !NoPawn(PawnOf(target))
    ensures var o := FlatWrite(actionType, target, work, n);
      WorkOf(o.parameters) == Single(work, n) && Executable(types, o, [work]) &&
      SetBy(types, o, [work]) == Single(Spelling(types, work), n)
  {
    assert "work_type" in RESERVED;
    FlatReadsBack(Single(work, n));
    DetectorReadsFlat(Single(work, n));
    SingleSet(types, work, n);
    assert work in Single(work, n);
  }

  /** A false contradiction: two writes that set different work types are both flagged. */
  lemma FalseContradiction(
    types: seq<string>, actionType: string, target: Option<string>, u: string, m: int, v: string, n: int)
    requires ResolveEndpoint(actionType) == WorkPriority && !NoPawn(PawnOf(target))
    requires Plain(types, u) && Plain(types, v) && InRange(m) && InRange(n)
    requires Spelling(types, u) != Spelling(types, v) && m != n
    ensures var a, b := NamedWrite(actionType, target, u, m), NamedWrite(actionType, target, v, n);
      Executable(types, a, [u]) && Executable(types, b, [v]) && !SetApart(types, a, [u], b, [v]) &&
      Flagged([a, b]) == {0, 1}
  {
    var a, b := NamedWrite(actionType, target, u, m), NamedWrite(actionType, target, v, n);
    NamedWriteRead(types, actionType, target, u, m);
    NamedWriteRead(types, actionType, target, v, n);
    DifferSingle(WorkOf(a.parameters), "priority", n);
    assert "priority" in Single("priority", m);
    assert WorkClash(a, b);
    FlaggedPair(a, b);
  }

  /** A missed one: two writes that give one work type two priorities, neither flagged. */
  lemma MissedContradiction(
    types: seq<string>, actionType: string, target: Option<string>, work: string, m: int, n: int)
    requires ResolveEndpoint(actionType) == WorkPriority && !NoPawn(PawnOf(target))
    requires Plain(types, work) && InRange(m) && InRange(n) && m != n
    ensures var a, b := NamedWrite(actionType, target, work, m), FlatWrite(actionType, target, work, n);
      Executable(types, a, [work]) && Executable(types, b, [work]) && SetApart(types, a, [work], b, [work]) &&
      Flagged([a, b]) == {}
  {
    var a, b := NamedWrite(actionType, target, work, m), FlatWrite(actionType, target, work, n);
    NamedWriteRead(types, actionType, target, work, m);
    FlatWriteRead(types, actionType, target, work, n);
    DifferSingle(SetBy(types, a, [work]), Spelling(types, work), n);
    assert Spelling(types, work) in SetBy(types, a, [work]);
    assert "priority" in RESERVED;
    OtherSettings(a, b);
    FlaggedPair(a, b);
  }

  /** Another: two spellings of one type, both in the flat shape. */
  lemma SpellingMissed(
    types: seq<string>, actionType: string, target: Option<string>, u: string, m: int, v: string, n: int)
    requires ResolveEndpoint(actionType) == WorkPriority && !NoPawn(PawnOf(target))
    requires Plain(types, u) && Plain(types, v) && InRange(m) && InRange(n)
    requires u != v && Lower(u) == Lower(v) && m != n
    ensures var a, b := FlatWrite(actionType, target, u, m), FlatWrite(actionType, target, v, n);
      Executable(types, a, [u]) && Executable(types, b, [v]) && SetApart(types, a, [u], b, [v]) &&
      Flagged([a, b]) == {}
  {
    var a, b := FlatWrite(actionType, target, u, m), FlatWrite(actionType, target, v, n);
    FlatWriteRead(types, actionType, target, u, m);
    FlatWriteRead(types, actionType, target, v, n);
    CanonicalSameLower(types, u, v);
    DifferSingle(SetBy(types, a, [u]), Spelling(types, u), n);
    assert Spelling(types, u) in SetBy(types, a, [u]);
    OtherSettings(a, b);
    FlaggedPair(a, b);
  }

  /** Writes that set different work types do not clash in the detector's eyes. */
  lemma OtherSettings(a: ActionOutcome, b: ActionOutcome)
    requires KindOf(a) == KindOf(b) == WorkPriority && WorkOf(a.parameters).Keys !! WorkOf(b.parameters).Keys
    ensures !Clash(a, b)
  {
  }

  /** Writes without a pawn set nothing, count as executed whatever RIMAPI says, and are flagged
      all the same. */
  lemma SkippedWritesFlagged(g: Guards, a: Action, b: Action, replies: seq<Reply>)
    requires |replies| == 2 && ResolveEndpoint(a.actionType) == ResolveEndpoint(b.actionType) == WorkPriority
    requires NoPawn(PawnOf(a.target)) && NoPawn(PawnOf(b.target))
    ensures RunGuards(g, [a, b], replies) == g
    ensures var os := RunOutcomes(g, [a, b], replies);
      os == [OutcomeOf(a, true), OutcomeOf(b, true)] && Flagged(os) == if WorkClash(os[0], os[1]) then {0, 1} else {}
  {
    RunPair(g, a, replies[0], b, replies[1]);
    assert replies == [replies[0], replies[1]];
    var x, y := OutcomeOf(a, true), OutcomeOf(b, true);
    FlaggedPair(x, y);
    assert Clash(x, y) <==> WorkClash(x, y);
  }

  // ---- Merged payloads ----

  /** Executor and detector both take a merged payload for what the resolver meant exactly when
      no merged work type bears a reserved name. */
  lemma MergedPayloadReadAlike(candidates: seq<Tagged>)
    requires candidates != [] && Works(candidates) != {}
    ensures var params := Merge(candidates).parameters;
      Extract(params) == MergedWork(candidates) == WorkOf(params) <==> Works(candidates) !! RESERVED
  {
    MergeReadsBack(candidates);
    assert "work_type" in RESERVED;
    DetectorReadsFlat(MergedWork(candidates));
  }
}

/** What the executor makes of a merged payload: the resolver merges per name, the game has types. */
module MergedSettings {
  import opened Values
  import opened Seqs
  import opened Preflight
  import opened Resolver
  import opened ResolverLaws

  /** `t` gives some spelling of type `c`. */
  predicate MentionsType(types: seq<string>, t: Tagged, c: string) {
    exists w :: w in Extract(t.action.parameters) && Canonical(types, w) == Some(c)
  }

  function TypeMentions(types: seq<string>, c: string): Tagged -> bool { (t: Tagged) => MentionsType(types, t, c) }

  /** `t` has the least key of the candidates that give some spelling of `c`. */
  ghost predicate IsLeastTypeMention(types: seq<string>, candidates: seq<Tagged>, c: string, t: Tagged) {
    t in candidates && MentionsType(types, t, c) &&
    forall u :: u in candidates && MentionsType(types, u, c) && u != t ==> Beats(t, u)
  }

  /** Every type is set to what its least-key mention gives it. */
  ghost predicate SetToLeast(types: seq<string>, candidates: seq<Tagged>, done: map<string, int>) {
    forall c, t :: IsLeastTypeMention(types, candidates, c, t) ==>
      c in done && forall w :: w in Extract(t.action.parameters) && Canonical(types, w) == Some(c) ==>
        Extract(t.action.parameters)[w] == done[c]
  }

  /** Two names of one type carry one value. */
  predicate OneValuePerType(types: seq<string>, pairs: map<string, int>) {
    forall u, v :: u in pairs && v in pairs && Known(types, u) && Canonical(types, u) == Canonical(types, v) ==>
      pairs[u] == pairs[v]
  }

  /** The least-key mention of a type is the least-key mention of each name it uses. */
  lemma LeastTypeOwns(types: seq<string>, candidates: seq<Tagged>, c: string, t: Tagged, w: string)
    requires candidates != [] && NumberedApart(candidates) && IsLeastTypeMention(types, candidates, c, t)
    requires w in Extract(t.action.parameters) && Canonical(types, w) == Some(c)
    ensures w in MergedWork(candidates) && MergedWork(candidates)[w] == Extract(t.action.parameters)[w]
  {
    forall u | u in candidates && MentionsWork(u, w) && u != t ensures Beats(t, u) {
      assert MentionsType(types, u, c);
    }
    assert IsLeastMention(candidates, w, t);
    MergePreservesMeaning(candidates, w, t);
  }

  lemma LeastTypeExists(types: seq<string>, candidates: seq<Tagged>, c: string, w: string) returns (t: Tagged)
    requires NumberedApart(candidates) && w in MergedWork(candidates) && Canonical(types, w) == Some(c)
    ensures IsLeastTypeMention(types, candidates, c, t)
  {
    var group := Filter(TypeMentions(types, c), candidates);
    forall u ensures u in group <==> u in candidates && MentionsType(types, u, c) {
      FilterIn(TypeMentions(types, c), candidates, u);
    }
    OwnerMentions(candidates, w);
    assert Owner(candidates, w) in group;
    t := Winner(group);
    WinnerIsLeast(group, t);
  }

  /** An order of the keys that ends with `last`. */
  lemma OrderEnding(pairs: map<string, int>, last: string) returns (keys: seq<string>)
    requires last in pairs
    ensures Lists(keys, pairs) && keys != [] && keys[|keys| - 1] == last
  {
    keys := OrderOf(pairs.Keys - {last});
    keys := keys + [last];
  }

  lemma {:induction false} OrderOf(names: set<string>) returns (keys: seq<string>)
    ensures Distinct(keys) && forall w :: w in keys <==> w in names
  {
    if names == {} {
      keys := [];
    } else {
      var w :| w in names;
      keys := OrderOf(names - {w});
      keys := keys + [w];
    }
  }

  /** The spelling that comes last decides. */
  lemma LastSpellingWins(types: seq<string>, pairs: map<string, int>, keys: seq<string>)
    requires AllKnown(types, pairs, keys) && keys != []
    ensures var w, done := keys[|keys| - 1], Validated(types, pairs, keys);
      Spelling(types, w) in done && done[Spelling(types, w)] == pairs[w]
  {
  }

  ghost predicate AlwaysSetToLeast(types: seq<string>, candidates: seq<Tagged>)
    requires candidates != [] && Extract(Merge(candidates).parameters) == MergedWork(candidates)
    requires Accepted(types, Merge(candidates).parameters)
  {
    forall keys :: Lists(keys, MergedWork(candidates)) ==>
      SetToLeast(types, candidates, Normalize(types, Merge(candidates).parameters, keys).value)
  }

  lemma OneValueSetsLeast(types: seq<string>, candidates: seq<Tagged>, keys: seq<string>)
    requires candidates != [] && NumberedApart(candidates) && Acceptable(types, MergedWork(candidates))
    requires Lists(keys, MergedWork(candidates)) && OneValuePerType(types, MergedWork(candidates))
    ensures AllKnown(types, MergedWork(candidates), keys)
    ensures SetToLeast(types, candidates, Validated(types, MergedWork(candidates), keys))
  {
    var pairs := MergedWork(candidates);
    ValidatedTypes(types, pairs, keys);
    var done := Validated(types, pairs, keys);
    forall c, t, w | IsLeastTypeMention(types, candidates, c, t) &&
                     w in Extract(t.action.parameters) && Canonical(types, w) == Some(c)
      ensures c in done && Extract(t.action.parameters)[w] == done[c]
    {
      LeastTypeOwns(types, candidates, c, t, w);
      assert Spelling(types, w) == c;
      var v :| v in pairs && Canonical(types, v) == Some(c) && pairs[v] == done[c];
    }
  }

  /** Ending the payload with `w` sets its type to the value of `w`, which must then be the one of
      the least-key mention. */
  lemma EndingDecides(types: seq<string>, candidates: seq<Tagged>, c: string, t: Tagged, x: string, w: string)
    requires candidates != [] && Extract(Merge(candidates).parameters) == MergedWork(candidates)
    requires Accepted(types, Merge(candidates).parameters) && AlwaysSetToLeast(types, candidates)
    requires IsLeastTypeMention(types, candidates, c, t)
    requires x in Extract(t.action.parameters) && Canonical(types, x) == Some(c)
    requires w in MergedWork(candidates) && Canonical(types, w) == Some(c)
    ensures MergedWork(candidates)[w] == Extract(t.action.parameters)[x]
  {
    var pairs := MergedWork(candidates);
    var keys := OrderEnding(pairs, w);
    ValidatedTypes(types, pairs, keys);
    LastSpellingWins(types, pairs, keys);
    assert SetToLeast(types, candidates, Normalize(types, Merge(candidates).parameters, keys).value);
  }

  /** Whatever the order of the payload's keys, the executor sets each type to what its least-key
      mention gives, exactly when no two merged names are spellings of one type with different
      values. */
  lemma MergedSettingIff(types: seq<string>, candidates: seq<Tagged>)
    requires candidates != [] && NumberedApart(candidates) && Works(candidates) !! RESERVED
    requires Accepted(types, Merge(candidates).parameters)
    ensures Extract(Merge(candidates).parameters) == MergedWork(candidates)
    ensures AlwaysSetToLeast(types, candidates) <==> OneValuePerType(types, MergedWork(candidates))
  {
    var pairs := MergedWork(candidates);
    MergeReadsBack(candidates);
    if OneValuePerType(types, pairs) {
      forall keys | Lists(keys, pairs)
        ensures SetToLeast(types, candidates, Normalize(types, Merge(candidates).parameters, keys).value)
      {
        OneValueSetsLeast(types, candidates, keys);
      }
    }
    if AlwaysSetToLeast(types, candidates) {
      forall u, v | u in pairs && v in pairs && Known(types, u) && Canonical(types, u) == Canonical(types, v)
        ensures pairs[u] == pairs[v]
      {
        var c := Spelling(types, u);
        var t := LeastTypeExists(types, candidates, c, u);
        var x :| x in Extract(t.action.parameters) && Canonical(types, x) == Some(c);
        EndingDecides(types, candidates, c, t, x, u);
        EndingDecides(types, candidates, c, t, x, v);
      }
    }
  }

  /** Any merged name can have the last word on its type, a loser's as well. */
  lemma AnyNameCanWin(types: seq<string>, candidates: seq<Tagged>, w: string) returns (keys: seq<string>)
    requires candidates != [] && Works(candidates) !! RESERVED && Accepted(types, Merge(candidates).parameters)
    requires w in MergedWork(candidates)
    ensures Lists(keys, Extract(Merge(candidates).parameters)) && Known(types, w)
    ensures var done := Normalize(types, Merge(candidates).parameters, keys).value;
      Spelling(types, w) in done && done[Spelling(types, w)] == MergedWork(candidates)[w]
  {
    MergeReadsBack(candidates);
    keys := OrderEnding(MergedWork(candidates), w);
    ValidatedTypes(types, MergedWork(candidates), keys);
    LastSpellingWins(types, MergedWork(candidates), keys);
  }

  lemma AllMentionsKnown(types: seq<string>, candidates: seq<Tagged>)
    ensures (forall w :: w in Works(candidates) ==> Known(types, w)) <==>
      forall t, w :: t in candidates && MentionsWork(t, w) ==> Known(types, w)
  {
    forall w ensures w in Works(candidates) <==> exists t :: t in candidates && MentionsWork(t, w) {
      WorksMentioned(candidates, w);
    }
  }

  /** A merged write is accepted exactly when every candidate names known types only and the values
      that won are in range: one role's unknown name refuses the settings of all. */
  lemma MergedAcceptedIff(types: seq<string>, candidates: seq<Tagged>)
    requires candidates != [] && Works(candidates) != {} && Works(candidates) !! RESERVED
    ensures Accepted(types, Merge(candidates).parameters) <==>
      (forall t, w :: t in candidates && MentionsWork(t, w) ==> Known(types, w)) &&
      forall w :: w in Works(candidates) ==> InRange(MergedValue(candidates, w))
  {
    MergeReadsBack(candidates);
    AllMentionsKnown(types, candidates);
    WorksAcceptable(types, candidates);
  }

  lemma WorksAcceptable(types: seq<string>, candidates: seq<Tagged>)
    requires Works(candidates) != {}
    ensures Acceptable(types, MergedWork(candidates)) <==>
      (forall w :: w in Works(candidates) ==> Known(types, w)) &&
      forall w :: w in Works(candidates) ==> InRange(MergedValue(candidates, w))
  {
    var pairs := MergedWork(candidates);
    assert pairs.Keys == Works(candidates);
    assert forall w :: w in Works(candidates) ==> w in pairs && pairs[w] == MergedValue(candidates, w);
  }
}

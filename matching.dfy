/**
 * The matcher: a built path is looked up in the plan map, first as an exact
 * key, then against the keys in insertion order, accepting the first key
 * that is a character prefix of the path or has the path as a prefix.
 */
module Matching {
  import opened Wrappers
  import opened Plans

  /** `key.startswith(path) or path.startswith(key)`. */
  predicate PrefixRelated(key: string, path: string) {
    key <= path || path <= key
  }

  /** The record of the first entry, in insertion order, whose key is prefix-related to the path. */
  function FirstRelated(m: PlanMap, path: string): Option<PlanRecord> {
    if m == [] then None
    else if PrefixRelated(m[0].0, path) then Some(m[0].1)
    else FirstRelated(m[1..], path)
  }

  /** The plan a built path is matched to; an empty path is never matched. */
  function Match(m: PlanMap, path: string): Option<PlanRecord> {
    if path == [] then None
    else if HasKey(m, path) then Lookup(m, path)
    else FirstRelated(m, path)
  }

  /** The matcher as the routine runs it: a dict lookup, then a scan that stops at the first related key. */
  method FindMatch(m: PlanMap, path: string) returns (r: Option<PlanRecord>)
    ensures r == Match(m, path)
  {
    r := None;
    if path != [] {
      r := Lookup(m, path);
      if r.None? {
        var i := 0;
        while i < |m|
          invariant 0 <= i <= |m|
          invariant FirstRelated(m, path) == FirstRelated(m[i..], path)
        {
          assert m[i..][1..] == m[i + 1..];
          if PrefixRelated(m[i].0, path) {
            r := Some(m[i].1);
            return;
          }
          i := i + 1;
        }
      }
    }
  }

  /** The partial scan returns a record of the map, stored under a key related to the path, with no related key before it. */
  lemma {:induction false} FirstRelatedIsFirst(m: PlanMap, path: string)
    ensures FirstRelated(m, path).None? <==> forall i :: 0 <= i < |m| ==> !PrefixRelated(m[i].0, path)
    ensures FirstRelated(m, path).Some? ==>
      exists j :: 0 <= j < |m| && PrefixRelated(m[j].0, path) && FirstRelated(m, path) == Some(m[j].1)
        && forall i :: 0 <= i < j ==> !PrefixRelated(m[i].0, path)
  {
    if m != [] && !PrefixRelated(m[0].0, path) {
      FirstRelatedIsFirst(m[1..], path);
      assert forall i :: 0 < i < |m| ==> m[i] == m[1..][i - 1];
      if FirstRelated(m, path).Some? {
        var j :| 0 <= j < |m| - 1 && PrefixRelated(m[1..][j].0, path) && FirstRelated(m[1..], path) == Some(m[1..][j].1)
          && forall i :: 0 <= i < j ==> !PrefixRelated(m[1..][i].0, path);
        assert PrefixRelated(m[j + 1].0, path);
      }
    } else if m != [] {
      assert PrefixRelated(m[0].0, path);
    }
  }

  /** No match exactly when the path is empty or no key is prefix-related to it. */
  lemma MatchNoneIff(m: PlanMap, path: string)
    ensures Match(m, path).None? <==> path == [] || forall i :: 0 <= i < |m| ==> !PrefixRelated(m[i].0, path)
  {
    FirstRelatedIsFirst(m, path);
    if path != [] && HasKey(m, path) {
      var i :| 0 <= i < |m| && m[i].0 == path;
      assert PrefixRelated(m[i].0, path);
    }
  }

  /** An exact key always wins over an earlier prefix-related key. */
  lemma MatchExactWins(m: PlanMap, path: string, i: nat)
    requires UniqueKeys(m) && i < |m|
    requires path != [] && m[i].0 == path
    ensures Match(m, path) == Some(m[i].1)
  {
    LookupUnique(m, i);
  }

  /** Without an exact key, the first prefix-related key in insertion order decides the match. */
  lemma MatchFirstRelated(m: PlanMap, path: string, j: nat)
    requires path != [] && !HasKey(m, path)
    requires j < |m| && PrefixRelated(m[j].0, path)
    requires forall i :: 0 <= i < j ==> !PrefixRelated(m[i].0, path)
    ensures Match(m, path) == Some(m[j].1)
  {
    FirstRelatedIsFirst(m, path);
    var j' :| 0 <= j' < |m| && PrefixRelated(m[j'].0, path) && FirstRelated(m, path) == Some(m[j'].1)
      && forall i :: 0 <= i < j' ==> !PrefixRelated(m[i].0, path);
    assert j' == j;
  }

  /** Every match is a record of the map stored under a key related to the path. */
  lemma MatchFromMap(m: PlanMap, path: string)
    requires Match(m, path).Some?
    ensures exists j :: 0 <= j < |m| && PrefixRelated(m[j].0, path) && m[j].1 == Match(m, path).value
  {
    FirstRelatedIsFirst(m, path);
    if HasKey(m, path) {
      var j :| 0 <= j < |m| && m[j] == (path, Match(m, path).value);
      assert PrefixRelated(m[j].0, path);
    }
  }

  /** A planned path that normalised to the empty key matches every non-empty path. */
  lemma EmptyKeyMatchesAll(m: PlanMap, path: string, i: nat)
    requires i < |m| && m[i].0 == []
    requires path != []
    ensures Match(m, path).Some?
  {
    MatchNoneIff(m, path);
    assert PrefixRelated(m[i].0, path);
  }

  /** Matching is by characters, not path segments: the key "A/B" matches the path "A/BC". */
  lemma CharacterPrefixMatch(rec: PlanRecord)
    ensures Match([("A/B", rec)], "A/BC") == Some(rec)
  {
    var m := [("A/B", rec)];
    assert !HasKey(m, "A/BC");
    assert PrefixRelated("A/B", "A/BC");
  }
}

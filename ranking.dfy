/** The `sort`/`find` half of `mapAliasToAsset`'s ranking pipeline: a stable
    sort by descending score, then the first entry with a positive score. */
module Ranking {
  import opened Types

  /** One ranking entry: `key` is the alias key's position in the alias map
      (its identity), `score` its score in halves. */
  datatype Ranked = Ranked(key: nat, score: nat)

  predicate SortedDesc(s: seq<Ranked>) {
    forall i, j :: 0 <= i < j < |s| ==> s[i].score >= s[j].score
  }

  predicate KeysAscending(s: seq<Ranked>) {
    forall i, j :: 0 <= i < j < |s| ==> s[i].key < s[j].key
  }

  /** Entries of equal score keep the order of their keys. */
  predicate Stable(s: seq<Ranked>) {
    forall i, j :: 0 <= i < j < |s| && s[i].score == s[j].score ==> s[i].key < s[j].key
  }

  /** Puts `x` in front of the first entry of `t` that does not score higher. */
  function Insert(x: Ranked, t: seq<Ranked>): (r: seq<Ranked>)
    ensures multiset(r) == multiset(t) + multiset{x}
  {
    if t == [] || t[0].score <= x.score then [x] + t
    else
      assert t == [t[0]] + t[1..];
      [t[0]] + Insert(x, t[1..])
  }

  /** Insertion sort by descending score, as `sort((a, b) => b.score - a.score)`. */
  function SortDesc(s: seq<Ranked>): (r: seq<Ranked>)
    ensures multiset(r) == multiset(s)
    ensures SortedDesc(r)
  {
    if s == [] then []
    else
      var t := SortDesc(s[1..]);
      InsertSorted(s[0], t);
      assert s == [s[0]] + s[1..];
      Insert(s[0], t)
  }

  lemma {:induction false} InsertSorted(x: Ranked, t: seq<Ranked>)
    requires SortedDesc(t)
    ensures SortedDesc(Insert(x, t))
  {
    if t == [] || t[0].score <= x.score {
    } else {
      var r := Insert(x, t[1..]);
      InsertSorted(x, t[1..]);
      forall j | 0 <= j < |r| ensures t[0].score >= r[j].score {
        assert r[j] in multiset(r);
        if r[j] != x {
          assert r[j] in t[1..];
        }
      }
    }
  }

  lemma {:induction false} InsertStable(x: Ranked, t: seq<Ranked>)
    requires SortedDesc(t) && Stable(t)
    requires forall i :: 0 <= i < |t| ==> x.key < t[i].key
    ensures Stable(Insert(x, t))
  {
    if t == [] || t[0].score <= x.score {
    } else {
      var r := Insert(x, t[1..]);
      InsertStable(x, t[1..]);
      forall j | 0 <= j < |r| && t[0].score == r[j].score ensures t[0].key < r[j].key {
        assert r[j] in multiset(r);
        if r[j] != x {
          assert r[j] in t[1..];
        }
      }
    }
  }

  /** The sort is stable: entries handed over in ascending key order come out
      with equal scores still in ascending key order. */
  lemma {:induction false} SortDescStable(s: seq<Ranked>)
    requires KeysAscending(s)
    ensures Stable(SortDesc(s))
  {
    if s != [] {
      var t := SortDesc(s[1..]);
      SortDescStable(s[1..]);
      forall i | 0 <= i < |t| ensures s[0].key < t[i].key {
        assert t[i] in multiset(t);
        assert t[i] in s[1..];
      }
      InsertStable(s[0], t);
    }
  }

  /** The first entry with a positive score, as `find(entry => entry.score > 0)`. */
  function FindPositive(s: seq<Ranked>): (r: Option<Ranked>)
    ensures r.None? <==> forall i :: 0 <= i < |s| ==> s[i].score == 0
    ensures r.Some? ==> exists i :: 0 <= i < |s| && s[i] == r.value && r.value.score > 0 &&
                                   forall j :: 0 <= j < i ==> s[j].score == 0
  {
    if s == [] then None
    else if s[0].score > 0 then Some(s[0])
    else
      var r := FindPositive(s[1..]);
      assert r.Some? ==> exists i :: 0 <= i < |s[1..]| && s[1..][i] == r.value && r.value.score > 0 &&
                                   forall j :: 0 <= j < i ==> s[1..][j].score == 0;
      if r.Some? then
        var i :| 0 <= i < |s[1..]| && s[1..][i] == r.value && r.value.score > 0 &&
                 forall j :: 0 <= j < i ==> s[1..][j].score == 0;
        assert s[i + 1] == r.value;
        r
      else r
  }

  /** On a ranking sorted by descending score, the first positive entry, if
      any, is the head. */
  lemma SortedFindPositive(s: seq<Ranked>)
    requires SortedDesc(s) && |s| > 0
    ensures FindPositive(s) == if s[0].score > 0 then Some(s[0]) else None
  {
  }
}

/** `mapAliasToAsset`: score every key of the alias map, rank the keys by
    descending score with a stable sort, and return the asset of the first
    key with a positive score, or nothing. */
module Resolver {
  import opened Types
  import opened CaseFold
  import opened Scoring
  import opened Ranking

  /** The alias map in insertion order: each entry pairs a key with its asset. */
  type AliasMap = seq<(Alias, Asset)>

  function ScoreAt(aliasMap: AliasMap, q: Query, i: nat): nat
    requires i < |aliasMap|
  {
    Score(aliasMap[i].0, q)
  }

  /** The scores in map order, each tagged with its key's position. */
  function Rank(aliasMap: AliasMap, q: Query): (r: seq<Ranked>)
    ensures |r| == |aliasMap|
    ensures forall i :: 0 <= i < |r| ==> r[i] == Ranked(i, ScoreAt(aliasMap, q, i))
    ensures KeysAscending(r)
  {
    seq(|aliasMap|, i requires 0 <= i < |aliasMap| => Ranked(i, ScoreAt(aliasMap, q, i)))
  }

  lemma RankedKeyInRange(aliasMap: AliasMap, q: Query, e: Ranked)
    requires e in multiset(Rank(aliasMap, q))
    ensures e.key < |aliasMap| && e == Ranked(e.key, ScoreAt(aliasMap, q, e.key))
  {
    assert e in Rank(aliasMap, q);
  }

  /** The asset the registry resolves `alias` to, or `None` for `null`. */
  function MapAliasToAsset(aliasMap: AliasMap, alias: Query): (r: Option<Asset>)
    ensures r.Some? ==> exists i :: 0 <= i < |aliasMap| && aliasMap[i].1 == r.value
  {
    var ranking := SortDesc(Rank(aliasMap, alias));
    match FindPositive(ranking)
    case None => None
    case Some(best) =>
      RankedKeyInRange(aliasMap, alias, best);
      Some(aliasMap[best.key].1)
  }

  /** Position `k` holds the first key reaching the maximum score, and that
      maximum is positive. */
  predicate IsFirstBest(aliasMap: AliasMap, q: Query, k: nat) {
    k < |aliasMap| && ScoreAt(aliasMap, q, k) > 0 &&
    (forall j :: 0 <= j < |aliasMap| ==> ScoreAt(aliasMap, q, j) <= ScoreAt(aliasMap, q, k)) &&
    (forall j :: 0 <= j < k ==> ScoreAt(aliasMap, q, j) < ScoreAt(aliasMap, q, k))
  }

  /** At most one position is the first best. */
  lemma FirstBestUnique(aliasMap: AliasMap, q: Query, k: nat, k': nat)
    requires IsFirstBest(aliasMap, q, k) && IsFirstBest(aliasMap, q, k')
    ensures k == k'
  {
  }

  /** The head of the sorted ranking is the first key of maximal score. */
  lemma {:induction false} SortedHeadIsFirstMax(aliasMap: AliasMap, q: Query)
    requires |aliasMap| > 0
    ensures var head := SortDesc(Rank(aliasMap, q))[0];
      head.key < |aliasMap| && head.score == ScoreAt(aliasMap, q, head.key) &&
      (forall j :: 0 <= j < |aliasMap| ==> ScoreAt(aliasMap, q, j) <= head.score) &&
      (forall j :: 0 <= j < head.key ==> ScoreAt(aliasMap, q, j) < head.score)
  {
    var ranked := Rank(aliasMap, q);
    var sorted := SortDesc(ranked);
    SortDescStable(ranked);
    assert |sorted| == |ranked| by {
      assert |multiset(sorted)| == |multiset(ranked)|;
    }
    var head := sorted[0];
    assert head in multiset(sorted);
    RankedKeyInRange(aliasMap, q, head);
    forall j | 0 <= j < |aliasMap|
      ensures ScoreAt(aliasMap, q, j) <= head.score
      ensures j < head.key ==> ScoreAt(aliasMap, q, j) < head.score
    {
      assert ranked[j] in multiset(sorted);
      var pj :| 0 <= pj < |sorted| && sorted[pj] == ranked[j];
      if j != head.key {
        assert pj != 0;
      }
    }
  }

  /** "Stable sort descending, then the first positive score" returns
      nothing exactly when every score is zero (an empty map included). */
  lemma {:induction false} MapAliasToAssetNone(aliasMap: AliasMap, q: Query)
    ensures MapAliasToAsset(aliasMap, q).None? <==>
      forall i :: 0 <= i < |aliasMap| ==> ScoreAt(aliasMap, q, i) == 0
  {
    if |aliasMap| > 0 {
      var sorted := SortDesc(Rank(aliasMap, q));
      SortedHeadIsFirstMax(aliasMap, q);
      SortedFindPositive(sorted);
    }
  }

  /** Otherwise it returns the asset of the first key of maximal score. */
  lemma {:induction false} MapAliasToAssetSelectsFirstBest(aliasMap: AliasMap, q: Query)
    ensures MapAliasToAsset(aliasMap, q).Some? ==> exists k :: IsFirstBest(aliasMap, q, k)
    ensures forall k: nat :: IsFirstBest(aliasMap, q, k) ==> MapAliasToAsset(aliasMap, q) == Some(aliasMap[k].1)
  {
    if |aliasMap| > 0 {
      var sorted := SortDesc(Rank(aliasMap, q));
      SortedHeadIsFirstMax(aliasMap, q);
      SortedFindPositive(sorted);
      var head := sorted[0];
      if head.score > 0 {
        assert IsFirstBest(aliasMap, q, head.key);
        forall k: nat | IsFirstBest(aliasMap, q, k) ensures MapAliasToAsset(aliasMap, q) == Some(aliasMap[k].1) {
          FirstBestUnique(aliasMap, q, head.key, k);
        }
      }
    }
  }

  /** Resolution is case-insensitive in the query: two queries whose symbol,
      network and source agree after lower-casing resolve alike. */
  lemma {:induction false} MapAliasToAssetCaseInsensitive(aliasMap: AliasMap, q: Query, q': Query)
    requires LowerStr(q.symbol) == LowerStr(q'.symbol) && LowerOpt(q.network) == LowerOpt(q'.network)
    requires LowerOpt(q.source) == LowerOpt(q'.source)
    ensures MapAliasToAsset(aliasMap, q) == MapAliasToAsset(aliasMap, q')
  {
    forall i | 0 <= i < |aliasMap| ensures ScoreAt(aliasMap, q, i) == ScoreAt(aliasMap, q', i) {
      var a := aliasMap[i].0;
      ScoreCaseInsensitive(a, a, q, q');
    }
    assert Rank(aliasMap, q) == Rank(aliasMap, q');
  }
}

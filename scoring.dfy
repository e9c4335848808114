/** The per-key score of `mapAliasToAsset` (its inner `calculateScore`).
    Scores are counted in halves: 0, 1 and 2 stand for 0, 0.5 and 1. */
module Scoring {
  import opened Types
  import opened CaseFold

  /** The source-tagged branch applies: the query names a source and the
      alias lists that lower-cased source verbatim in its `usedBy`. */
  predicate SourceTagged(a: Alias, q: Query) {
    var source := LowerOpt(q.source);
    Truthy(source) && a.usedBy.Some? && source.value in a.usedBy.value
  }

  /** The network-qualified branch applies: no source tag, and the query
      gives a (non-empty) network. */
  predicate NetworkQualified(a: Alias, q: Query) {
    !SourceTagged(a, q) && Truthy(q.network)
  }

  /** Neither a source tag nor a network hint: the bare-symbol branch. */
  predicate BareSymbol(a: Alias, q: Query) {
    !SourceTagged(a, q) && !Truthy(q.network)
  }

  /** The score of alias key `a` for query `q`, in halves. */
  function Score(a: Alias, q: Query): (r: nat)
    ensures r <= 2
  {
    var qSymbol := LowerStr(q.symbol);
    var qNetwork := LowerOpt(q.network);
    var aSymbol := LowerStr(a.symbol);
    var aNetwork := LowerOpt(a.network);
    if SourceTagged(a, q) then
      if aSymbol == qSymbol && aNetwork == qNetwork then 2 else 0
    else if Truthy(q.network) then
      if aSymbol == qSymbol && Truthy(a.network) && aNetwork == qNetwork then 2 else 0
    else if Truthy(a.network) then
      var concat := aSymbol + aNetwork.value;
      if concat == qSymbol then 1
      else if "W" + concat == qSymbol then 1
      else if concat == "W" + qSymbol then 1
      else 0
    else
      if aSymbol == qSymbol then 2
      else if "W" + aSymbol == qSymbol then 1
      else if aSymbol == "W" + qSymbol then 1
      else 0
  }

  /** The symbol a networked alias is compared with in the bare-symbol
      branch: its lower-cased symbol and network joined with no separator. */
  function Concat(a: Alias): (r: string)
    requires a.network.Some?
    ensures IsLowerStr(r)
    ensures |r| == |a.symbol| + |a.network.value|
  {
    LowerConcat(LowerStr(a.symbol), LowerStr(a.network.value));
    LowerStr(a.symbol) + LowerStr(a.network.value)
  }

  /** None of the four 'W'-prefixed comparisons can succeed: each puts an
      upper-case 'W' in front of a string that has been lower-cased and
      compares it with another lower-cased string. */
  lemma {:induction false} WrapToggleInert(a: Alias, q: Query)
    ensures "W" + LowerStr(a.symbol) != LowerStr(q.symbol)
    ensures LowerStr(a.symbol) != "W" + LowerStr(q.symbol)
    ensures a.network.Some? ==> "W" + Concat(a) != LowerStr(q.symbol)
    ensures a.network.Some? ==> Concat(a) != "W" + LowerStr(q.symbol)
  {
    WPrefixNotLower(LowerStr(a.symbol), LowerStr(q.symbol));
    WPrefixNotLower(LowerStr(q.symbol), LowerStr(a.symbol));
    if a.network.Some? {
      WPrefixNotLower(Concat(a), LowerStr(q.symbol));
      WPrefixNotLower(LowerStr(q.symbol), Concat(a));
    }
  }

  /** Source-tagged branch: full score exactly when the lower-cased symbols
      and networks are equal (both networks absent counts as equal), and
      zero otherwise; the network and concatenation rules are never used. */
  lemma SourceTaggedScore(a: Alias, q: Query)
    requires SourceTagged(a, q)
    ensures Score(a, q) == 2 || Score(a, q) == 0
    ensures Score(a, q) == 2 <==>
      LowerStr(a.symbol) == LowerStr(q.symbol) && LowerOpt(a.network) == LowerOpt(q.network)
  {
  }

  /** Network-qualified branch: full score exactly when the alias has a
      network and both lower-cased symbol and network are equal. */
  lemma NetworkQualifiedScore(a: Alias, q: Query)
    requires NetworkQualified(a, q)
    ensures Score(a, q) == 2 || Score(a, q) == 0
    ensures Score(a, q) == 2 <==>
      Truthy(a.network) && LowerStr(a.symbol) == LowerStr(q.symbol) &&
      LowerOpt(a.network) == LowerOpt(q.network)
  {
  }

  /** Bare-symbol branch: a networked alias scores a half exactly when the
      query symbol equals symbol and network joined with no separator, and
      an un-networked alias scores one exactly on an equal symbol; nothing
      else scores. */
  lemma {:induction false} BareSymbolScore(a: Alias, q: Query)
    requires BareSymbol(a, q)
    ensures Truthy(a.network) ==> (Score(a, q) == if Concat(a) == LowerStr(q.symbol) then 1 else 0)
    ensures !Truthy(a.network) ==>
      (Score(a, q) == if LowerStr(a.symbol) == LowerStr(q.symbol) then 2 else 0)
  {
    WrapToggleInert(a, q);
  }

  /** A half score only arises from the bare-symbol branch on a networked
      alias; every score is one of 0, 0.5 and 1. */
  lemma {:induction false} HalfScoreOnlyBareNetworked(a: Alias, q: Query)
    ensures Score(a, q) in {0, 1, 2}
    ensures Score(a, q) == 1 ==> BareSymbol(a, q) && Truthy(a.network) && !Truthy(q.network)
  {
    WrapToggleInert(a, q);
  }

  /** Matching is case-insensitive: the score depends on the symbols, the
      networks and the query's source only through their lower-cased forms.
      (The alias's `usedBy` list is compared verbatim.) */
  lemma ScoreCaseInsensitive(a: Alias, a': Alias, q: Query, q': Query)
    requires LowerStr(a.symbol) == LowerStr(a'.symbol) && LowerOpt(a.network) == LowerOpt(a'.network)
    requires a.usedBy == a'.usedBy
    requires LowerStr(q.symbol) == LowerStr(q'.symbol) && LowerOpt(q.network) == LowerOpt(q'.network)
    requires LowerOpt(q.source) == LowerOpt(q'.source)
    ensures Score(a, q) == Score(a', q')
  {
  }
}

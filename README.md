# Alias resolution of the CAIP-19 asset registry, in Dafny

The registry resolves a loosely specified asset reference — a ticker symbol,
optionally with a network and with the name of the data source asking — to
one asset of its preset asset lists, or to `null` when nothing matches. This
project models the alias-resolution engine of `src/registry.ts`:

- **the alias map** (`updateAliasMap`): the map is thrown away and rebuilt
  from the asset list; each asset first files itself under a fresh
  `{symbol, network}` key, then under each entry of its `aliases` array in
  order. Because every key is a distinct object, the JavaScript `Map` is an
  insertion-ordered list of (key, asset) pairs, modelled as
  `seq<(Alias, Asset)>` (`Resolver.AliasMap`) and specified by
  `Registry.BuildAliasMap`. The map lives in `Registry.Context`, whose
  `UpdateAliasMap` method rebuilds it with the source's two nested loops, and
  whose `LoadAssetLists` appends already-parsed preset lists before rebuilding.
- **the score** (`calculateScore`, `Scoring.Score`): three exclusive branches —
  source-tagged (the key's `usedBy` lists the query's lower-cased source),
  network-qualified (the query gives a network) and bare-symbol (otherwise;
  a networked key is compared as symbol and network joined with no
  separator). Scores are counted in halves: 0, 1, 2 stand for 0, 0.5, 1.
  JavaScript truthiness of an optional string is `Types.Truthy` (present and
  non-empty), so an empty network or source behaves as if absent in the
  guards but is still compared with `===` where the source does.
- **the selection** (`mapAliasToAsset`, `Resolver.MapAliasToAsset`): every key
  is scored, the scores are stably sorted in descending order
  (`Ranking.SortDesc`, an insertion sort) and the asset of the first entry
  with a positive score is returned (`Ranking.FindPositive`). A ranking
  entry's `key` is the key's position in the map, standing in for the key
  object's identity.

What is proved: every score is 0, 0.5 or 1, and 0.5 only comes from the
bare-symbol branch on a networked key; the exact outcome of each branch;
the four `'W'`-prefixed comparisons can never succeed, because each compares
an upper-case `'W'` with strings that were already lower-cased, so the
wrapped-asset toggle they seem to implement is inert; matching ignores the
case of the symbols, the networks and the query's source, while a key's
`usedBy` entries are compared verbatim with the lower-cased source (so an
entry `CoinGecko` is never matched); the sort is a stable, sorted permutation; sort-then-find
returns the asset of the first key reaching the maximum score when that
maximum is positive, and `null` exactly when every score is zero (an empty
map included); the rebuilt map holds, for each asset in list order, its
primary entry followed by its aliases, so no asset's primary entry is lost,
and every value in it is an element of the asset list.

There is no confidence threshold beyond a positive score: any score above 0
is accepted (src/registry.ts:82).

Lower-casing is ASCII case folding (`CaseFold.LowerStr`).

## Model

| member | source | states |
|---|---|---|
| CaseFold.LowerStr | src/registry.ts:39-45 | lower-casing keeps the length, folds each character, and leaves no upper-case letter |
| Scoring.Score | src/registry.ts:43-76 | a key's score never exceeds 1 (two halves) |
| Scoring.HalfScoreOnlyBareNetworked | src/registry.ts:47-75 | every score is 0, 0.5 or 1, and 0.5 only when no source tag applies, the query has no network and the key has one |
| Scoring.SourceTaggedScore | src/registry.ts:49-51 | with the query's lower-cased source in the key's `usedBy`, the score is 1 exactly when lower-cased symbols and networks are equal (both absent included), else 0 |
| Scoring.NetworkQualifiedScore | src/registry.ts:52-54 | with a network hint and no source tag, the score is 1 exactly when the key has a network and symbol and network agree after lower-casing, else 0 |
| Scoring.BareSymbolScore | src/registry.ts:55-72 | without hints, a networked key scores 0.5 exactly when the query symbol is symbol+network with no separator, an un-networked key scores 1 exactly on an equal symbol, and nothing else scores |
| Scoring.WrapToggleInert | src/registry.ts:61-71 | none of the four 'W'-prefixed comparisons can hold, since both sides are lower-cased |
| Scoring.ScoreCaseInsensitive | src/registry.ts:39-45 | the score is the same for any symbols, networks and sources that agree after lower-casing |
| Ranking.Insert | src/registry.ts:80 | inserting an entry into the ranking adds exactly that entry |
| Ranking.SortDesc | src/registry.ts:80 | the ranking is a permutation of the scored keys, sorted by descending score |
| Ranking.SortDescStable | src/registry.ts:80 | entries of equal score keep map order |
| Ranking.FindPositive | src/registry.ts:82 | returns an entry with positive score that no earlier positive entry precedes, and nothing exactly when every score is zero |
| Ranking.SortedFindPositive | src/registry.ts:80-82 | on a descending ranking the first positive entry is the head, if the head is positive |
| Resolver.MapAliasToAsset | src/registry.ts:35-84 | a returned asset is a value stored in the alias map |
| Resolver.SortedHeadIsFirstMax | src/registry.ts:78-80 | the head of the sorted ranking is the first key of maximal score |
| Resolver.MapAliasToAssetNone | src/registry.ts:78-83 | `null` is returned exactly when every key scores 0, including an empty map |
| Resolver.MapAliasToAssetSelectsFirstBest | src/registry.ts:78-83 | a match is the asset of the first key, in insertion order, reaching the maximum score, and that maximum is positive |
| Resolver.MapAliasToAssetCaseInsensitive | src/registry.ts:39-41 | queries whose symbol, network and source agree after lower-casing resolve to the same result |
| Registry.AssetEntries | src/registry.ts:89-97 | an asset contributes its primary entry, then each alias in order, all pointing to it; exactly one entry when `aliases` is not an array |
| Registry.BuildAliasMapPrefix | src/registry.ts:89-98 | the map built from the first assets is a prefix of the whole map: later assets only append |
| Registry.AssetEntriesAt | src/registry.ts:89-97 | asset i's primary entry and its aliases sit, in order, at asset i's offset of the rebuilt map, so no other asset's entry replaces them |
| Registry.OffsetStep | src/registry.ts:89-98 | asset i's entries end where asset i+1's begin, and the last asset's end the map |
| Registry.AliasMapValuesListed | src/registry.ts:89-96 | every value stored in the alias map is an element of the asset list |
| Registry.ResolvedAssetListed | src/registry.ts:83-96 | whatever is resolved from a rebuilt map is an element of the asset list |
| CaseFold.LowerOpt | src/registry.ts:40-45 | an optional string stays absent when absent, and is lower-cased when present |
| Scoring.Concat | src/registry.ts:57 | the string a networked key is compared with is lower-case and exactly as long as its symbol and network together |
| Resolver.Rank | src/registry.ts:78-79 | one ranking entry per key, in map order, carrying that key's score and its position as identity; positions ascend |
| Registry.PrimaryKey | src/registry.ts:90 | the primary key carries the asset's symbol and network and no `usedBy` |
| Registry.BuildAliasMap | src/registry.ts:86-98 | the rebuilt map has at least one entry per asset, and is empty exactly when the asset list is |
| Registry.PresetAssets | src/registry.ts:15-28 | every asset appended comes from the `asset` array of some readable preset |
| Registry.Context.ResolvedIsListed | src/registry.ts:83-98 | in a context whose map was rebuilt from its list, a resolved asset is an element of the list |
| Registry.Context.UpdateAliasMap | src/registry.ts:86-98 | discards the old map and leaves exactly the map built from the current asset list |
| Registry.Context.LoadAssetLists | src/registry.ts:15-30 | appends the assets of every readable preset in order, skipping corrupt ones, never removing or deduplicating, then rebuilds the map |

## Left out

- Reading the preset directory and files, TOML parsing and logging in `loadAssetLists`: the parsed presets are a parameter (`Registry.Preset`), a failed read or parse is `Corrupt`.
- Registry.Context.LoadAssetLists: a non-array `asset` value that still has a `length` (a string, say) would be spread into the list character by character; the model only takes arrays.
- `toLocaleLowerCase`/`toLowerCase` outside ASCII: the model folds only `A`–`Z`.
- `Map.set` on a key already present: never happens here, since every primary key is a fresh object and each alias object occurs once in the parsed presets; the model appends.
- The JavaScript engine's own sort algorithm: replaced by a stable insertion sort, which gives the same order because `Array.prototype.sort` is stable.
- Floating-point scores: represented as whole halves.
- A key's `usedBy` is taken as an array of strings, as `Caip19Alias` declares; the parsed presets are not checked at run time, and a string `usedBy` would turn the source test into a substring match, `null` would leave the key untagged, and any other non-array would throw.
- A key without a `symbol` would make the source throw; every key of the model has a symbol.
- `src/db.ts` (SQLite persistence) and `src/cli.ts` (process start-up) are not part of this model.

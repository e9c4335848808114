/** The registry context: the asset list loaded from the preset files and the
    alias map derived from it (`updateAliasMap`, and the in-memory part of
    `loadAssetLists`). */
module Registry {
  import opened Types
  import opened Resolver

  /** The key an asset is filed under first: a fresh `{symbol, network}`
      record with no `usedBy`. */
  function PrimaryKey(asset: Asset): (k: Alias)
    ensures k.symbol == asset.symbol && k.network == asset.network && k.usedBy.None?
  {
    Alias(asset.symbol, asset.network, None)
  }

  /** The entries one asset adds: its primary key, then each of its aliases
      in order, all pointing to the asset; only the primary key when
      `aliases` is not an array. */
  function AssetEntries(asset: Asset): (r: AliasMap)
    ensures |r| == 1 + (if asset.aliases.Some? then |asset.aliases.value| else 0)
    ensures r[0] == (PrimaryKey(asset), asset)
    ensures asset.aliases.Some? ==>
      forall j :: 0 <= j < |asset.aliases.value| ==> r[1 + j] == (asset.aliases.value[j], asset)
  {
    [(PrimaryKey(asset), asset)] +
      match asset.aliases
      case None => []
      case Some(aliases) => seq(|aliases|, j requires 0 <= j < |aliases| => (aliases[j], asset))
  }

  /** The alias map built from an asset list: each asset's entries, in list order. */
  function BuildAliasMap(assetList: seq<Asset>): (r: AliasMap)
    ensures |r| >= |assetList|
    ensures r == [] <==> assetList == []
  {
    if assetList == [] then []
    else BuildAliasMap(assetList[..|assetList| - 1]) + AssetEntries(assetList[|assetList| - 1])
  }

  /** Where asset `i`'s entries begin: after the entries of the assets before it. */
  function Offset(assetList: seq<Asset>, i: nat): nat
    requires i <= |assetList|
  {
    |BuildAliasMap(assetList[..i])|
  }

  /** The map built from a prefix of the list is a prefix of the whole map. */
  lemma {:induction false} BuildAliasMapPrefix(assetList: seq<Asset>, n: nat)
    requires n <= |assetList|
    ensures |BuildAliasMap(assetList[..n])| <= |BuildAliasMap(assetList)|
    ensures BuildAliasMap(assetList)[..|BuildAliasMap(assetList[..n])|] == BuildAliasMap(assetList[..n])
  {
    if n < |assetList| {
      var init := assetList[..|assetList| - 1];
      assert init[..n] == assetList[..n];
      BuildAliasMapPrefix(init, n);
    } else {
      assert assetList[..n] == assetList;
    }
  }

  /** Every value stored in the alias map is an element of the asset list. */
  lemma {:induction false} AliasMapValuesListed(assetList: seq<Asset>)
    ensures forall e :: e in BuildAliasMap(assetList) ==> e.1 in assetList
  {
    if assetList != [] {
      var init := assetList[..|assetList| - 1];
      AliasMapValuesListed(init);
      forall e | e in BuildAliasMap(assetList) ensures e.1 in assetList {
        if e in BuildAliasMap(init) {
          var i :| 0 <= i < |init| && init[i] == e.1;
          assert assetList[i] == e.1;
        }
      }
    }
  }

  /** Asset `i`'s primary entry sits at its offset and its aliases follow it
      in order, all pointing to asset `i`: no other asset's entry takes
      their place. */
  lemma {:induction false} AssetEntriesAt(assetList: seq<Asset>, i: nat)
    requires i < |assetList|
    ensures Offset(assetList, i) + |AssetEntries(assetList[i])| <= |BuildAliasMap(assetList)|
    ensures BuildAliasMap(assetList)[Offset(assetList, i)] == (PrimaryKey(assetList[i]), assetList[i])
    ensures BuildAliasMap(assetList)[Offset(assetList, i)..Offset(assetList, i) + |AssetEntries(assetList[i])|]
            == AssetEntries(assetList[i])
  {
    BuildAliasMapStep(assetList, i);
    BuildAliasMapPrefix(assetList, i + 1);
    var whole := BuildAliasMap(assetList);
    var prefix := BuildAliasMap(assetList[..i + 1]);
    var before := BuildAliasMap(assetList[..i]);
    var mine := AssetEntries(assetList[i]);
    assert prefix == before + mine;
    assert whole[..|prefix|] == prefix;
    assert whole[|before|..|before| + |mine|] == prefix[|before|..];
  }

  /** Extending the list by one asset appends that asset's entries. */
  lemma BuildAliasMapStep(assetList: seq<Asset>, i: nat)
    requires i < |assetList|
    ensures BuildAliasMap(assetList[..i + 1]) == BuildAliasMap(assetList[..i]) + AssetEntries(assetList[i])
  {
    var upTo := assetList[..i + 1];
    assert upTo[..|upTo| - 1] == assetList[..i];
  }

  /** The offsets grow with the list: asset `i`'s entries end where asset
      `i + 1`'s begin, and the last asset's entries end the map. */
  lemma {:induction false} OffsetStep(assetList: seq<Asset>, i: nat)
    requires i < |assetList|
    ensures Offset(assetList, i + 1) == Offset(assetList, i) + |AssetEntries(assetList[i])|
    ensures Offset(assetList, |assetList|) == |BuildAliasMap(assetList)|
  {
    BuildAliasMapStep(assetList, i);
    assert assetList[..|assetList|] == assetList;
  }

  /** One parsed preset file: `Corrupt` when reading or parsing it failed,
      otherwise its `asset` array, which may be absent. */
  datatype Preset = Corrupt | Parsed(asset: Option<seq<Asset>>)

  /** A readable preset file whose `asset` array lists `a`. */
  predicate Contributes(p: Preset, a: Asset) {
    p.Parsed? && p.asset.Some? && a in p.asset.value
  }

  /** The assets a sequence of preset files contributes, in file order. */
  function PresetAssets(presets: seq<Preset>): (r: seq<Asset>)
    ensures forall k :: 0 <= k < |r| ==> exists i :: 0 <= i < |presets| && Contributes(presets[i], r[k])
  {
    if presets == [] then []
    else
      var last := presets[|presets| - 1];
      PresetAssets(presets[..|presets| - 1]) +
        (if last.Parsed? && last.asset.Some? then last.asset.value else [])
  }

  /** The shared registry context. */
  class Context {
    var assetList: seq<Asset>
    var aliasMap: AliasMap

    /** The alias map reflects the current asset list. */
    ghost predicate Valid()
      reads this
    {
      aliasMap == BuildAliasMap(assetList)
    }

    /** Discards the alias map and rebuilds it from the asset list. */
    method UpdateAliasMap()
      modifies this`aliasMap
      ensures aliasMap == BuildAliasMap(assetList)
      ensures Valid()
    {
      aliasMap := [];
      for n := 0 to |assetList|
        invariant aliasMap == BuildAliasMap(assetList[..n])
      {
        var asset := assetList[n];
        BuildAliasMapStep(assetList, n);
        ghost var entries := AssetEntries(asset);
        aliasMap := aliasMap + [(PrimaryKey(asset), asset)];
        if asset.aliases.Some? {
          var aliases := asset.aliases.value;
          for j := 0 to |aliases|
            invariant aliasMap == BuildAliasMap(assetList[..n]) + entries[..1 + j]
          {
            assert entries[..1 + j + 1] == entries[..1 + j] + [(aliases[j], asset)];
            aliasMap := aliasMap + [(aliases[j], asset)];
          }
          assert entries[..1 + |aliases|] == entries;
        } else {
          assert entries == [(PrimaryKey(asset), asset)];
        }
      }
      assert assetList[..|assetList|] == assetList;
    }

    /** Appends the assets of each parsed preset file, skipping corrupt
        files and files without assets, then rebuilds the alias map. Nothing
        already listed is removed or deduplicated. */
    method LoadAssetLists(presets: seq<Preset>)
      modifies this
      ensures assetList == old(assetList) + PresetAssets(presets)
      ensures Valid()
    {
      for i := 0 to |presets|
        invariant assetList == old(assetList) + PresetAssets(presets[..i])
      {
        assert presets[..i + 1][..i] == presets[..i];
        var preset := presets[i];
        if preset.Parsed? && preset.asset.Some? && |preset.asset.value| > 0 {
          assetList := assetList + preset.asset.value;
        }
      }
      assert presets[..|presets|] == presets;
      UpdateAliasMap();
    }

    /** In a context whose map reflects its list, whatever a query resolves
        to is an asset of the list. */
    lemma ResolvedIsListed(q: Query)
      requires Valid()
      ensures MapAliasToAsset(aliasMap, q).Some? ==> MapAliasToAsset(aliasMap, q).value in assetList
    {
      ResolvedAssetListed(assetList, q);
    }
  }

  /** Whatever the registry resolves a query to is an asset of its list. */
  lemma ResolvedAssetListed(assetList: seq<Asset>, q: Query)
    ensures MapAliasToAsset(BuildAliasMap(assetList), q).Some? ==>
      MapAliasToAsset(BuildAliasMap(assetList), q).value in assetList
  {
    AliasMapValuesListed(assetList);
  }
}

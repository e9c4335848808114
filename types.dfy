/** The records the alias engine reads: assets from the preset lists, the
    alias keys of the alias map, and the caller's query. */
module Types {

  /** A field that may be absent (`undefined` in the source). */
  datatype Option<+T> = None | Some(value: T)

  /** JavaScript truthiness of an optional string field: present and non-empty. */
  predicate Truthy(o: Option<string>) {
    o.Some? && o.value != ""
  }

  /** An alias key: a symbol, an optional network, and optionally the list of
      data sources (`usedBy`) known to label the asset this way. */
  datatype Alias = Alias(symbol: string, network: Option<string>, usedBy: Option<seq<string>>)

  /** An asset of a preset list. `aliases` is `None` when the record's
      `aliases` field is absent or not an array. Other fields of the record
      are carried through unchanged and are not modelled. */
  datatype Asset = Asset(id: string, symbol: string, network: Option<string>, aliases: Option<seq<Alias>>)

  /** The loosely specified reference a caller wants resolved. */
  datatype Query = Query(symbol: string, network: Option<string>, source: Option<string>)
}

/**
  The plugin's settings record and how it is assembled at start-up: the persisted document is
  copied key by key over the built-in defaults (`Object.assign({}, DEFAULT_SETTINGS, data)`).
 */
module Plugin {
  import opened Options

  /** One entry of the stored symbol list; `None` is a hole in the array or a JSON `null`. */
  type Slot = Option<string>

  /** The symbol universe the price service reported, kept as the object it sent. */
  datatype AvailableSymbols = AvailableSymbols(symbols: seq<string>)

  datatype CryptoSettings = CryptoSettings(
    apiKey: string,
    symbols: seq<Slot>,
    refreshInterval: int,      // seconds
    availableSymbols: AvailableSymbols
  )

  const DefaultSettings := CryptoSettings("", [], 60 * 60, AvailableSymbols([]))

  /**
    The persisted settings document as the host hands it back: each top-level key may be
    missing. The host returns no document at all (`null`) before the first save.
   */
  datatype StoredData = StoredData(
    apiKey: Option<string>,
    symbols: Option<seq<Slot>>,
    refreshInterval: Option<int>,
    availableSymbols: Option<AvailableSymbols>
  )

  const NothingStored := StoredData(None, None, None, None)

  /**
    `Object.assign(target, source)` restricted to the settings keys: every key present in the
    source replaces the target's value wholesale (a shallow copy); every absent key keeps it.
    A `null` source copies nothing.
   */
  function Assign(target: CryptoSettings, source: Option<StoredData>): (r: CryptoSettings)
    ensures source.None? ==> r == target
    ensures source.Some? && source.value.apiKey.Some? ==> r.apiKey == source.value.apiKey.value
    ensures source.Some? && source.value.apiKey.None? ==> r.apiKey == target.apiKey
    ensures source.Some? && source.value.symbols.Some? ==> r.symbols == source.value.symbols.value
    ensures source.Some? && source.value.symbols.None? ==> r.symbols == target.symbols
    ensures source.Some? && source.value.refreshInterval.Some? ==>
              r.refreshInterval == source.value.refreshInterval.value
    ensures source.Some? && source.value.refreshInterval.None? ==>
              r.refreshInterval == target.refreshInterval
    ensures source.Some? && source.value.availableSymbols.Some? ==>
              r.availableSymbols == source.value.availableSymbols.value
    ensures source.Some? && source.value.availableSymbols.None? ==>
              r.availableSymbols == target.availableSymbols
  {
    match source
    case None => target
    case Some(d) =>
      CryptoSettings(
        d.apiKey.GetOr(target.apiKey),
        d.symbols.GetOr(target.symbols),
        d.refreshInterval.GetOr(target.refreshInterval),
        d.availableSymbols.GetOr(target.availableSymbols))
  }

  /** The settings the plugin starts with: the persisted keys over the defaults. */
  function LoadSettings(stored: Option<StoredData>): (r: CryptoSettings)
    ensures stored.None? ==> r == DefaultSettings
    ensures stored.Some? && stored.value.refreshInterval.None? ==> r.refreshInterval == 3600
    ensures stored.Some? && stored.value.symbols.None? ==> r.symbols == []
  {
    Assign(DefaultSettings, stored)
  }

  /** The document `saveData(settings)` writes: every key present. */
  function Persist(s: CryptoSettings): (d: StoredData)
    ensures d.apiKey.Some? && d.symbols.Some? && d.refreshInterval.Some? && d.availableSymbols.Some?
  {
    StoredData(Some(s.apiKey), Some(s.symbols), Some(s.refreshInterval), Some(s.availableSymbols))
  }

  /** What was saved is what is loaded next time: every key of a saved document overrides its default. */
  lemma LoadAfterSave(s: CryptoSettings)
    ensures LoadSettings(Some(Persist(s))) == s
  {
  }

  /** A missing document and an empty one both load as the defaults. */
  lemma LoadWithoutData()
    ensures LoadSettings(None) == DefaultSettings
    ensures LoadSettings(Some(NothingStored)) == DefaultSettings
  {
  }
}

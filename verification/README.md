# Crypto price panel: a Dafny model of its settings and refresh logic

The Crypto plugin adds a side panel to the Obsidian note-taking app. The panel shows current
prices for up to five cryptocurrency ticker symbols, fetched from the api-ninjas price service.
A settings screen holds the API key, the refresh interval in minutes, and one input box per
symbol. Each symbol is checked against the universe of symbols the service reports.

This project models the logic inside that glue as pure functions over immutable datatypes:

- `Plugin`: the settings record, its defaults, and the start-up load. The load copies the
  persisted document over the defaults key by key (`Object.assign`).
- `SettingTab`: classifying a typed symbol as empty, valid or invalid, and saving it into its
  slot. Also the redisplay of the five boxes, which re-validates every slot, and the parse of
  the refresh-interval box.
- `View`: the fetch loop, which is all-or-nothing and strictly sequential. Also the filter of
  fetched quotes by the configured symbols, and the five-minute staleness guard in
  `displayCryptoData`.
- `JsString`, `JsNumber`, `JsArray`: the JavaScript builtins these use. These are `trim`,
  `toLowerCase`, `parseInt(_, 10)`, `String(n)`, index assignment and `splice(i, 1)`.
- `Options`: `Option`, used for `undefined`, JSON `null` and array holes.

Modelling choices:

- **Symbol list.** `settings.symbols` is a `seq<Option<string>>`. `None` is an array hole or
  a JSON `null`. `symbols[index] = symbol` with `index` past the end creates holes in
  JavaScript, and the settings screen does call it with any box index 0-4 whatever the list
  length. So `SaveSymbol` has no precondition on `index`; writing past the end pads with
  `None` (`JsArray.SetAt`).
- **Network.** The price service is a parameter `net: (nat, Slot) -> Reply`. `net(k, s)` is
  the outcome of the `k`-th request of a fetch, which asks for `s`: either `Failed`, or
  `Answered` with the body's `price` member and the clock reading taken on arrival. That
  reading is the quote's `timestamp`, which the source takes with `Date.now()`.
- **Time.** `now` (the call to `displayCryptoData`) and `doneAt` (the completion of its
  fetch) are parameters.
- **Settings during a fetch.** The filter after a fetch reads the settings again, so the
  symbols at the start of a fetch and at its completion are separate parameters of
  `View.Display`. The fetch loop itself reads one fixed list (see "## Left out").

What the code does in the cases that are easy to get wrong:

- When a fetch fails, the panel is emptied (main.ts:229) and the completion time is still
  recorded as the last fetch (main.ts:265).
- Clearing a box splices the list (main.ts:524), so later symbols move one slot to the left.
- The "Refresh" command goes through `displayCryptoData` (main.ts:135-137), so it is subject to
  the five-minute guard like every other display.
- A hole or `null` in the symbol list is requested as a symbol (main.ts:190), passes the filter
  whenever the list still has a hole (main.ts:224), and makes the render throw when it reads
  the symbol's upper-case form (main.ts:279). The `catch` (main.ts:267-269) swallows the error
  before the last-fetch update (main.ts:265), so the panel keeps the quotes drawn before that
  one, and the next display fetches again.
- The symbol universe is kept as the object the service returned, `{ symbols: [...] }`.

## Model

| member | source | states |
|---|---|---|
| Plugin.Assign | main.ts:49-53 | Every key present in the persisted document replaces the target's value wholesale (shallow); every absent key keeps the target's value; a missing document changes nothing |
| Plugin.LoadSettings | main.ts:32-39 | With no document the settings are the defaults; a missing interval falls back to 3600 seconds and missing symbols to the empty list |
| Plugin.Persist | main.ts:131-133 | The document `saveData` writes holds every key of the settings |
| Plugin.LoadAfterSave | main.ts:131-133 | Loading the document `saveData` wrote gives back exactly the saved settings |
| Plugin.LoadWithoutData | main.ts:49-53 | A null document and a document with no keys both load as the defaults |
| JsString.Trim | main.ts:509 | The trimmed text is empty exactly when the input is all white space; otherwise it neither starts nor ends with white space |
| JsString.TrimIgnoresPadding | main.ts:509 | White space of any length around the input does not change its trim |
| JsString.TrimToLowerCommute | main.ts:509 | Trimming then lower-casing equals lower-casing then trimming |
| JsString.TrimIdempotent | main.ts:509 | Trimming twice is trimming once |
| JsString.ToLower | main.ts:509-513 | Same length; every ASCII capital is replaced by its lower-case letter (code + 32) and every other character is kept; no ASCII capital remains |
| JsString.ToLowerIdempotent | main.ts:509-513 | Lower-casing twice is lower-casing once |
| JsNumber.NatToString | main.ts:397 | The decimal text of a number is non-empty, all digits, and has no leading zero unless the number is 0 |
| JsNumber.ParseInt | main.ts:400 | All-white-space text is NaN; text starting with a digit parses to a non-negative number |
| JsNumber.ParseIntOfText | main.ts:400 | White space, an optional `+` or `-`, a digit run and then anything but a digit reads as the digit run's value, negated after `-` |
| JsNumber.ParseIntOfNoDigits | main.ts:400 | White space, an optional sign and then no digit reads as NaN |
| JsNumber.ParseIntNaNExamples | main.ts:400-401 | "abc", "-" and "+x" read as NaN |
| JsNumber.ParseIntSignExample | main.ts:400 | "-42px" reads as -42 |
| JsNumber.ParseIntPlusExample | main.ts:400 | "+5" reads as 5 |
| JsNumber.ParseIntPaddingExample | main.ts:400 | " 007" reads as 7 |
| JsNumber.IntToString | main.ts:397 | `String(n)` of an integral number: a `-` exactly for negatives, followed by decimal digits without a leading zero (except for 0 itself) |
| JsNumber.ParseIntToString | main.ts:397-400 | `parseInt` reads back the number `String` printed, whatever non-digit text follows it |
| JsNumber.ParseIntOfTrim | main.ts:400 | `parseInt` of the trimmed text equals `parseInt` of the raw text |
| JsArray.SetAt | main.ts:518 | After `a[i] = v`, slot `i` holds `v` and every other slot holds what it held before (a hole past the old end); the length becomes `max(len, i + 1)` |
| JsArray.Splice | main.ts:523-525 | `splice(i, 1)` inside the array removes element `i` and shifts every later one left by one; at or past the end it changes nothing |
| JsArray.SetAtTwice | main.ts:518 | Writing the same value into the same slot twice equals writing it once |
| JsArray.SpliceUndoesInsert | main.ts:524 | Splicing out an element just inserted at the same index gives back the original array |
| JsArray.SpliceRemovesOne | main.ts:524 | Splicing removes exactly one occurrence of the element at the index; the multiset of the rest is unchanged |
| SettingTab.Normalize | main.ts:509 | The normalised input is no longer than the input, empty exactly when the input is all white space, free of ASCII capitals, and neither starts nor ends with white space |
| SettingTab.Lowered | main.ts:512-513 | The lower-cased universe has one entry per universe entry, each lower-cased |
| SettingTab.Classify | main.ts:509-515 | An input is empty exactly when it is all white space (no membership check); otherwise it is valid exactly when some universe entry, lower-cased, equals the trimmed lower-cased input |
| SettingTab.SaveSymbol | main.ts:507-526 | Valid: slot `index` holds the normalised input, all other slots unchanged. Invalid: settings unchanged. Empty: slot `index` removed with later slots shifted left, or nothing if past the end. Other settings fields never change |
| SettingTab.InputValue | main.ts:470 | A box shows the stored symbol of its slot, or the empty string for a hole or a slot past the end |
| SettingTab.ShowSymbolInputs | main.ts:446-478 | Re-validating the five boxes in order never lengthens the list, and leaves a list of at most five valid normalised symbols unchanged |
| SettingTab.StoredSymbolRevalidates | main.ts:470-477 | Re-validating a slot that holds a valid normalised symbol changes nothing |
| SettingTab.NormalizeIdempotent | main.ts:509 | Normalising (trim, lower-case) twice is normalising once |
| SettingTab.NormalizedValidStaysValid | main.ts:509-518 | The stored form of a valid input is itself valid and normalises to itself |
| SettingTab.ClassifyIgnoresInputCase | main.ts:509 | Lower-casing the input does not change its classification |
| SettingTab.ClassifyIgnoresUniverseCase | main.ts:512-514 | Lower-casing the universe entries does not change any classification |
| SettingTab.ClassifyIgnoresPadding | main.ts:509 | Surrounding white space does not change an input's classification |
| SettingTab.SaveSymbolKeepsSlotBound | main.ts:451-477 | Saving through one of the five boxes keeps a list of at most five slots within five |
| SettingTab.ApplyIntervalInput | main.ts:399-406 | A parsed number of minutes `m` sets the interval to `60 * m` seconds; NaN leaves the settings unchanged; nothing but the interval ever changes |
| SettingTab.IntervalInputSetsMinutes | main.ts:400-403 | Typing the decimal text of `m`, possibly followed by non-digit text, sets the interval to `60 * m` |
| SettingTab.IntervalFieldRoundTrip | main.ts:396-403 | Saving back the text the box shows, `String(refreshInterval / 60)`, changes nothing when the interval is whole minutes |
| SettingTab.ValidateExample | main.ts:507-522 | With universe `["BTC"]`: "btc" is stored in box 0, and "xrp" in box 1 changes nothing |
| SettingTab.ClearBoxExample | main.ts:507-526 | A blank box 0 removes slot 0, so the symbol of slot 1 moves into slot 0 |
| View.Quote | main.ts:197-201 | A quote carries the requested symbol, the arrival time as its timestamp, and a never-empty price: the body's price when present and non-empty |
| View.PriceText | main.ts:199 | A present, non-empty price is shown as is; a missing or empty one becomes "N/A" |
| View.FetchFrom | main.ts:188-206 | From position `from`, either every request is answered and one quote per symbol is returned in order, or the first failure stops the loop with no data and no later request |
| View.FetchCryptoData | main.ts:182-211 | The result is present exactly when every request is answered. It then has one quote per configured symbol in order, with the configured symbol and the price text. An empty list issues no request. On a failure the result is undefined and no request follows the failed one |
| View.IsStale | main.ts:214-217 | A fetch is due exactly when at least 300001 ms, strictly more than five minutes, have passed since the last one |
| View.KeepConfigured | main.ts:222-225 | The filter keeps exactly the quotes whose symbol is configured; it is empty exactly when none is |
| View.KeepConfiguredKeepsAll | main.ts:222-225 | When every quote's symbol is configured, the filter returns the list unchanged |
| View.KeepConfiguredAppend | main.ts:223-225 | The filter distributes over concatenation, so it keeps the order of what it keeps |
| View.Render | main.ts:256-279 | The panel shows a prefix of the filtered quotes, each with a symbol. Without a symbol-less quote it shows them all and the last-fetch time becomes the completion time. With one, it stops right before the first such quote and the last-fetch time stays |
| View.Display | main.ts:213-271 | Within five minutes of the last fetch nothing changes. Otherwise the panel shows quotes exactly when the fetch succeeded, symbols are configured and some quote is still configured. A failed fetch or an empty filtered list blanks the panel and sets the last-fetch time to the completion time. A shown panel is the render of the whole filtered list: all of it when every kept quote has a symbol |
| View.DisplayShowsEverySymbol | main.ts:219-265 | If the settings did not change, every slot holds a symbol and every request was answered, the panel shows one quote per configured symbol, in order, and the last-fetch time becomes the completion time |
| View.DisplayStopsAtFirstHole | main.ts:188-279 | With a hole at slot `j` and none before it, all requests answered: the panel shows the quotes of slots `0..j-1` and the last-fetch time does not move |
| View.NoRefetchWithinFiveMinutes | main.ts:214-265 | After a fetch completes with a list free of holes, a display within five minutes of its completion changes nothing |
| View.FailedFetchExample | main.ts:207-229 | For btc answered and eth failing: two requests, no data, and the panel is blanked |

## Left out

- Timers: the `setInterval` refresh loop, its teardown, and the layout-ready polling
  (main.ts:76-90, 117-119, 139-142, 159-162). These are timer-driven host scheduling. The
  `lastFetch` update inside the refresh tick (main.ts:141) is left out with them, and so are
  overlapping fetches when a tick fires during a fetch.
- Networking: `requestUrl`, the URLs and the `X-Api-Key` header are foreign I/O. The price
  service is the `net` oracle, for one fixed API key.
- `fetchSymbols` (main.ts:481-505), the universe fetch, is network I/O. The universe is an
  input of the model.
- Views, DOM and UI: the elements `createCryptoInfo` builds (only its throw on a quote without
  a symbol is modelled), the settings-screen layout, `setSymbolInputValidity`
  icons, and the donation banner with its random hue. These are presentation only.
- Host calls: `Notice`, `console`, `moment` formatting, `Date.now`, `saveData`/`loadData`,
  and the panel lifecycle (`registerView`, `initView`, `onOpen`, `onClose`).
- The API-key box (main.ts:379-387) trims and stores the key and then calls host operations.
  It is not modelled.
- JsString.ToLower: folds only ASCII `A`-`Z`, because `toLowerCase` applies full Unicode case
  mapping. Symbols with other letters compare as-is.
- JsNumber.ParseInt: numbers are unbounded integers, so digit strings beyond the 2^53
  precision of JavaScript numbers, and `-0`, are not distinguished. Its own contract gives only
  the shape; the values are stated by JsNumber.ParseIntOfText and JsNumber.ParseIntOfNoDigits.
- JsNumber.IntToString: prints every integer in plain decimal. `String(x)` prints exponent form
  from 1e21 on ("1e+21", which `parseInt` reads as 1), so for intervals of 1e21 minutes or more
  SettingTab.IntervalFieldRoundTrip holds in the model but not in the source.
- View.FetchCryptoData: takes the symbol list as a snapshot at the start of the fetch. The
  source's `for ... of` reads the live `settings.symbols` array after each awaited request
  (main.ts:184, 190), so a box edited during a fetch (a store at main.ts:518 or a splice at
  main.ts:524) changes which slots the remaining requests ask for; that is not modelled.
- SettingTab.IntervalFieldRoundTrip: covers whole minutes only, because `String(x / 60)` of
  other intervals prints a fraction.
- Plugin.Assign: covers a document whose present keys have the right types. A `null` or
  wrongly typed value under a key, and keys the settings do not have, are not modelled.
- View.PriceText: models the `price` member as absent or a string. A JSON number or other
  non-string value is not modelled.

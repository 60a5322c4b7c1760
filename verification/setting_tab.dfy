/**
  The settings screen: checking a typed symbol against the known universe and saving it into
  its slot of the symbol list, re-checking every slot when the inputs are shown, and reading
  the refresh interval the user typed in minutes.
 */
module SettingTab {
  import opened Options
  import opened JsString
  import opened JsNumber
  import JsArray
  import opened Plugin

  /** The number of symbol input boxes on the screen. */
  const SlotCount := 5

  datatype Validity = Empty | Valid | Invalid

  /** What the screen compares and stores: the input trimmed, then lower-cased. */
  function Normalize(input: string): (r: string)
    ensures |r| <= |input|
    ensures r == [] <==> AllSpace(input)
    ensures r != [] ==> !IsSpace(r[0]) && !IsSpace(r[|r| - 1])
    ensures forall k :: 0 <= k < |r| ==> !('A' <= r[k] <= 'Z')
  {
    ToLowerKeepsEnds(Trim(input));
    ToLower(Trim(input))
  }

  /** `universe.map(sym => sym.toLowerCase())`. */
  function Lowered(universe: seq<string>): (r: seq<string>)
    ensures |r| == |universe|
    ensures forall k :: 0 <= k < |universe| ==> r[k] == ToLower(universe[k])
  {
    seq(|universe|, k requires 0 <= k < |universe| => ToLower(universe[k]))
  }

  /**
    The classification behind the input's icon: an input that is only white space is empty;
    otherwise it is valid exactly when some universe entry equals it up to ASCII case and the
    input's surrounding white space.
   */
  function Classify(input: string, universe: seq<string>): (v: Validity)
    ensures v == Empty <==> AllSpace(input)
    ensures v == Valid <==>
              !AllSpace(input) && exists k :: 0 <= k < |universe| && ToLower(universe[k]) == Normalize(input)
  {
    var symbol := Normalize(input);
    if symbol == "" then Empty
    else if symbol in Lowered(universe) then Valid
    else Invalid
  }

  /**
    `validateAndSaveSymbol(index)` on the settings, given the text in input box `index`:
    a valid symbol is stored in slot `index` in its normalised form, an empty input removes
    slot `index` and shifts the later slots left, and an invalid input changes nothing.
   */
  function SaveSymbol(s: CryptoSettings, index: nat, input: string): (r: CryptoSettings)
    ensures r.apiKey == s.apiKey && r.refreshInterval == s.refreshInterval
    ensures r.availableSymbols == s.availableSymbols
    ensures Classify(input, s.availableSymbols.symbols) == Valid ==>
              && |r.symbols| == (if index < |s.symbols| then |s.symbols| else index + 1)
              && r.symbols[index] == Some(Normalize(input))
              && forall j :: 0 <= j < |r.symbols| && j != index ==> r.symbols[j] == JsArray.At(s.symbols, j)
    ensures Classify(input, s.availableSymbols.symbols) == Invalid ==> r == s
    ensures Classify(input, s.availableSymbols.symbols) == Empty && index < |s.symbols| ==>
              r.symbols == s.symbols[..index] + s.symbols[index + 1..]
    ensures Classify(input, s.availableSymbols.symbols) == Empty && |s.symbols| <= index ==> r == s
  {
    match Classify(input, s.availableSymbols.symbols)
    case Valid => s.(symbols := JsArray.SetAt(s.symbols, index, Normalize(input)))
    case Empty => s.(symbols := JsArray.Splice(s.symbols, index))
    case Invalid => s
  }

  /** The text an input box is filled with: `settings.symbols[i] || ""`. */
  function InputValue(symbols: seq<Slot>, i: nat): (v: string)
    ensures i < |symbols| && symbols[i].Some? ==> v == symbols[i].value
    ensures (i >= |symbols| || symbols[i].None?) ==> v == ""
  {
    JsArray.At(symbols, i).GetOr("")
  }

  /** Every slot holds a symbol already in the form the screen stores, and it is a valid one. */
  predicate WellFormedSymbols(s: CryptoSettings) {
    forall j :: 0 <= j < |s.symbols| ==>
      && s.symbols[j].Some?
      && Normalize(s.symbols[j].value) == s.symbols[j].value
      && Classify(s.symbols[j].value, s.availableSymbols.symbols) == Valid
  }

  /**
    `displaySymbolInputs`: each of the five boxes, in order, is filled from the current
    settings and immediately validated and saved. The list never grows, and a list of stored,
    valid, normalised symbols comes through unchanged.
   */
  method ShowSymbolInputs(s: CryptoSettings) returns (r: CryptoSettings)
    ensures r.apiKey == s.apiKey && r.refreshInterval == s.refreshInterval
    ensures r.availableSymbols == s.availableSymbols
    ensures |r.symbols| <= |s.symbols|
    ensures WellFormedSymbols(s) && |s.symbols| <= SlotCount ==> r == s
  {
    r := s;
    var i := 0;
    while i < SlotCount
      invariant 0 <= i <= SlotCount
      invariant r.apiKey == s.apiKey && r.refreshInterval == s.refreshInterval
      invariant r.availableSymbols == s.availableSymbols
      invariant |r.symbols| <= |s.symbols|
      invariant WellFormedSymbols(s) && |s.symbols| <= SlotCount ==> r == s
    {
      var value := InputValue(r.symbols, i);
      if WellFormedSymbols(s) && |s.symbols| <= SlotCount {
        if i < |r.symbols| {
          StoredSymbolRevalidates(r, i);
        }
      }
      r := SaveSymbol(r, i, value);
      i := i + 1;
    }
  }

  /** Re-validating a slot that holds a well-formed symbol leaves the settings as they are. */
  lemma StoredSymbolRevalidates(s: CryptoSettings, i: nat)
    requires WellFormedSymbols(s) && i < |s.symbols|
    ensures SaveSymbol(s, i, InputValue(s.symbols, i)) == s
  {
    JsArray.SetAtSameValue(s.symbols, i, s.symbols[i].value);
  }

  /** Normalising twice is normalising once. */
  lemma NormalizeIdempotent(input: string)
    ensures Normalize(Normalize(input)) == Normalize(input)
  {
    var t := Trim(input);
    TrimToLowerCommute(t);
    TrimIdempotent(input);
    ToLowerIdempotent(t);
  }

  /** The stored form of a valid input is itself valid and stores as itself. */
  lemma NormalizedValidStaysValid(input: string, universe: seq<string>)
    requires Classify(input, universe) == Valid
    ensures Classify(Normalize(input), universe) == Valid
    ensures Normalize(Normalize(input)) == Normalize(input)
  {
    NormalizeIdempotent(input);
  }

  /** Validation ignores the case of the input. */
  lemma ClassifyIgnoresInputCase(input: string, universe: seq<string>)
    ensures Classify(ToLower(input), universe) == Classify(input, universe)
  {
    TrimToLowerCommute(input);
    ToLowerIdempotent(Trim(input));
    assert Trim(ToLower(input)) == [] <==> Trim(input) == [];
  }

  /** Validation ignores the case of the universe entries. */
  lemma ClassifyIgnoresUniverseCase(input: string, universe: seq<string>)
    ensures Classify(input, Lowered(universe)) == Classify(input, universe)
  {
    forall k | 0 <= k < |universe| ensures ToLower(Lowered(universe)[k]) == ToLower(universe[k]) {
      ToLowerIdempotent(universe[k]);
    }
  }

  /** Validation ignores white space around the input. */
  lemma ClassifyIgnoresPadding(before: string, input: string, after: string, universe: seq<string>)
    requires AllSpace(before) && AllSpace(after)
    ensures Classify(before + input + after, universe) == Classify(input, universe)
  {
    TrimIgnoresPadding(before, input, after);
  }

  /** Saving into one of the five boxes keeps a list of at most five slots at most five long. */
  lemma SaveSymbolKeepsSlotBound(s: CryptoSettings, index: nat, input: string)
    requires |s.symbols| <= SlotCount && index < SlotCount
    ensures |SaveSymbol(s, index, input).symbols| <= SlotCount
  {
  }

  /**
    `parseInt(value.trim(), 10)` followed by the update: a number of minutes is stored as that
    many seconds times sixty; text without a leading number leaves the settings unchanged.
   */
  function ApplyIntervalInput(s: CryptoSettings, value: string): (r: CryptoSettings)
    ensures r.apiKey == s.apiKey && r.symbols == s.symbols && r.availableSymbols == s.availableSymbols
    ensures ParseInt(value).None? ==> r == s
    ensures ParseInt(value).Some? ==> r.refreshInterval == 60 * ParseInt(value).value
  {
    ParseIntOfTrim(value);
    match ParseInt(Trim(value))
    case None => s
    case Some(minutes) => s.(refreshInterval := minutes * 60)
  }

  /** Typing a whole number of minutes, possibly followed by non-digit text, stores it in seconds. */
  lemma IntervalInputSetsMinutes(s: CryptoSettings, minutes: int, tail: string)
    requires tail == [] || !IsDigit(tail[0])
    ensures ApplyIntervalInput(s, IntToString(minutes) + tail).refreshInterval == 60 * minutes
  {
    ParseIntToString(minutes, tail);
  }

  /**
    The interval box shows `String(refreshInterval / 60)`; for a whole number of minutes,
    saving that text back leaves the settings unchanged.
   */
  lemma IntervalFieldRoundTrip(s: CryptoSettings)
    requires s.refreshInterval % 60 == 0
    ensures ApplyIntervalInput(s, IntToString(s.refreshInterval / 60)) == s
  {
    ParseIntToString(s.refreshInterval / 60, []);
    assert IntToString(s.refreshInterval / 60) + [] == IntToString(s.refreshInterval / 60);
  }

  lemma BtcNormalizes()
    ensures Normalize("btc") == "btc" && Lowered(["BTC"]) == ["btc"]
  {
    TrimOfTrimmed("btc");
    assert ToLower("btc") == "btc";
    assert ToLower("BTC") == "btc";
    assert Lowered(["BTC"])[0] == "btc";
  }

  lemma XrpNormalizes()
    ensures Normalize("xrp") == "xrp"
  {
    TrimOfTrimmed("xrp");
    assert ToLower("xrp") == "xrp";
  }

  lemma ExampleClassification()
    ensures Classify("btc", ["BTC"]) == Valid && Normalize("btc") == "btc"
    ensures Classify("xrp", ["BTC"]) == Invalid
  {
    BtcNormalizes();
    XrpNormalizes();
  }

  /** An example: with universe ["BTC"], "btc" in box 0 is stored; "xrp" in box 1 is not. */
  lemma ValidateExample(s: CryptoSettings)
    requires s.availableSymbols == AvailableSymbols(["BTC"]) && s.symbols == [Some("eth"), Some("sol")]
    ensures SaveSymbol(s, 0, "btc").symbols == [Some("btc"), Some("sol")]
    ensures SaveSymbol(s, 1, "xrp") == s
  {
    ExampleClassification();
  }

  /** An example: a blank box 0 removes slot 0 and moves the next symbol into it. */
  lemma ClearBoxExample(s: CryptoSettings)
    requires s.symbols == [Some("eth"), Some("sol")]
    ensures SaveSymbol(s, 0, "  ").symbols == [Some("sol")]
  {
    assert AllSpace("  ");
    assert s.symbols[1..] == [Some("sol")];
  }
}

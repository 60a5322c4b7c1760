/**
  The side panel: fetching one price per configured symbol, keeping the quotes whose symbol
  is still configured, and the five-minute guard in front of every fetch. The price service is
  an oracle: `net(k, symbol)` is the outcome of the `k`-th request of a fetch, which asks for
  `symbol`, paired with the clock reading taken when its answer arrived.
 */
module View {
  import opened Options
  import opened Plugin

  const NotAvailable := "N/A"

  /** The minimum time between two fetches, in milliseconds. */
  const StalenessMs := 5 * 60 * 1000

  /** The `price` member of an answer's JSON body; `Absent` also covers a body that is not an object. */
  datatype PriceField = Absent | Present(text: string)

  /**
    The outcome of one request. `Failed` stands for every way `requestUrl` or reading its JSON
    body throws: a network error, a status of 400 or more, a body that is not JSON.
   */
  datatype Reply = Failed | Answered(price: PriceField, receivedAt: int)

  type Network = (nat, Slot) -> Reply

  datatype CryptoData = CryptoData(symbol: Slot, price: string, timestamp: int)

  /** How far a fetch got: the number of requests it issued, and its result (`None` is `undefined`). */
  datatype FetchRun = FetchRun(requested: nat, data: Option<seq<CryptoData>>)

  /** `response.json?.price || "N/A"`: a missing or empty price reads as the sentinel. */
  function PriceText(f: PriceField): (r: string)
    ensures f.Present? && f.text != "" ==> r == f.text
    ensures f.Absent? || f.text == "" ==> r == NotAvailable
  {
    match f
    case Present(t) => if t != "" then t else NotAvailable
    case Absent => NotAvailable
  }

  /** The quote built from an answer to the request for `symbol`. */
  function Quote(symbol: Slot, reply: Reply): (q: CryptoData)
    requires reply.Answered?
    ensures q.symbol == symbol && q.timestamp == reply.receivedAt
    ensures q.price != ""
    ensures reply.price.Present? && reply.price.text != "" ==> q.price == reply.price.text
  {
    CryptoData(symbol, PriceText(reply.price), reply.receivedAt)
  }

  /**
    The `for ... of` loop of `fetchCryptoData` from position `from` on: requests go out one at
    a time in list order; the first failure ends the loop and throws away what was gathered.
   */
  function FetchFrom(symbols: seq<Slot>, net: Network, from: nat): (r: FetchRun)
    requires from <= |symbols|
    ensures from <= r.requested <= |symbols|
    ensures r.data.Some? <==> forall i :: from <= i < |symbols| ==> net(i, symbols[i]).Answered?
    ensures r.data.Some? ==>
              && r.requested == |symbols|
              && |r.data.value| == |symbols| - from
              && forall i :: from <= i < |symbols| ==>
                   net(i, symbols[i]).Answered? && r.data.value[i - from] == Quote(symbols[i], net(i, symbols[i]))
    ensures r.data.None? ==>
              && from < r.requested
              && net(r.requested - 1, symbols[r.requested - 1]).Failed?
              && forall i :: from <= i < r.requested - 1 ==> net(i, symbols[i]).Answered?
    decreases |symbols| - from
  {
    if from == |symbols| then FetchRun(from, Some([]))
    else
      var reply := net(from, symbols[from]);
      if reply.Failed? then FetchRun(from + 1, None)
      else
        var rest := FetchFrom(symbols, net, from + 1);
        if rest.data.None? then rest
        else FetchRun(rest.requested, Some([Quote(symbols[from], reply)] + rest.data.value))
  }

  /**
    `fetchCryptoData`: either one quote per configured symbol, in list order, or no data at
    all. With no symbols configured it issues no request; after a failure it issues no more.
   */
  function FetchCryptoData(symbols: seq<Slot>, net: Network): (r: FetchRun)
    ensures |symbols| == 0 ==> r == FetchRun(0, Some([]))
    ensures r.data.Some? <==> forall i :: 0 <= i < |symbols| ==> net(i, symbols[i]).Answered?
    ensures r.data.Some? ==>
              && r.requested == |symbols|
              && |r.data.value| == |symbols|
              && forall i :: 0 <= i < |symbols| ==>
                   net(i, symbols[i]).Answered? && r.data.value[i] == Quote(symbols[i], net(i, symbols[i]))
    ensures r.data.None? ==>
              && 0 < r.requested <= |symbols|
              && net(r.requested - 1, symbols[r.requested - 1]).Failed?
              && forall i :: 0 <= i < r.requested - 1 ==> net(i, symbols[i]).Answered?
  {
    FetchFrom(symbols, net, 0)
  }

  /** `data.filter(d => symbols.includes(d.symbol))`. */
  function KeepConfigured(data: seq<CryptoData>, symbols: seq<Slot>): (r: seq<CryptoData>)
    ensures |r| <= |data|
    ensures forall k :: 0 <= k < |r| ==> r[k] in data && r[k].symbol in symbols
    ensures forall d :: d in data && d.symbol in symbols ==> d in r
    ensures |r| == 0 <==> forall k :: 0 <= k < |data| ==> data[k].symbol !in symbols
  {
    if |data| == 0 then []
    else
      var rest := KeepConfigured(data[1..], symbols);
      if data[0].symbol in symbols then [data[0]] + rest else rest
  }

  /** When every quote's symbol is configured the filter keeps the whole list, in order. */
  lemma {:induction false} KeepConfiguredKeepsAll(data: seq<CryptoData>, symbols: seq<Slot>)
    requires forall k :: 0 <= k < |data| ==> data[k].symbol in symbols
    ensures KeepConfigured(data, symbols) == data
    decreases |data|
  {
    if |data| > 0 {
      KeepConfiguredKeepsAll(data[1..], symbols);
      assert [data[0]] + data[1..] == data;
    }
  }

  /** The filter works element by element, so it keeps the relative order of what it keeps. */
  lemma {:induction false} KeepConfiguredAppend(a: seq<CryptoData>, b: seq<CryptoData>, symbols: seq<Slot>)
    ensures KeepConfigured(a + b, symbols) == KeepConfigured(a, symbols) + KeepConfigured(b, symbols)
    decreases |a|
  {
    if |a| == 0 {
      assert a + b == b;
    } else {
      assert (a + b)[1..] == a[1..] + b;
      KeepConfiguredAppend(a[1..], b, symbols);
    }
  }

  datatype Panel = Blank | Showing(data: seq<CryptoData>)

  /** What the panel keeps between calls: the time of the last fetch and what is drawn. */
  datatype ViewState = ViewState(lastFetch: int, panel: Panel)

  /** Whether a fetch is due: strictly more than five minutes have passed since the last one. */
  predicate IsStale(now: int, lastFetch: int): (due: bool)
    ensures due <==> now >= lastFetch + 300001
  {
    now - lastFetch > StalenessMs
  }

  /**
    The number of quotes `createCryptoInfo` renders before it meets one whose symbol is a hole
    or `null`: reading `toUpperCase` of that symbol throws.
   */
  function RenderedCount(data: seq<CryptoData>): (n: nat)
    ensures n <= |data|
    decreases |data|
  {
    if |data| == 0 || data[0].symbol.None? then 0 else 1 + RenderedCount(data[1..])
  }

  /** Every quote before the rendered count has a symbol, and the one at it has none. */
  lemma {:induction false} RenderedCountSpec(data: seq<CryptoData>)
    ensures forall k :: 0 <= k < RenderedCount(data) ==> data[k].symbol.Some?
    ensures RenderedCount(data) < |data| ==> data[RenderedCount(data)].symbol.None?
    decreases |data|
  {
    if |data| > 0 && data[0].symbol.Some? {
      RenderedCountSpec(data[1..]);
    }
  }

  /**
    Redrawing the panel with the non-empty filtered list `kept`: quotes are drawn in order until
    one has no symbol. Without such a quote every quote is drawn and the last fetch time becomes
    `doneAt`; with one, the handler throws there and the last fetch time stays.
   */
  function Render(st: ViewState, kept: seq<CryptoData>, doneAt: int): (r: ViewState)
    ensures r.panel.Showing? && |r.panel.data| <= |kept| && r.panel.data == kept[..|r.panel.data|]
    ensures forall k :: 0 <= k < |r.panel.data| ==> r.panel.data[k].symbol.Some?
    ensures (forall k :: 0 <= k < |kept| ==> kept[k].symbol.Some?) ==> r == ViewState(doneAt, Showing(kept))
    ensures (exists k :: 0 <= k < |kept| && kept[k].symbol.None?) ==>
              && r.lastFetch == st.lastFetch
              && |r.panel.data| < |kept|
              && kept[|r.panel.data|].symbol.None?
  {
    var n := RenderedCount(kept);
    RenderedCountSpec(kept);
    if n < |kept| then ViewState(st.lastFetch, Showing(kept[..n]))
    else ViewState(doneAt, Showing(kept))
  }

  /**
    `displayCryptoData` from the call at time `now` to the end of its fetch at time `doneAt`.
    `symbols` is the configured list when the fetch starts and `current` the list when it
    completes, which the filter reads. Within five minutes of the last fetch nothing happens.
    Otherwise the panel is emptied and, when symbols are configured and some quote passes the
    filter, redrawn by `Render` with the filtered quotes; otherwise it stays empty and the
    completion time becomes the last fetch time.
   */
  function Display(st: ViewState, now: int, symbols: seq<Slot>, net: Network, current: seq<Slot>, doneAt: int): (r: ViewState)
    ensures !IsStale(now, st.lastFetch) ==> r == st
    ensures IsStale(now, st.lastFetch) && FetchCryptoData(symbols, net).data.None? ==> r == ViewState(doneAt, Blank)
    ensures IsStale(now, st.lastFetch) && |current| == 0 ==> r == ViewState(doneAt, Blank)
    ensures IsStale(now, st.lastFetch) ==>
              var fetched := FetchCryptoData(symbols, net).data;
              r.panel.Showing? <==>
                && fetched.Some? && |current| > 0
                && exists k :: 0 <= k < |fetched.value| && fetched.value[k].symbol in current
    ensures IsStale(now, st.lastFetch) && r.panel.Blank? ==> r.lastFetch == doneAt
    ensures IsStale(now, st.lastFetch) && r.panel.Showing? ==>
              r == Render(st, KeepConfigured(FetchCryptoData(symbols, net).data.value, current), doneAt)
  {
    if !IsStale(now, st.lastFetch) then st
    else
      var fetched := FetchCryptoData(symbols, net).data;
      if fetched.Some? && |current| > 0 && |KeepConfigured(fetched.value, current)| > 0 then
        Render(st, KeepConfigured(fetched.value, current), doneAt)
      else ViewState(doneAt, Blank)
  }

  /**
    When the settings did not change during the fetch, every slot holds a symbol and every
    request was answered, the panel shows exactly one quote per configured symbol, in list order.
   */
  lemma DisplayShowsEverySymbol(st: ViewState, now: int, symbols: seq<Slot>, net: Network, doneAt: int)
    requires IsStale(now, st.lastFetch) && |symbols| > 0
    requires forall i :: 0 <= i < |symbols| ==> symbols[i].Some?
    requires forall i :: 0 <= i < |symbols| ==> net(i, symbols[i]).Answered?
    ensures Display(st, now, symbols, net, symbols, doneAt) == ViewState(doneAt, Showing(FetchCryptoData(symbols, net).data.value))
    ensures forall i :: 0 <= i < |symbols| ==>
              Display(st, now, symbols, net, symbols, doneAt).panel.data[i] == Quote(symbols[i], net(i, symbols[i]))
  {
    var data := FetchCryptoData(symbols, net).data.value;
    assert forall k :: 0 <= k < |data| ==> data[k].symbol == symbols[k];
    KeepConfiguredKeepsAll(data, symbols);
  }

  /** The rendered count is the position of the first quote without a symbol. */
  lemma {:induction false} RenderedCountOfFirstHole(kept: seq<CryptoData>, j: nat)
    requires j < |kept| && kept[j].symbol.None?
    requires forall i :: 0 <= i < j ==> kept[i].symbol.Some?
    ensures RenderedCount(kept) == j
    decreases j
  {
    if j > 0 {
      assert kept[1..][j - 1] == kept[j];
      assert forall i :: 0 <= i < j - 1 ==> kept[1..][i] == kept[i + 1];
      RenderedCountOfFirstHole(kept[1..], j - 1);
    }
  }

  /** The render stops right before the first quote without a symbol. */
  lemma RenderStopsAt(st: ViewState, kept: seq<CryptoData>, doneAt: int, j: nat)
    requires j < |kept| && kept[j].symbol.None?
    requires forall i :: 0 <= i < j ==> kept[i].symbol.Some?
    ensures Render(st, kept, doneAt) == ViewState(st.lastFetch, Showing(kept[..j]))
  {
    RenderedCountOfFirstHole(kept, j);
  }

  /**
    A hole in the symbol list: the panel shows the quotes of the slots before the first hole,
    and the last fetch time stays where it was, so the next call fetches again.
   */
  lemma DisplayStopsAtFirstHole(st: ViewState, now: int, symbols: seq<Slot>, net: Network, doneAt: int, j: nat)
    requires IsStale(now, st.lastFetch)
    requires j < |symbols| && symbols[j].None?
    requires forall i :: 0 <= i < j ==> symbols[i].Some?
    requires forall i :: 0 <= i < |symbols| ==> net(i, symbols[i]).Answered?
    ensures Display(st, now, symbols, net, symbols, doneAt).lastFetch == st.lastFetch
    ensures Display(st, now, symbols, net, symbols, doneAt).panel.Showing?
    ensures |Display(st, now, symbols, net, symbols, doneAt).panel.data| == j
    ensures forall i :: 0 <= i < j ==>
              Display(st, now, symbols, net, symbols, doneAt).panel.data[i] == Quote(symbols[i], net(i, symbols[i]))
  {
    var data := FetchCryptoData(symbols, net).data.value;
    assert forall k :: 0 <= k < |data| ==> data[k].symbol == symbols[k];
    KeepConfiguredKeepsAll(data, symbols);
    assert data[j].symbol in symbols;
    RenderStopsAt(st, data, doneAt, j);
    assert Display(st, now, symbols, net, symbols, doneAt) == ViewState(st.lastFetch, Showing(data[..j]));
  }

  /**
    Once a fetch completes and its quotes are drawn without a throw, which holds when no slot of
    the list the filter reads is a hole, no further fetch happens for the next five minutes.
   */
  lemma NoRefetchWithinFiveMinutes(st: ViewState, now: int, symbols: seq<Slot>, net: Network, current: seq<Slot>,
                                   doneAt: int, later: int, net2: Network, current2: seq<Slot>, doneAt2: int)
    requires IsStale(now, st.lastFetch) && later - doneAt <= StalenessMs
    requires forall i :: 0 <= i < |current| ==> current[i].Some?
    ensures var st' := Display(st, now, symbols, net, current, doneAt);
            Display(st', later, symbols, net2, current2, doneAt2) == st'
  {
    var st' := Display(st, now, symbols, net, current, doneAt);
    if st'.panel.Showing? {
      var kept := KeepConfigured(FetchCryptoData(symbols, net).data.value, current);
      assert forall k :: 0 <= k < |kept| ==> kept[k].symbol.Some?;
    }
    assert st'.lastFetch == doneAt;
  }

  /**
    An example: symbols btc and eth, btc answered and eth failing. The fetch is
    abandoned after its second request and the panel is emptied.
   */
  lemma FailedFetchExample(st: ViewState, now: int, net: Network, doneAt: int)
    requires IsStale(now, st.lastFetch)
    requires net(0, Some("btc")) == Answered(Present("61234.5"), now)
    requires net(1, Some("eth")) == Failed
    ensures FetchCryptoData([Some("btc"), Some("eth")], net) == FetchRun(2, None)
    ensures Display(st, now, [Some("btc"), Some("eth")], net, [Some("btc"), Some("eth")], doneAt)
         == ViewState(doneAt, Blank)
  {
  }
}

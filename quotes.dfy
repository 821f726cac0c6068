/**
 * The quote fetcher: which symbols are looked up, what one symbol's trailing daily
 * closes yield, and the loop that resolves a batch of symbols into a quote map.
 * The market-data download itself is an input: a function from a request to its answer.
 */
module Quotes {
  import opened Wrappers
  import opened Money

  /** The answer to one download: an exception or an empty frame (Failed), or the daily closes, oldest first, any of them missing. */
  datatype Download = Failed | Closes(closes: seq<Option<real>>)

  /** One download request: the symbol, the number of trailing sessions asked for, and its position among the run's requests. */
  datatype Request = Request(symbol: string, sessions: nat, call: nat)

  /** A market snapshot for one symbol. */
  datatype Quote = Quote(price: real, prevClose: Option<real>, dayChange: Option<real>, dayPct: Option<real>, weekPct: Option<real>)

  /** A pipeline variant: the trailing window it downloads and whether it derives the week metric. */
  datatype Config = Config(sessions: nat, weekly: bool)

  /** The control-room variant: five sessions and a week metric. */
  const CockpitConfig := Config(5, true)

  /** The first dashboard variant: two sessions and no week metric (its quotes have no `week_pct`). */
  const MvpConfig := Config(2, false)

  /** The number of usable sessions the week metric needs. */
  const WeekSessions := 5

  /** Python truthiness of an optional float: unknown and zero are both false. */
  predicate Truthy(x: Option<real>) {
    x.Some? && x.value != 0.0
  }

  /** `dropna(subset=["Close"])`: the defined closes, in their order. */
  function Usable(closes: seq<Option<real>>): (r: seq<real>)
    ensures |r| <= |closes|
    ensures forall x :: x in r <==> Some(x) in closes
    ensures r == [] <==> forall i :: 0 <= i < |closes| ==> closes[i].None?
  {
    if closes == [] then []
    else
      var rest := Usable(closes[..|closes| - 1]);
      assert closes == closes[..|closes| - 1] + [closes[|closes| - 1]];
      match closes[|closes| - 1]
      case Some(x) => rest + [x]
      case None => rest
  }

  /** The last usable close is the last defined entry of the window, at position `i`: every later session is missing. */
  lemma {:induction false} LastUsableIsLastDefined(closes: seq<Option<real>>) returns (i: nat)
    requires Usable(closes) != []
    ensures i < |closes| && closes[i] == Some(Usable(closes)[|Usable(closes)| - 1])
    ensures forall j :: i < j < |closes| ==> closes[j].None?
  {
    var n := |closes|;
    var init := closes[..n - 1];
    assert closes == init + [closes[n - 1]];
    if closes[n - 1].Some? {
      assert Usable(closes) == Usable(init) + [closes[n - 1].value];
      i := n - 1;
    } else {
      assert Usable(closes) == Usable(init);
      i := LastUsableIsLastDefined(init);
      assert closes[i] == init[i];
      forall j | i < j < n ensures closes[j].None? {
        if j < n - 1 { assert closes[j] == init[j]; }
      }
    }
  }

  /** `dropna` works session by session: the usable closes of two stretches, one after the other. */
  lemma {:induction false} UsableAppend(a: seq<Option<real>>, b: seq<Option<real>>)
    ensures Usable(a + b) == Usable(a) + Usable(b)
    decreases |b|
  {
    if b == [] {
      assert a + b == a;
    } else {
      var init := b[..|b| - 1];
      assert a + b == (a + init) + [b[|b| - 1]];
      assert (a + b)[..|a + b| - 1] == a + init;
      UsableAppend(a, init);
    }
  }

  /** One session: its close when known, nothing otherwise. */
  lemma UsableSession(c: Option<real>)
    ensures Usable([c]) == if c.Some? then [c.value] else []
  {
    assert [c][..0] == [];
  }

  /** The first usable close, the week metric's base, is at the first session whose close is known. */
  lemma {:induction false} FirstUsableIsFirstDefined(closes: seq<Option<real>>) returns (i: nat)
    requires Usable(closes) != []
    ensures i < |closes| && closes[i] == Some(Usable(closes)[0])
    ensures forall j :: 0 <= j < i ==> closes[j].None?
  {
    var rest := closes[1..];
    assert closes == [closes[0]] + rest;
    UsableAppend([closes[0]], rest);
    UsableSession(closes[0]);
    if closes[0].Some? {
      i := 0;
    } else {
      var k := FirstUsableIsFirstDefined(rest);
      i := k + 1;
    }
  }

  /**
   * The second-to-last usable close, the previous close, is at the last known session
   * before the price's session, with only missing closes between and after them.
   */
  lemma PrevUsableIsPrevDefined(closes: seq<Option<real>>) returns (i: nat, j: nat)
    requires |Usable(closes)| >= 2
    ensures i < j < |closes|
    ensures closes[j] == Some(Usable(closes)[|Usable(closes)| - 1])
    ensures closes[i] == Some(Usable(closes)[|Usable(closes)| - 2])
    ensures forall k :: i < k < |closes| && k != j ==> closes[k].None?
  {
    j := LastUsableIsLastDefined(closes);
    var front := closes[..j];
    UsableBeforeLast(closes, j);
    i := LastUsableIsLastDefined(front);
    assert closes[i] == front[i];
    forall k | i < k < j ensures closes[k].None? {
      assert closes[k] == front[k];
    }
  }

  /** When the `j`-th session is the last known one, the usable closes are those before it and then its own. */
  lemma UsableBeforeLast(closes: seq<Option<real>>, j: nat)
    requires j < |closes| && closes[j].Some?
    requires forall k :: j < k < |closes| ==> closes[k].None?
    ensures Usable(closes) == Usable(closes[..j]) + [closes[j].value]
  {
    var front, back := closes[..j], closes[j + 1..];
    assert closes == (front + [closes[j]]) + back;
    UsableAppend(front + [closes[j]], back);
    UsableAppend(front, [closes[j]]);
    UsableSession(closes[j]);
    assert Usable(back) == [] by {
      forall k | 0 <= k < |back| ensures back[k].None? {
        assert back[k] == closes[j + 1 + k];
      }
    }
  }

  /**
   * The arithmetic of `fetch_quote` on one download: no quote for a failed download or
   * one without a usable close, otherwise the fields `QuoteOf` derives from the usable closes.
   */
  function FetchQuote(d: Download, cfg: Config): (r: Option<Quote>)
    ensures d.Failed? ==> r.None?
    ensures d.Closes? ==> (r.None? <==> Usable(d.closes) == [])
    ensures r.Some? ==> r.value == QuoteOf(Usable(d.closes), cfg)
  {
    match d
    case Failed => None
    case Closes(closes) =>
      var u := Usable(closes);
      if u == [] then None else Some(QuoteOf(u, cfg))
  }

  /**
   * The fields of a quote, from the usable closes (oldest first). The last close is the
   * price; the one before it, when there is one, is the previous close; the day change and
   * day percent need a non-zero previous close; the week percent, in the weekly variant,
   * needs five usable sessions and a non-zero first close, its base.
   */
  function QuoteOf(u: seq<real>, cfg: Config): (q: Quote)
    requires u != []
    ensures q.price == u[|u| - 1]
    ensures q.prevClose.Some? <==> |u| >= 2
    ensures |u| >= 2 ==> q.prevClose.value == u[|u| - 2]
    ensures q.dayChange.Some? <==> Truthy(q.prevClose)
    ensures q.dayChange.Some? ==> q.prevClose.value + q.dayChange.value == q.price
    ensures q.dayPct.Some? <==> Truthy(q.prevClose)
    ensures q.dayPct.Some? ==> q.dayPct.value * q.prevClose.value == q.dayChange.value * 100.0
    ensures q.weekPct.Some? <==> cfg.weekly && |u| >= WeekSessions && u[0] != 0.0
    ensures q.weekPct.Some? ==> q.weekPct.value * u[0] == (q.price - u[0]) * 100.0
  {
    var price := u[|u| - 1];
    var prevClose := if |u| > 1 then Some(u[|u| - 2]) else None;
    var dayChange := if Truthy(prevClose) then Some(price - prevClose.value) else None;
    var dayPct := if Truthy(prevClose) then Some(PercentOf(price - prevClose.value, prevClose.value)) else None;
    var weekPct := if cfg.weekly && |u| >= WeekSessions && u[0] != 0.0 then Some(PercentOf(price - u[0], u[0])) else None;
    Quote(price, prevClose, dayChange, dayPct, weekPct)
  }

  /** `change / base * 100`. */
  function PercentOf(change: real, base: real): (p: real)
    requires base != 0.0
    ensures p * base == change * 100.0
  {
    change / base * 100.0
  }

  /** On the same closes, the two-session variant derives the same price and day fields as the five-session one, and no week metric. */
  lemma VariantsAgree(d: Download)
    ensures FetchQuote(d, MvpConfig).None? <==> FetchQuote(d, CockpitConfig).None?
    ensures FetchQuote(d, MvpConfig).Some? ==>
      FetchQuote(d, MvpConfig).value == FetchQuote(d, CockpitConfig).value.(weekPct := None)
  {
  }

  // ---------------------------------------------------------------------------
  // The batch

  /** Each entry of `s` normalised. */
  function NormalizeAll(s: seq<string>): (r: seq<string>)
    ensures |r| == |s| && forall i :: 0 <= i < |s| ==> r[i] == Normalize(s[i])
  {
    seq(|s|, i requires 0 <= i < |s| => Normalize(s[i]))
  }

  /** What the `call`-th request of a run, for `symbol`, resolves to. */
  function Answer(download: Request -> Download, cfg: Config, symbol: string, call: nat): (r: Option<Quote>)
    ensures var d := download(Request(symbol, cfg.sessions, call));
      && (r.None? <==> d.Failed? || Usable(d.closes) == [])
      && (r.Some? ==> r.value == QuoteOf(Usable(d.closes), cfg))
  {
    FetchQuote(download(Request(symbol, cfg.sessions, call)), cfg)
  }

  /** The number of occurrences of `x` in `s`. */
  function Count(s: seq<string>, x: string): nat {
    if s == [] then 0 else Count(s[..|s| - 1], x) + (if s[|s| - 1] == x then 1 else 0)
  }

  /** Every key of the quote map is a non-empty symbol seen so far. */
  ghost predicate KeysSeen(quotes: map<string, Quote>, seen: seq<string>) {
    forall k :: k in quotes ==> k != "" && k in seen
  }

  /** Every request was for a non-empty symbol seen so far. */
  ghost predicate CallsSeen(calls: seq<string>, seen: seq<string>) {
    forall j :: 0 <= j < |calls| ==> calls[j] != "" && calls[j] in seen
  }

  /** Every value of the quote map is what some request for its key answered. */
  ghost predicate Sourced(quotes: map<string, Quote>, calls: seq<string>, download: Request -> Download, cfg: Config) {
    forall k :: k in quotes ==>
      exists j :: 0 <= j < |calls| && calls[j] == k && Answer(download, cfg, k, j) == Some(quotes[k])
  }

  /** Every request that answered with a quote has that quote in the map. */
  ghost predicate Kept(quotes: map<string, Quote>, calls: seq<string>, download: Request -> Download, cfg: Config) {
    forall j :: 0 <= j < |calls| && Answer(download, cfg, calls[j], j).Some? ==>
      calls[j] in quotes && quotes[calls[j]] == Answer(download, cfg, calls[j], j).value
  }

  /** A symbol is requested again only after a request for it answered nothing. */
  ghost predicate RetriedAfterFailure(calls: seq<string>, download: Request -> Download, cfg: Config) {
    forall j1, j2 :: 0 <= j1 < j2 < |calls| && calls[j1] == calls[j2] ==>
      Answer(download, cfg, calls[j1], j1).None?
  }

  /** A non-empty symbol still unresolved was requested once per time it was seen. */
  ghost predicate UnresolvedCounted(quotes: map<string, Quote>, calls: seq<string>, seen: seq<string>) {
    forall k :: k != "" && k !in quotes ==> Count(calls, k) == Count(seen, k)
  }

  /**
   * What the batch loop keeps true of the symbols seen so far (`seen`, normalised), the
   * quote map and the requests made.
   */
  ghost predicate BatchInvariant(seen: seq<string>, quotes: map<string, Quote>, calls: seq<string>,
                                 download: Request -> Download, cfg: Config)
  {
    && |calls| <= |seen|
    && KeysSeen(quotes, seen)
    && CallsSeen(calls, seen)
    && Sourced(quotes, calls, download, cfg)
    && Kept(quotes, calls, download, cfg)
    && RetriedAfterFailure(calls, download, cfg)
    && UnresolvedCounted(quotes, calls, seen)
  }

  /** Appending one element adds one to its count and nothing to any other. */
  lemma CountAppend(s: seq<string>, y: string, x: string)
    ensures Count(s + [y], x) == Count(s, x) + (if y == x then 1 else 0)
  {
    assert (s + [y])[..|s|] == s;
  }

  /** One round of the loop that skips `clean` keeps the invariant. */
  lemma BatchSkip(seen: seq<string>, quotes: map<string, Quote>, calls: seq<string>, clean: string,
                  download: Request -> Download, cfg: Config)
    requires BatchInvariant(seen, quotes, calls, download, cfg)
    requires clean == "" || clean in quotes
    ensures BatchInvariant(seen + [clean], quotes, calls, download, cfg)
  {
    forall k | k != "" && k !in quotes
      ensures Count(calls, k) == Count(seen + [clean], k)
    {
      CountAppend(seen, clean, k);
    }
  }

  /**
   * One round of the loop that requests `clean` keeps the invariant; `quotes'` is the map
   * after the answer is recorded.
   */
  lemma BatchRequest(seen: seq<string>, quotes: map<string, Quote>, quotes': map<string, Quote>, calls: seq<string>,
                     clean: string, answer: Option<Quote>, download: Request -> Download, cfg: Config)
    requires BatchInvariant(seen, quotes, calls, download, cfg)
    requires clean != "" && clean !in quotes
    requires answer == Answer(download, cfg, clean, |calls|)
    requires quotes' == if answer.Some? then quotes[clean := answer.value] else quotes
    ensures BatchInvariant(seen + [clean], quotes', calls + [clean], download, cfg)
  {
    BatchRequestKeys(seen, quotes, quotes', clean, answer);
    BatchRequestSeen(seen, calls, clean);
    BatchRequestSourced(quotes, quotes', calls, clean, answer, download, cfg);
    BatchRequestKept(quotes, quotes', calls, clean, answer, download, cfg);
    BatchRequestRetry(quotes, calls, clean, download, cfg);
    BatchRequestCounts(seen, quotes, quotes', calls, clean, answer);
  }

  lemma BatchRequestKeys(seen: seq<string>, quotes: map<string, Quote>, quotes': map<string, Quote>,
                         clean: string, answer: Option<Quote>)
    requires clean != "" && KeysSeen(quotes, seen)
    requires quotes' == if answer.Some? then quotes[clean := answer.value] else quotes
    ensures KeysSeen(quotes', seen + [clean])
  {
  }

  lemma BatchRequestSeen(seen: seq<string>, calls: seq<string>, clean: string)
    requires clean != "" && CallsSeen(calls, seen)
    ensures CallsSeen(calls + [clean], seen + [clean])
  {
    var seen', calls' := seen + [clean], calls + [clean];
    forall j | 0 <= j < |calls'| ensures calls'[j] != "" && calls'[j] in seen' {
      if j < |calls| {
        assert calls'[j] == calls[j];
      }
    }
  }

  lemma BatchRequestSourced(quotes: map<string, Quote>, quotes': map<string, Quote>, calls: seq<string>, clean: string,
                            answer: Option<Quote>, download: Request -> Download, cfg: Config)
    requires Sourced(quotes, calls, download, cfg)
    requires answer == Answer(download, cfg, clean, |calls|)
    requires quotes' == if answer.Some? then quotes[clean := answer.value] else quotes
    ensures Sourced(quotes', calls + [clean], download, cfg)
  {
    var calls' := calls + [clean];
    forall k | k in quotes'
      ensures exists j :: 0 <= j < |calls'| && calls'[j] == k && Answer(download, cfg, k, j) == Some(quotes'[k])
    {
      if answer.Some? && k == clean {
        assert calls'[|calls|] == k;
      } else {
        var j :| 0 <= j < |calls| && calls[j] == k && Answer(download, cfg, k, j) == Some(quotes[k]);
        assert calls'[j] == k;
      }
    }
  }

  lemma BatchRequestKept(quotes: map<string, Quote>, quotes': map<string, Quote>, calls: seq<string>, clean: string,
                         answer: Option<Quote>, download: Request -> Download, cfg: Config)
    requires clean !in quotes && Kept(quotes, calls, download, cfg)
    requires answer == Answer(download, cfg, clean, |calls|)
    requires quotes' == if answer.Some? then quotes[clean := answer.value] else quotes
    ensures Kept(quotes', calls + [clean], download, cfg)
  {
    var calls' := calls + [clean];
    forall j | 0 <= j < |calls'| && Answer(download, cfg, calls'[j], j).Some?
      ensures calls'[j] in quotes' && quotes'[calls'[j]] == Answer(download, cfg, calls'[j], j).value
    {
      if j < |calls| {
        assert calls'[j] == calls[j];
        assert calls[j] != clean;
      }
    }
  }

  lemma BatchRequestRetry(quotes: map<string, Quote>, calls: seq<string>, clean: string,
                          download: Request -> Download, cfg: Config)
    requires clean !in quotes && Kept(quotes, calls, download, cfg)
    requires RetriedAfterFailure(calls, download, cfg)
    ensures RetriedAfterFailure(calls + [clean], download, cfg)
  {
    var calls' := calls + [clean];
    forall j1, j2 | 0 <= j1 < j2 < |calls'| && calls'[j1] == calls'[j2]
      ensures Answer(download, cfg, calls'[j1], j1).None?
    {
      assert calls'[j1] == calls[j1];
      if j2 < |calls| {
        assert calls'[j2] == calls[j2];
      }
    }
  }

  lemma BatchRequestCounts(seen: seq<string>, quotes: map<string, Quote>, quotes': map<string, Quote>,
                           calls: seq<string>, clean: string, answer: Option<Quote>)
    requires UnresolvedCounted(quotes, calls, seen)
    requires quotes' == if answer.Some? then quotes[clean := answer.value] else quotes
    ensures UnresolvedCounted(quotes', calls + [clean], seen + [clean])
  {
    forall k | k != "" && k !in quotes'
      ensures Count(calls + [clean], k) == Count(seen + [clean], k)
    {
      CountAppend(seen, clean, k);
      CountAppend(calls, clean, k);
    }
  }

  /** The prefix of `s` one longer is the prefix followed by the next element. */
  lemma PrefixStep(s: seq<string>, n: nat)
    requires n < |s|
    ensures s[..n + 1] == s[..n] + [s[n]]
  {
  }

  /** A symbol list without blanks and without repeats. */
  predicate DistinctSymbols(s: seq<string>) {
    (forall i :: 0 <= i < |s| ==> s[i] != "") && (forall i, j :: 0 <= i < j < |s| ==> s[i] != s[j])
  }

  /** In a list without blanks or repeats, the next symbol is neither blank nor among the keys drawn from the symbols before it. */
  lemma DistinctStep(s: seq<string>, n: nat, quotes: map<string, Quote>)
    requires DistinctSymbols(s) && n < |s|
    requires forall k :: k in quotes ==> k in s[..n]
    ensures s[n] != "" && s[n] !in quotes
  {
    forall i | 0 <= i < n ensures s[..n][i] != s[n] {
      assert s[..n][i] == s[i];
    }
  }

  /**
   * `fetch_quotes`: normalises each symbol, skips blanks and symbols already resolved,
   * and requests the rest one at a time, keeping only the answers that give a quote.
   * `calls` lists the symbols requested, in order.
   */
  method FetchQuotes(symbols: seq<string>, download: Request -> Download, cfg: Config)
    returns (quotes: map<string, Quote>, calls: seq<string>)
    // every key is a normalised, non-empty symbol of the input
    ensures forall k :: k in quotes ==> k != "" && Normalize(k) == k && k in NormalizeAll(symbols)
    ensures forall j :: 0 <= j < |calls| ==> calls[j] != "" && calls[j] in NormalizeAll(symbols)
    ensures |calls| <= |symbols|
    // every value is the quote some request for its key produced, and no successful answer is dropped
    ensures forall k :: k in quotes ==>
      exists j :: 0 <= j < |calls| && calls[j] == k && Answer(download, cfg, k, j) == Some(quotes[k])
    ensures forall j :: 0 <= j < |calls| && Answer(download, cfg, calls[j], j).Some? ==>
      calls[j] in quotes && quotes[calls[j]] == Answer(download, cfg, calls[j], j).value
    // a symbol is requested again only after a failed request
    ensures forall j1, j2 :: 0 <= j1 < j2 < |calls| && calls[j1] == calls[j2] ==>
      Answer(download, cfg, calls[j1], j1).None?
    // a symbol that stays unresolved was requested once for each row naming it
    ensures forall k :: k != "" && k !in quotes ==> Count(calls, k) == Count(NormalizeAll(symbols), k)
    // on a list without blanks or repeats, every symbol is requested exactly once, in order
    ensures DistinctSymbols(NormalizeAll(symbols)) ==> calls == NormalizeAll(symbols)
  {
    ghost var cleaned := NormalizeAll(symbols);
    ghost var seen: seq<string> := [];
    quotes, calls := map[], [];
    var n := 0;
    while n < |symbols|
      invariant 0 <= n <= |symbols|
      invariant seen == cleaned[..n]
      invariant BatchInvariant(seen, quotes, calls, download, cfg)
      invariant DistinctSymbols(cleaned) ==> calls == seen
    {
      var clean := Normalize(symbols[n]);
      PrefixStep(cleaned, n);
      if DistinctSymbols(cleaned) {
        DistinctStep(cleaned, n, quotes);
      }
      if clean != "" && clean !in quotes {
        var quote := FetchQuote(download(Request(clean, cfg.sessions, |calls|)), cfg);
        var quotes' := if quote.Some? then quotes[clean := quote.value] else quotes;
        BatchRequest(seen, quotes, quotes', calls, clean, quote, download, cfg);
        calls := calls + [clean];
        quotes := quotes';
      } else {
        BatchSkip(seen, quotes, calls, clean, download, cfg);
      }
      seen := seen + [clean];
      n := n + 1;
    }
    assert cleaned[..n] == cleaned;
    forall k | k in quotes ensures Normalize(k) == k {
      var i :| 0 <= i < |symbols| && cleaned[i] == k;
      NormalizeIdempotent(symbols[i]);
    }
  }

  // ---------------------------------------------------------------------------
  // The symbol list handed to the batch

  /** The position of the first occurrence of `x` in `s`. */
  function FirstIndex(s: seq<string>, x: string): (i: nat)
    requires x in s
    ensures i < |s| && s[i] == x && x !in s[..i]
  {
    if s[0] == x then 0
    else
      var i := 1 + FirstIndex(s[1..], x);
      assert s[..i] == [s[0]] + s[1..][..i - 1];
      i
  }

  /** Excluded from quote resolution: the empty symbol and the text a missing cell becomes. */
  predicate Fetchable(symbol: string) {
    symbol != "" && symbol != "NAN"
  }

  /**
   * `[s for s in unique(Symbol_clean) if s and s != "NAN"]`: the distinct normalised
   * symbols of the rows, without "" and "NAN", in order of first appearance.
   */
  function SymbolsToFetch(raw: seq<string>): (r: seq<string>)
    ensures forall i :: 0 <= i < |r| ==> Fetchable(r[i]) && r[i] in NormalizeAll(raw)
    ensures forall s :: s in NormalizeAll(raw) && Fetchable(s) ==> s in r
    ensures forall i, j :: 0 <= i < j < |r| ==> r[i] != r[j]
    ensures forall i, j :: 0 <= i < j < |r| ==> FirstIndex(NormalizeAll(raw), r[i]) < FirstIndex(NormalizeAll(raw), r[j])
  {
    Distinct(NormalizeAll(raw))
  }

  /** The distinct fetchable entries of `s`, in order of first appearance. */
  function Distinct(s: seq<string>): (r: seq<string>)
    ensures forall i :: 0 <= i < |r| ==> Fetchable(r[i]) && r[i] in s
    ensures forall x :: x in s && Fetchable(x) ==> x in r
    ensures forall i, j :: 0 <= i < j < |r| ==> r[i] != r[j]
    ensures forall i, j :: 0 <= i < j < |r| ==> FirstIndex(s, r[i]) < FirstIndex(s, r[j])
  {
    if s == [] then []
    else
      var init := s[..|s| - 1];
      var x := s[|s| - 1];
      var d := Distinct(init);
      assert s == init + [x];
      FirstIndexExtend(init, x);
      if x in d || !Fetchable(x) then d
      else
        assert x !in init;
        assert FirstIndex(s, x) == |s| - 1;
        d + [x]
  }

  /** Appending an element leaves the first position of every earlier element where it was. */
  lemma FirstIndexExtend(s: seq<string>, x: string)
    ensures forall y :: y in s ==> FirstIndex(s + [x], y) == FirstIndex(s, y)
  {
    forall y | y in s ensures FirstIndex(s + [x], y) == FirstIndex(s, y) {
      var i := FirstIndex(s, y);
      assert (s + [x])[..i] == s[..i];
      FirstIndexUnique(s + [x], y, i);
    }
  }

  /** The first position of `x` is the one position before which `x` does not occur. */
  lemma FirstIndexUnique(s: seq<string>, x: string, i: nat)
    requires i < |s| && s[i] == x && x !in s[..i]
    ensures FirstIndex(s, x) == i
  {
    var k := FirstIndex(s, x);
    forall j | 0 <= j < i ensures s[j] != x {
      assert s[j] == s[..i][j];
    }
    forall j | 0 <= j < k ensures s[j] != x {
      assert s[j] == s[..k][j];
    }
  }

  /**
   * The symbol list handed to the batch is already normalised and has no blanks or
   * repeats, so the batch requests each of its symbols exactly once, in order.
   */
  lemma SymbolsToFetchAreDistinct(raw: seq<string>)
    ensures NormalizeAll(SymbolsToFetch(raw)) == SymbolsToFetch(raw)
    ensures DistinctSymbols(SymbolsToFetch(raw))
  {
    var r := SymbolsToFetch(raw);
    var cleaned := NormalizeAll(raw);
    forall i | 0 <= i < |r| ensures Normalize(r[i]) == r[i] {
      var j :| 0 <= j < |cleaned| && cleaned[j] == r[i];
      NormalizeIdempotent(raw[j]);
    }
  }

  /**
   * When each symbol is requested exactly once, in order, a symbol is resolved exactly when
   * its one request answered, and with that answer.
   */
  lemma ResolvedOnce(symbols: seq<string>, quotes: map<string, Quote>, calls: seq<string>,
                     download: Request -> Download, cfg: Config)
    requires calls == symbols
    requires forall k :: k in quotes ==>
      exists j :: 0 <= j < |calls| && calls[j] == k && Answer(download, cfg, k, j) == Some(quotes[k])
    requires forall j :: 0 <= j < |calls| && Answer(download, cfg, calls[j], j).Some? ==>
      calls[j] in quotes && quotes[calls[j]] == Answer(download, cfg, calls[j], j).value
    requires DistinctSymbols(symbols)
    ensures forall k :: k in quotes ==> k in symbols
    ensures forall j :: 0 <= j < |symbols| ==>
      (symbols[j] in quotes <==> Answer(download, cfg, symbols[j], j).Some?)
  {
    forall j | 0 <= j < |symbols| && symbols[j] in quotes
      ensures Answer(download, cfg, symbols[j], j).Some?
    {
      var j' :| 0 <= j' < |calls| && calls[j'] == symbols[j] && Answer(download, cfg, symbols[j], j') == Some(quotes[symbols[j]]);
      assert j' == j;
    }
  }
}

/**
 * The control-room build: rows are joined with the quotes, the holdings are classified
 * into records, and the records are summarised into totals, an attention queue and the
 * day's top movers, which leave the core through the JSON sanitiser.
 */
module Cockpit {
  import opened Wrappers
  import opened Money
  import opened Quotes
  import opened Order
  import opened Metrics
  import opened Alerts
  import opened Json

  /** One position as the report shows it: its figures, status, triggers and note. */
  datatype Record = Record(position: Position, status: Status, triggers: seq<Trigger>, note: string)

  /** The figures the report is built from. `attention` is the whole sorted queue; the report shows its first ten. */
  datatype Summary = Summary(
    records: seq<Record>, attention: seq<Record>, losers: seq<Record>, winners: seq<Record>,
    totalCost: real, totalValue: real, dayMove: real, pctGain: real, topSymbol: string, flags: nat)

  /** The number of queue entries the report shows and of movers on each side. */
  const QueueShown := 10
  const MoversShown := 5

  /** `notes.get(symbol, "")`. */
  function NoteFor(notes: map<string, string>, symbol: string): string {
    if symbol in notes then notes[symbol] else ""
  }

  /** The record of one holding: its classification and its note. */
  function RecordOf(p: Position, notes: map<string, string>): (r: Record)
    ensures r.position == p && r.note == NoteFor(notes, p.symbol)
    ensures forall t :: t in r.triggers <==> Fires(t, p)
    ensures InRuleOrder(r.triggers)
    ensures r.status == StatusOf(r.triggers)
  {
    var c := Classify(p);
    Record(p, c.0, c.1, NoteFor(notes, p.symbol))
  }

  /** The records of the holdings, one per holding, in the holdings' order. */
  function RecordsOf(holdings: seq<Position>, notes: map<string, string>): (r: seq<Record>)
    ensures |r| == |holdings| && forall i :: 0 <= i < |r| ==> r[i] == RecordOf(holdings[i], notes)
  {
    seq(|holdings|, i requires 0 <= i < |holdings| => RecordOf(holdings[i], notes))
  }

  /** A record goes to the attention list when it has a trigger. */
  predicate Flagged(r: Record) {
    r.triggers != []
  }

  /** The attention order: `dayPct or -999`, so an unknown or zero day move sorts first. */
  function AttentionKey(r: Record): (k: Option<real>)
    ensures Truthy(r.position.dayPct) ==> k == r.position.dayPct
    ensures !Truthy(r.position.dayPct) ==> k == Some(-999.0)
  {
    Some(if Truthy(r.position.dayPct) then r.position.dayPct.value else -999.0)
  }

  /** The losers' order: `dayPct or 0`, ascending. */
  function LoserKey(r: Record): (k: Option<real>)
    ensures k == Some(r.position.dayPct.GetOr(0.0))
  {
    Some(OrZero(r.position.dayPct))
  }

  /** The winners' order: `dayPct or 0`, descending, as an ascending order on the negated key. */
  function WinnerKey(r: Record): (k: Option<real>)
    ensures k == Some(-r.position.dayPct.GetOr(0.0))
  {
    Some(-OrZero(r.position.dayPct))
  }

  /**
   * The loop over the holdings: each holding is classified into a record, collected in
   * order, and also collected into the attention list when it has a trigger.
   */
  method BuildRecords(holdings: seq<Position>, notes: map<string, string>)
    returns (records: seq<Record>, attention: seq<Record>)
    ensures records == RecordsOf(holdings, notes)
    ensures attention == Filter(records, Flagged)
  {
    records, attention := [], [];
    var i := 0;
    while i < |holdings|
      invariant 0 <= i <= |holdings|
      invariant records == RecordsOf(holdings[..i], notes)
      invariant attention == Filter(records, Flagged)
    {
      var record := RecordOf(holdings[i], notes);
      FilterAppend(records, record, Flagged);
      RecordsOfAppend(holdings, i, notes);
      if record.triggers != [] {
        attention := attention + [record];
      }
      records := records + [record];
      i := i + 1;
    }
    assert holdings[..i] == holdings;
  }

  lemma RecordsOfAppend(holdings: seq<Position>, i: nat, notes: map<string, string>)
    requires i < |holdings|
    ensures RecordsOf(holdings[..i + 1], notes) == RecordsOf(holdings[..i], notes) + [RecordOf(holdings[i], notes)]
  {
    var a, b := RecordsOf(holdings[..i + 1], notes), RecordsOf(holdings[..i], notes);
    forall k | 0 <= k < i + 1
      ensures a[k] == (b + [RecordOf(holdings[i], notes)])[k]
    {
      assert holdings[..i + 1][k] == holdings[k];
    }
  }

  /** The net percent: the gain over the cost, in percent, and 0 when the cost is 0. */
  function NetPct(totalCost: real, totalValue: real): (r: real)
    ensures totalCost == 0.0 ==> r == 0.0
    ensures totalCost != 0.0 ==> r * totalCost == (totalValue - totalCost) * 100.0
  {
    if totalCost != 0.0 then PercentOf(totalValue - totalCost, totalCost) else 0.0
  }

  /** `records[-1]["symbol"]`, or a dash when there are no records. */
  function TopSymbol(records: seq<Record>): string {
    if records == [] then "\U{2014}" else records[|records| - 1].position.symbol
  }

  /** The summary of the joined rows. */
  function Summarize(positions: seq<Position>, notes: map<string, string>): (s: Summary)
    ensures s.records == RecordsOf(Holdings(positions), notes)
    ensures multiset(s.attention) == multiset(Filter(s.records, Flagged)) && SortedOn(s.attention, AttentionKey)
    ensures s.flags == |s.attention|
    ensures s.topSymbol == TopSymbol(s.records)
    ensures s.losers == Smallest(s.records, MoversShown, LoserKey)
    ensures s.winners == Smallest(s.records, MoversShown, WinnerKey)
    ensures s.pctGain == NetPct(s.totalCost, s.totalValue)
  {
    var holdings := Holdings(positions);
    var records := RecordsOf(holdings, notes);
    var attention := SortOn(Filter(records, Flagged), AttentionKey);
    var totalCost := SumOf(holdings, CostBasisOf);
    var totalValue := SumOf(holdings, CurrentValueOf);
    Summary(records, attention,
            Smallest(records, MoversShown, LoserKey), Smallest(records, MoversShown, WinnerKey),
            totalCost, totalValue, SumOf(holdings, DayDollarOf),
            NetPct(totalCost, totalValue), TopSymbol(records), |attention|)
  }

  /**
   * The build: the distinct symbols of the sheet are resolved, each requested once and in
   * order of first appearance; the rows are joined with the quotes; and the summary is
   * made from the records of the holdings.
   */
  method Build(rows: seq<Row>, download: Request -> Download, notes: map<string, string>)
    returns (quotes: map<string, Quote>, summary: Summary)
    ensures ResolvedSheet(rows, download, CockpitConfig, quotes)
    ensures summary == Summarize(JoinAll(rows, quotes), notes)
  {
    quotes := ResolveSheet(rows, download, CockpitConfig);
    var holdings := Holdings(JoinAll(rows, quotes));
    var records, attention := BuildRecords(holdings, notes);
    var queue := SortOn(attention, AttentionKey);
    var totalCost := SumOf(holdings, CostBasisOf);
    var totalValue := SumOf(holdings, CurrentValueOf);
    var dayMove := SumOf(holdings, DayDollarOf);
    summary := Summary(records, queue,
                       Smallest(records, MoversShown, LoserKey), Smallest(records, MoversShown, WinnerKey),
                       totalCost, totalValue, dayMove, NetPct(totalCost, totalValue), TopSymbol(records), |queue|);
  }

  // ---------------------------------------------------------------------------
  // What the summary holds

  /**
   * The records are the holdings, in order: one per row with positive units, classified,
   * sorted by percent versus buy, and every one of them is shown whatever its status.
   */
  lemma RecordsAreHoldings(positions: seq<Position>, notes: map<string, string>)
    ensures var records := RecordsOf(Holdings(positions), notes);
      && (forall i, j :: 0 <= i < j < |records| ==>
            KeyLe(records[i].position.pctVsBuy, records[j].position.pctVsBuy))
      && (forall p :: p in positions && IsHolding(p) <==> exists i :: 0 <= i < |records| && records[i].position == p)
  {
    var h := Holdings(positions);
    var records := RecordsOf(h, notes);
    forall i, j | 0 <= i < j < |records|
      ensures KeyLe(records[i].position.pctVsBuy, records[j].position.pctVsBuy)
    {
      assert PctVsBuyKey(h[i]) == records[i].position.pctVsBuy;
      assert PctVsBuyKey(h[j]) == records[j].position.pctVsBuy;
    }
    forall p | p in positions && IsHolding(p)
      ensures exists i :: 0 <= i < |records| && records[i].position == p
    {
      var i :| 0 <= i < |h| && h[i] == p;
      assert records[i].position == p;
    }
  }

  /**
   * The top symbol is the last record's: the holding no other holding tops in percent
   * versus buy (one with an unknown percent, which sorts last, when there is one), and a
   * dash when no row has positive units.
   */
  lemma TopSymbolIsBest(positions: seq<Position>, notes: map<string, string>)
    ensures var s := Summarize(positions, notes);
      && (s.records == [] ==> s.topSymbol == "\U{2014}" && forall p :: p in positions ==> !IsHolding(p))
      && (s.records != [] ==>
            var top := s.records[|s.records| - 1].position;
            && s.topSymbol == top.symbol && top in positions && IsHolding(top)
            && forall p :: p in positions && IsHolding(p) ==> KeyLe(p.pctVsBuy, top.pctVsBuy))
  {
    var h := Holdings(positions);
    LastHoldingIsBest(h);
  }

  /** In the holdings, sorted by percent versus buy, no holding tops the last one. */
  lemma LastHoldingIsBest(h: seq<Position>)
    requires SortedOn(h, PctVsBuyKey)
    ensures h != [] ==> forall p :: p in h ==> KeyLe(p.pctVsBuy, h[|h| - 1].pctVsBuy)
  {
    if h != [] {
      var n := |h| - 1;
      forall p | p in h ensures KeyLe(p.pctVsBuy, h[n].pctVsBuy) {
        var i :| 0 <= i < |h| && h[i] == p;
        if i < n {
          assert KeyLe(PctVsBuyKey(h[i]), PctVsBuyKey(h[n]));
        }
      }
    }
  }

  /**
   * The totals add the known figures of the rows with positive units, in any order: rows
   * without units, with zero units, or with an unknown figure add nothing.
   */
  lemma TotalsOverRows(positions: seq<Position>, notes: map<string, string>)
    ensures Summarize(positions, notes).totalCost
      == SumOf(positions, (p: Position) => if IsHolding(p) then p.costBasis else None)
    ensures Summarize(positions, notes).totalValue
      == SumOf(positions, (p: Position) => if IsHolding(p) then p.currentValue else None)
    ensures Summarize(positions, notes).dayMove
      == SumOf(positions, (p: Position) => if IsHolding(p) then p.dayDollar else None)
  {
    HoldingsSum(positions, CostBasisOf, (p: Position) => if IsHolding(p) then p.costBasis else None);
    HoldingsSum(positions, CurrentValueOf, (p: Position) => if IsHolding(p) then p.currentValue else None);
    HoldingsSum(positions, DayDollarOf, (p: Position) => if IsHolding(p) then p.dayDollar else None);
  }

  /** With no known day move among the holdings the day aggregate is 0, and with no cost the net percent is 0. */
  lemma EmptyAggregatesAreZero(positions: seq<Position>, notes: map<string, string>)
    ensures !AnyDefined(Holdings(positions), DayDollarOf) ==> Summarize(positions, notes).dayMove == 0.0
    ensures !AnyDefined(Holdings(positions), CostBasisOf) ==>
      Summarize(positions, notes).totalCost == 0.0 && Summarize(positions, notes).pctGain == 0.0
  {
    if !AnyDefined(Holdings(positions), DayDollarOf) {
      SumOfAllUnknown(Holdings(positions), DayDollarOf);
    }
    if !AnyDefined(Holdings(positions), CostBasisOf) {
      SumOfAllUnknown(Holdings(positions), CostBasisOf);
    }
  }

  /**
   * The attention queue holds exactly the records with a trigger (those whose status is
   * not stable), each as often as it occurs, sorted by `dayPct or -999`.
   */
  lemma AttentionQueue(records: seq<Record>, notes: map<string, string>)
    requires forall i :: 0 <= i < |records| ==> records[i] == RecordOf(records[i].position, notes)
    ensures var queue := SortOn(Filter(records, Flagged), AttentionKey);
      && (forall r :: r in queue <==> r in records && r.status != Stable)
      && (forall r :: r in queue ==> multiset(queue)[r] == multiset(records)[r])
      && SortedOn(queue, AttentionKey)
  {
    var flagged := Filter(records, Flagged);
    var queue := SortOn(flagged, AttentionKey);
    forall r | r in records ensures Flagged(r) <==> r.status != Stable {
      var i :| 0 <= i < |records| && records[i] == r;
      StatusMeaning(r.position);
    }
    forall r ensures r in queue <==> r in flagged {
      assert r in queue <==> r in multiset(queue);
      assert r in flagged <==> r in multiset(flagged);
    }
    forall r | r in queue ensures multiset(queue)[r] == multiset(records)[r] {
      FilterMultiset(records, Flagged, r);
    }
  }

  /** Every record of the build is the classification of its own position. */
  lemma RecordsClassified(holdings: seq<Position>, notes: map<string, string>)
    ensures var records := RecordsOf(holdings, notes);
      forall i :: 0 <= i < |records| ==> records[i] == RecordOf(records[i].position, notes)
  {
  }

  /**
   * The losers are the first five records by `dayPct or 0` ascending (all of them when
   * there are fewer), and no record left out moved less than one kept; the winners
   * likewise by descending day move.
   */
  lemma Movers(records: seq<Record>)
    ensures var losers, winners := Smallest(records, MoversShown, LoserKey), Smallest(records, MoversShown, WinnerKey);
      && |losers| == Min(MoversShown, |records|) && |winners| == Min(MoversShown, |records|)
      && multiset(losers) <= multiset(records) && multiset(winners) <= multiset(records)
      && (forall y, z :: y in losers && z in multiset(records) - multiset(losers) ==>
            OrZero(y.position.dayPct) <= OrZero(z.position.dayPct))
      && (forall y, z :: y in winners && z in multiset(records) - multiset(winners) ==>
            OrZero(y.position.dayPct) >= OrZero(z.position.dayPct))
  {
    var losers, winners := Smallest(records, MoversShown, LoserKey), Smallest(records, MoversShown, WinnerKey);
    forall y, z | y in losers && z in multiset(records) - multiset(losers)
      ensures OrZero(y.position.dayPct) <= OrZero(z.position.dayPct)
    {
      assert KeyLe(LoserKey(y), LoserKey(z));
    }
    forall y, z | y in winners && z in multiset(records) - multiset(winners)
      ensures OrZero(y.position.dayPct) >= OrZero(z.position.dayPct)
    {
      assert KeyLe(WinnerKey(y), WinnerKey(z));
    }
  }

  // ---------------------------------------------------------------------------
  // The payloads handed to the report

  /** A name cell as the frame holds it: text, a number, or NaN when blank. */
  function CellValue(c: Cell): Value {
    match c
    case Blank => Num(NaN)
    case Text(t) => Str(t)
    case Number(x) => Num(Float(x))
  }

  /** A figure as the report receives it: the float, or null when unknown. */
  function Shown(x: Option<real>): Value {
    if x.Some? then Num(Float(x.value)) else Null
  }

  /** A name cell as the report receives it: null when blank. */
  function ShownCell(c: Cell): Value {
    match c
    case Blank => Null
    case Text(t) => Str(t)
    case Number(x) => Num(Float(x))
  }

  function LabelValues(triggers: seq<Trigger>): (r: seq<Value>)
    ensures |r| == |triggers| && forall i :: 0 <= i < |r| ==> r[i] == Str(Label(triggers[i]))
  {
    seq(|triggers|, i requires 0 <= i < |triggers| => Str(Label(triggers[i])))
  }

  /** The keys of a record dictionary, in the order the holdings loop writes them. */
  const RecordKeys: seq<string> := ["name", "symbol", "units", "buy", "current", "costBasis", "currentValue",
    "pctVsBuy", "pctVsDec", "dayChange", "dayPct", "weekPct", "target", "status", "triggers", "note", "dayDollar"]

  /** The known-or-unknown figure a numeric key of the record dictionary holds; any other key holds none. */
  function Figure(p: Position, key: string): Option<real> {
    match key
    case "buy" => p.buy
    case "current" => p.current
    case "costBasis" => p.costBasis
    case "currentValue" => p.currentValue
    case "pctVsBuy" => p.pctVsBuy
    case "pctVsDec" => p.pctVsRef
    case "dayChange" => p.dayChange
    case "dayPct" => p.dayPct
    case "weekPct" => p.weekPct
    case "target" => p.target
    case "dayDollar" => p.dayDollar
    case _ => None
  }

  /**
   * The value under `key` in the record dictionary built in the holdings loop, with an
   * unknown figure as NaN (how the frame holds it), or, when `shown`, as it leaves the
   * sanitiser, with null for every unknown figure and for a blank name.
   */
  function Field(r: Record, key: string, shown: bool): Value {
    match key
    case "name" => if shown then ShownCell(r.position.name) else CellValue(r.position.name)
    case "symbol" => Str(r.position.symbol)
    case "units" => Num(Float(OrZero(r.position.units)))
    case "status" => Str(StatusName(r.status))
    case "triggers" => List(LabelValues(r.triggers))
    case "note" => Str(r.note)
    case _ => if shown then Shown(Figure(r.position, key)) else FrameNumber(Figure(r.position, key))
  }

  function RecordDict(r: Record, shown: bool): (v: Value)
    ensures v.Object? && Keys(v.members) == RecordKeys
    ensures forall i :: 0 <= i < |RecordKeys| ==> v.members[i].value == Field(r, RecordKeys[i], shown)
  {
    Object(seq(|RecordKeys|, i requires 0 <= i < |RecordKeys| => Member(RecordKeys[i], Field(r, RecordKeys[i], shown))))
  }

  /** The record dictionary as built, before sanitising. */
  function RecordValue(r: Record): Value {
    RecordDict(r, false)
  }

  /** Sanitising a record dictionary turns exactly its unknown figures (and a blank name) into null and keeps everything else. */
  lemma CleanRecord(r: Record)
    ensures Clean(RecordValue(r)) == RecordDict(r, true)
  {
    var raw, shown := RecordValue(r).members, RecordDict(r, true).members;
    forall i | 0 <= i < |raw| ensures raw[i].key == shown[i].key && Clean(raw[i].value) == shown[i].value {
      CleanField(r, RecordKeys[i]);
    }
    CleanMembersPointwise(raw, shown);
  }

  lemma CleanField(r: Record, key: string)
    ensures Clean(Field(r, key, false)) == Field(r, key, true)
  {
    if key == "triggers" {
      CleanLabels(r.triggers);
    }
  }

  /** The trigger labels are strings, which the sanitiser keeps. */
  lemma CleanLabels(triggers: seq<Trigger>)
    ensures Clean(List(LabelValues(triggers))) == List(LabelValues(triggers))
  {
    var labels := LabelValues(triggers);
    assert CleanItems(labels) == labels;
  }

  /** Cleaning a dictionary whose every value cleans to the corresponding entry of `shown`. */
  lemma CleanMembersPointwise(raw: seq<Member>, shown: seq<Member>)
    requires |raw| == |shown|
    requires forall i :: 0 <= i < |raw| ==> raw[i].key == shown[i].key && Clean(raw[i].value) == shown[i].value
    ensures CleanMembers(raw) == shown
  {
  }

  /** A list of records as the sanitiser hands it to `json.dumps`. */
  function RecordsValue(records: seq<Record>): (v: Value)
    ensures v.List? && |v.items| == |records| && forall i :: 0 <= i < |records| ==> v.items[i] == RecordValue(records[i])
  {
    List(seq(|records|, i requires 0 <= i < |records| => RecordValue(records[i])))
  }

  /**
   * The four payloads of the report: all records, the first ten of the attention queue, the
   * winners and the losers, each a sanitised list of the sanitised record dictionaries.
   */
  function Payloads(s: Summary): (r: seq<Value>)
    ensures |r| == 4 && forall i :: 0 <= i < 4 ==> Sanitized(r[i]) && r[i].List?
    ensures |r[0].items| == |s.records| && |r[1].items| == Min(QueueShown, |s.attention|)
    ensures |r[2].items| == |s.winners| && |r[3].items| == |s.losers|
  {
    [Clean(RecordsValue(s.records)), Clean(RecordsValue(s.attention[..Min(QueueShown, |s.attention|)])),
     Clean(RecordsValue(s.winners)), Clean(RecordsValue(s.losers))]
  }

  /**
   * The flag count is the length of the whole attention queue (every record with a
   * trigger), while the attention payload holds only its first ten entries.
   */
  lemma FlagsCountWholeQueue(positions: seq<Position>, notes: map<string, string>)
    ensures var s := Summarize(positions, notes);
      && s.flags == |Filter(s.records, Flagged)|
      && |Payloads(s)[1].items| == Min(QueueShown, s.flags)
  {
  }

  /** Every payload entry is the shown form of its record. */
  lemma PayloadEntries(records: seq<Record>)
    ensures Clean(RecordsValue(records)) == List(seq(|records|, i requires 0 <= i < |records| => RecordDict(records[i], true)))
  {
    var raw := RecordsValue(records).items;
    forall i | 0 <= i < |raw| ensures Clean(raw[i]) == RecordDict(records[i], true) {
      CleanRecord(records[i]);
    }
    assert CleanItems(raw) == seq(|records|, i requires 0 <= i < |records| => RecordDict(records[i], true));
  }

  // ---------------------------------------------------------------------------
  // Worked cases

  /**
   * A row with 10 units bought at 100, a reference price of 90, a target of 130 and a
   * snapshot of 95 whose quote failed: the current price falls back to 95, it is 5% under
   * buy and 50/9 % (about +5.56%) over the reference, it has no day or week figures, and
   * it is stable.
   */
  lemma FailedQuoteFallsBack(row: Row, quotes: map<string, Quote>)
    requires row.units == Number(10.0) && row.buyPrice == Number(100.0) && row.refPrice == Number(90.0)
    requires row.targetPrice == Number(130.0) && row.currentPrice == Number(95.0)
    requires Normalize(row.symbol) !in quotes
    ensures var p := Join(row, quotes);
      && p.current == Some(95.0) && p.pctVsBuy == Some(-5.0) && p.pctVsRef == Some(50.0 / 9.0)
      && p.dayPct.None? && p.weekPct.None? && p.costBasis == Some(1000.0) && p.currentValue == Some(950.0)
      && Triggers(p) == [] && Classify(p).0 == Stable
  {
    var p := Join(row, quotes);
    assert p.pctVsRef.value * 90.0 == 500.0;
  }

  /** The same row with a quote whose day move is -4%: the day-drop rule fires and the row needs attention. */
  lemma DayDropNeedsAttention(row: Row, quotes: map<string, Quote>)
    requires row.units == Number(10.0) && row.buyPrice == Number(100.0) && row.refPrice == Number(90.0)
    requires row.targetPrice == Number(130.0)
    requires Normalize(row.symbol) in quotes && quotes[Normalize(row.symbol)].dayPct == Some(-4.0)
    ensures DayDrop in Triggers(Join(row, quotes)) && Classify(Join(row, quotes)).0 == Attention
  {
    StatusMeaning(Join(row, quotes));
  }

  /** A position at 105 with a target of 100 and no decline: only the target rule fires, and the status is action. */
  lemma TargetReachedIsAction(p: Position)
    requires p.target == Some(100.0) && p.current == Some(105.0)
    requires p.dayPct.None? && p.weekPct.None? && p.pctVsBuy.None? && p.pctVsRef.None?
    ensures Triggers(p) == [TargetReached] && Classify(p).0 == Action
  {
  }
}

/**
 * The alert classifier of the control room: five threshold rules over a position's
 * metrics give an ordered trigger list, and the kinds of trigger that fired give its status.
 */
module Alerts {
  import opened Wrappers
  import opened Quotes
  import opened Metrics

  /** The five rules, in the order their triggers are listed. */
  datatype Trigger = DayDrop | WeekDrop | UnderBuy | UnderRef | TargetReached

  datatype Status = Stable | Attention | Action

  /** The trigger texts shown to the user; the four decline rules are marked with a down triangle. */
  function Label(t: Trigger): string {
    match t
    case DayDrop => "\U{25BC} Day drop >3%"
    case WeekDrop => "\U{25BC} Week drop >10%"
    case UnderBuy => "\U{25BC} 15% under buy"
    case UnderRef => "\U{25BC} 20% under Dec ref"
    case TargetReached => "\U{1F3AF} Target reached"
  }

  function StatusName(s: Status): string {
    match s
    case Stable => "stable"
    case Attention => "attention"
    case Action => "action"
  }

  /** `text.startswith("▼")`. */
  predicate IsDecline(text: string) {
    |text| > 0 && text[0] == '\U{25BC}'
  }

  /** The position of a trigger in the rule order. */
  function Rank(t: Trigger): nat {
    match t
    case DayDrop => 0
    case WeekDrop => 1
    case UnderBuy => 2
    case UnderRef => 3
    case TargetReached => 4
  }

  /** `x or 0`: unknown and zero both read as 0. */
  function OrZero(x: Option<real>): (r: real)
    ensures r == x.GetOr(0.0)
  {
    if Truthy(x) then x.value else 0.0
  }

  /**
   * When each rule fires, stated on the known metrics: a decline rule needs its metric
   * known and at or below its threshold; the target rule needs target and current known,
   * non-zero, and the current at or above the target.
   */
  predicate Fires(t: Trigger, p: Position) {
    match t
    case DayDrop => p.dayPct.Some? && p.dayPct.value <= -3.0
    case WeekDrop => p.weekPct.Some? && p.weekPct.value <= -10.0
    case UnderBuy => p.pctVsBuy.Some? && p.pctVsBuy.value <= -15.0
    case UnderRef => p.pctVsRef.Some? && p.pctVsRef.value <= -20.0
    case TargetReached => Truthy(p.target) && Truthy(p.current) && p.current.value >= p.target.value
  }

  /**
   * The trigger list of `classify`: each rule is checked on its metric read with `or 0`,
   * and the fired ones are listed in rule order.
   */
  function Triggers(p: Position): (r: seq<Trigger>)
    ensures forall t :: t in r <==> Fires(t, p)
    ensures forall i, j :: 0 <= i < j < |r| ==> Rank(r[i]) < Rank(r[j])
  {
    (if OrZero(p.dayPct) <= -3.0 then [DayDrop] else []) +
    (if OrZero(p.weekPct) <= -10.0 then [WeekDrop] else []) +
    (if OrZero(p.pctVsBuy) <= -15.0 then [UnderBuy] else []) +
    (if OrZero(p.pctVsRef) <= -20.0 then [UnderRef] else []) +
    (if Truthy(p.target) && Truthy(p.current) && p.current.value >= p.target.value then [TargetReached] else [])
  }

  /** A list whose triggers appear in strictly increasing rule order. */
  predicate InRuleOrder(r: seq<Trigger>) {
    forall i, j :: 0 <= i < j < |r| ==> Rank(r[i]) < Rank(r[j])
  }

  /** The status of a trigger list: stable without triggers, attention when a decline label is among them, action otherwise. */
  function StatusOf(triggers: seq<Trigger>): (r: Status)
    ensures r == Stable <==> triggers == []
    ensures r == Attention <==> exists i :: 0 <= i < |triggers| && triggers[i] != TargetReached
    ensures r == Action <==> triggers != [] && forall i :: 0 <= i < |triggers| ==> triggers[i] == TargetReached
  {
    if triggers == [] then Stable
    else if exists i :: 0 <= i < |triggers| && IsDecline(Label(triggers[i])) then Attention
    else Action
  }

  /** `classify`: the status and the trigger list of a position. */
  function Classify(p: Position): (r: (Status, seq<Trigger>))
    ensures forall t :: t in r.1 <==> Fires(t, p)
    ensures InRuleOrder(r.1)
    ensures r.0 == Stable <==> r.1 == []
    ensures r.0 == Attention <==> exists i :: 0 <= i < |r.1| && r.1[i] != TargetReached
  {
    var triggers := Triggers(p);
    (StatusOf(triggers), triggers)
  }

  /** Exactly the four decline rules carry the decline mark. */
  lemma DeclineLabels(t: Trigger)
    ensures IsDecline(Label(t)) <==> t != TargetReached
  {
    match t
    case DayDrop => assert Label(t)[0] == '\U{25BC}';
    case WeekDrop => assert Label(t)[0] == '\U{25BC}';
    case UnderBuy => assert Label(t)[0] == '\U{25BC}';
    case UnderRef => assert Label(t)[0] == '\U{25BC}';
    case TargetReached => assert Label(t)[0] == '\U{1F3AF}';
  }

  /**
   * The status in terms of the rules: stable exactly when no rule fires, attention exactly
   * when a decline rule fires (whether or not the target rule does too), and action exactly
   * when the target rule is the only one.
   */
  lemma StatusMeaning(p: Position)
    ensures Classify(p).0 == Stable <==> forall t :: !Fires(t, p)
    ensures Classify(p).0 == Attention <==> exists t :: t != TargetReached && Fires(t, p)
    ensures Classify(p).0 == Action <==> Triggers(p) == [TargetReached]
  {
    var r := Triggers(p);
    StatusOfList(r);
    if r != [] {
      assert Fires(r[0], p);
    }
  }

  /** On a list in rule order: stable when empty, attention when it holds a decline trigger, action when it is the target trigger alone. */
  lemma StatusOfList(r: seq<Trigger>)
    requires InRuleOrder(r)
    ensures StatusOf(r) == Stable <==> r == []
    ensures StatusOf(r) == Attention <==> exists t :: t in r && t != TargetReached
    ensures StatusOf(r) == Action <==> r == [TargetReached]
  {
    forall i | 0 <= i < |r| ensures IsDecline(Label(r[i])) <==> r[i] != TargetReached {
      DeclineLabels(r[i]);
    }
    if exists i :: 0 <= i < |r| && IsDecline(Label(r[i])) {
      var i :| 0 <= i < |r| && IsDecline(Label(r[i]));
      assert r[i] in r && r[i] != TargetReached;
    } else if r != [] {
      assert forall i :: 0 <= i < |r| ==> r[i] == TargetReached;
      RankSpread(r);
      assert r == [TargetReached];
    }
  }

  /** In a list in rule order, the ranks of the first and last entry are at least the list's length minus one apart. */
  lemma {:induction false} RankSpread(r: seq<Trigger>)
    requires InRuleOrder(r)
    ensures |r| > 0 ==> Rank(r[|r| - 1]) >= Rank(r[0]) + |r| - 1
  {
    if |r| > 1 {
      var init := r[..|r| - 1];
      RankSpread(init);
      assert Rank(init[|init| - 1]) < Rank(r[|r| - 1]);
    }
  }

  /** Missing data never raises an alert: with every metric unknown, the position is stable. */
  lemma MissingDataIsStable(p: Position)
    requires p.dayPct.None? && p.weekPct.None? && p.pctVsBuy.None? && p.pctVsRef.None?
    requires p.target.None? || p.current.None?
    ensures Triggers(p) == [] && Classify(p).0 == Stable
  {
  }

  /** The day rule is inclusive at -3%: -3.0 fires it, -2.99 does not. */
  lemma DayDropBoundary(p: Position, q: Position)
    requires p.dayPct == Some(-3.0) && q.dayPct == Some(-2.99)
    ensures DayDrop in Triggers(p) && DayDrop !in Triggers(q)
  {
  }

  /** The classification depends on nothing but the rule metrics of the position. */
  lemma ClassifyDependsOnMetrics(p: Position, q: Position)
    requires p.dayPct == q.dayPct && p.weekPct == q.weekPct && p.pctVsBuy == q.pctVsBuy && p.pctVsRef == q.pctVsRef
    requires p.target == q.target && p.current == q.current
    ensures Classify(p) == Classify(q)
  {
  }
}

/** The list view's cheaper risk policy: one coarse level per event from the
    RSVP rate and the number of overdue critical tasks alone. */
module BatchRisk {
  import opened Common
  import opened Domain
  import opened RiskRules

  datatype EventRiskOverview = EventRiskOverview(eventId: int, eventTitle: string, riskLevel: Severity, riskCount: nat)

  /** `rsvpRate < pct`, where the rate is taken as 0 when the capacity is unset or zero. */
  predicate QuickRateBelow(e: Event, pct: int) {
    if HasCapacity(e) then PercentBelow(ConfirmedCount(e), e.capacity.value, pct) else 0 < pct
  }

  /** The overview the policy assigns to one event: high when the rate is under 30% or some
      critical task is overdue, medium when the rate is under 50%, low otherwise. */
  function Overview(e: Event, now: int): (o: EventRiskOverview)
    ensures o.eventId == e.id && o.eventTitle == e.title
    ensures o.riskLevel == High <==>
      !HasCapacity(e) || PercentBelow(ConfirmedCount(e), e.capacity.value, 30)
      || exists t :: t in e.tasks && IsOverdueCritical(t, now)
    ensures o.riskLevel == Medium <==>
      && HasCapacity(e) && !PercentBelow(ConfirmedCount(e), e.capacity.value, 30)
      && PercentBelow(ConfirmedCount(e), e.capacity.value, 50)
      && forall t | t in e.tasks :: !IsOverdueCritical(t, now)
    ensures o.riskCount == |OverdueCriticalTasks(e, now)| + (if QuickRateBelow(e, 30) then 1 else 0)
  {
    var overdue := OverdueCriticalTasks(e, now);
    assert |overdue| > 0 ==> overdue[0] in overdue;
    var level :=
      if QuickRateBelow(e, 30) || |overdue| > 0 then High
      else if QuickRateBelow(e, 50) then Medium
      else Low;
    EventRiskOverview(e.id, e.title, level, |overdue| + (if QuickRateBelow(e, 30) then 1 else 0))
  }

  /** One event of the list: starts at "low" and raises the level as the source's `if` chain does. */
  method QuickRisk(e: Event, now: int) returns (o: EventRiskOverview)
    ensures o == Overview(e, now)
  {
    var confirmed := Count(e.rsvps, IsConfirmed);
    var below30 := if HasCapacity(e) then PercentBelow(confirmed, e.capacity.value, 30) else true;
    var below50 := if HasCapacity(e) then PercentBelow(confirmed, e.capacity.value, 50) else true;
    var overdue := |Filter(e.tasks, (t: Task) => IsOverdueCritical(t, now))|;
    var riskLevel := Low;
    if below30 || overdue > 0 {
      riskLevel := High;
    } else if below50 || overdue > 2 {
      riskLevel := Medium;
    }
    o := EventRiskOverview(e.id, e.title, riskLevel, overdue + (if below30 then 1 else 0));
  }

  /** `getAllEventsWithRisks`: the overview of every event, in the order the events come. */
  method GetAllEventsWithRisks(events: seq<Event>, now: int) returns (out: seq<EventRiskOverview>)
    ensures |out| == |events|
    ensures forall i | 0 <= i < |events| :: out[i] == Overview(events[i], now)
  {
    out := [];
    for i := 0 to |events|
      invariant |out| == i
      invariant forall j | 0 <= j < i :: out[j] == Overview(events[j], now)
    {
      var o := QuickRisk(events[i], now);
      out := out + [o];
    }
  }

  /** Without a (non-zero) capacity the rate counts as 0, so the event is always high,
      and the missing rate adds one to the count. */
  lemma NoCapacityIsHigh(e: Event, now: int)
    requires !HasCapacity(e)
    ensures Overview(e, now).riskLevel == High
    ensures Overview(e, now).riskCount == |OverdueCriticalTasks(e, now)| + 1
  {
  }

  /** The rate thresholds in the source's terms: the exact percentage is below 30 or 50. */
  lemma OverviewExact(e: Event, now: int)
    requires HasCapacity(e)
    ensures var rate := Percentage(ConfirmedCount(e), e.capacity.value);
      && (Overview(e, now).riskLevel == High <==>
            rate < 30.0 || |OverdueCriticalTasks(e, now)| > 0)
      && (Overview(e, now).riskLevel == Medium <==>
            30.0 <= rate < 50.0 && |OverdueCriticalTasks(e, now)| == 0)
  {
    PercentBelowExact(ConfirmedCount(e), e.capacity.value, 30);
    PercentBelowExact(ConfirmedCount(e), e.capacity.value, 50);
    var overdue := OverdueCriticalTasks(e, now);
    if |overdue| > 0 {
      assert overdue[0] in overdue;
    }
  }

  /** Where the event has a capacity, a high overview is backed by a high finding
      of the full analysis (a low RSVP rate or an overdue critical task). */
  lemma HighOverviewHasHighFinding(e: Event, now: int, fmt: Formats)
    requires HasCapacity(e) && Overview(e, now).riskLevel == High
    ensures exists f :: f in Findings(e, now, fmt) && f.severity == High
  {
    var rsvp := LowRsvpRule(e, fmt);
    if rsvp.Some? && rsvp.value.severity == High {
      HighRuleReported(LowRsvp, e, now, fmt);
    } else {
      HighRuleReported(OverdueTasks, e, now, fmt);
    }
  }

  /** The two policies disagree: an event with neither capacity nor tasks is high in
      the list view, yet the full analysis finds nothing. */
  lemma ListViewStricterThanAnalysis(e: Event, now: int, fmt: Formats)
    requires !HasCapacity(e) && e.tasks == []
    ensures Overview(e, now).riskLevel == High
    ensures Findings(e, now, fmt) == []
  {
    FindingsShape(e, now, fmt);
  }
}

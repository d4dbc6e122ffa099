/** The single-event risk analysis: six independent rules, each adding at
    most one finding, folded into a weighted score, a level and a summary. */
module RiskRules {
  import opened Common
  import opened Text
  import opened Domain

  datatype Severity = Low | Medium | High {
    function Name(): string {
      match this
      case Low => "low"
      case Medium => "medium"
      case High => "high"
    }

    /** The score a finding of this severity contributes. */
    function Weight(): nat {
      match this
      case High => 3
      case Medium => 2
      case Low => 1
    }
  }

  /** The rules, in the order they run. */
  datatype RiskType = LowRsvp | OverdueTasks | TasksDueSoon | LowCompletion | EventApproaching | UnassignedTasks {
    function Name(): string {
      match this
      case LowRsvp => "low_rsvp"
      case OverdueTasks => "overdue_tasks"
      case TasksDueSoon => "tasks_due_soon"
      case LowCompletion => "low_completion"
      case EventApproaching => "event_approaching"
      case UnassignedTasks => "unassigned_tasks"
    }

    function Rank(): nat {
      match this
      case LowRsvp => 1
      case OverdueTasks => 2
      case TasksDueSoon => 3
      case LowCompletion => 4
      case EventApproaching => 5
      case UnassignedTasks => 6
    }
  }

  /** The severities are told apart by their JSON strings. */
  lemma SeverityNamesDistinct(a: Severity, b: Severity)
    ensures a.Name() == b.Name() <==> a == b
  {
  }

  /** The risk types are told apart by their JSON `type` strings. */
  lemma RiskTypeNamesDistinct(a: RiskType, b: RiskType)
    ensures a.Name() == b.Name() <==> a == b
  {
  }

  /** The task summaries a finding lists: `{id, title, dueAt}` or `{id, title, priority}`. */
  datatype TaskRef =
    | DueRef(id: int, title: string, dueAt: Option<int>)
    | PriorityRef(id: int, title: string, priority: Option<string>)

  /** The structured `data` payload of a finding. */
  datatype RiskData =
    | RsvpData(confirmedRsvps: nat, capacity: int)
    | TaskList(tasks: seq<TaskRef>)
    | CompletionData(completedTasks: nat, totalTasks: nat)
    | ApproachData(daysUntilEvent: int, incompleteTasks: nat)

  datatype Finding = Finding(kind: RiskType, severity: Severity, message: string, suggestion: string, data: RiskData)

  datatype Summary = Summary(totalRisks: nat, highRisks: nat, mediumRisks: nat, lowRisks: nat)

  datatype RiskAnalysis = RiskAnalysis(
    eventId: int,
    eventTitle: string,
    riskLevel: Severity,
    riskScore: nat,
    risks: seq<Finding>,
    summary: Summary)

  function DueRefs(ts: seq<Task>): seq<TaskRef> {
    seq(|ts|, i requires 0 <= i < |ts| => DueRef(ts[i].id, ts[i].title, ts[i].dueAt))
  }

  function PriorityRefs(ts: seq<Task>): seq<TaskRef> {
    seq(|ts|, i requires 0 <= i < |ts| => PriorityRef(ts[i].id, ts[i].title, ts[i].priority))
  }

  // Rule 1: RSVP rate against capacity.
  function LowRsvpRule(e: Event, fmt: Formats): (r: Option<Finding>)
    ensures r.Some? ==> HasCapacity(e) && r.value.kind == LowRsvp && r.value.severity != Low
    ensures r.Some? ==> r.value.data == RsvpData(ConfirmedCount(e), e.capacity.value)
    ensures (r.Some? && r.value.severity == High) <==>
      HasCapacity(e) && PercentBelow(ConfirmedCount(e), e.capacity.value, 30)
    ensures (r.Some? && r.value.severity == Medium) <==>
      HasCapacity(e) && !PercentBelow(ConfirmedCount(e), e.capacity.value, 30)
      && PercentBelow(ConfirmedCount(e), e.capacity.value, 50)
  {
    if !HasCapacity(e) then None
    else
      var confirmed, capacity := ConfirmedCount(e), e.capacity.value;
      var counts := NatToString(confirmed) + "/" + IntToString(capacity);
      var data := RsvpData(confirmed, capacity);
      if PercentBelow(confirmed, capacity, 30) then
        Some(Finding(LowRsvp, High,
          "Only " + fmt.percent(confirmed, capacity) + "% capacity filled (" + counts + " confirmed)",
          "Send reminder emails to increase attendance", data))
      else if PercentBelow(confirmed, capacity, 50) then
        Some(Finding(LowRsvp, Medium,
          "RSVP rate at " + fmt.percent(confirmed, capacity) + "% (" + counts + ")",
          "Consider sending follow-up emails", data))
      else None
  }

  /** Rule 1 in the source's terms: the exact percentage `confirmed / capacity * 100`
      is below 30 for a high finding, in [30, 50) for a medium one. */
  lemma LowRsvpRuleExact(e: Event, fmt: Formats)
    requires HasCapacity(e)
    ensures var rate := Percentage(ConfirmedCount(e), e.capacity.value);
      && (LowRsvpRule(e, fmt).Some? && LowRsvpRule(e, fmt).value.severity == High <==> rate < 30.0)
      && (LowRsvpRule(e, fmt).Some? && LowRsvpRule(e, fmt).value.severity == Medium <==> 30.0 <= rate < 50.0)
      && (LowRsvpRule(e, fmt).None? <==> rate >= 50.0)
  {
    PercentBelowExact(ConfirmedCount(e), e.capacity.value, 30);
    PercentBelowExact(ConfirmedCount(e), e.capacity.value, 50);
  }

  /** Rule 1 for a positive capacity, by cross-multiplication. */
  lemma LowRsvpRuleCrossMultiplied(e: Event, fmt: Formats)
    requires e.capacity.Some? && e.capacity.value > 0
    ensures var c, cap := ConfirmedCount(e), e.capacity.value;
      && (LowRsvpRule(e, fmt).Some? && LowRsvpRule(e, fmt).value.severity == High <==> c * 100 < 30 * cap)
      && (LowRsvpRule(e, fmt).Some? && LowRsvpRule(e, fmt).value.severity == Medium <==> 30 * cap <= c * 100 < 50 * cap)
  {
  }

  /** Without a (non-zero) capacity, rule 1 never fires. */
  lemma LowRsvpNeedsCapacity(e: Event, fmt: Formats)
    requires !HasCapacity(e)
    ensures LowRsvpRule(e, fmt).None?
  {
  }

  // Rule 2: overdue Urgent/High tasks.
  function OverdueRule(e: Event, now: int): (r: Option<Finding>)
    ensures r.Some? <==> exists t :: t in e.tasks && IsOverdueCritical(t, now)
    ensures r.Some? ==> r.value.kind == OverdueTasks && r.value.severity == High
    ensures r.Some? ==> r.value.data == TaskList(DueRefs(OverdueCriticalTasks(e, now)))
  {
    var overdue := OverdueCriticalTasks(e, now);
    var n := |overdue|;
    if n > 0 then
      assert overdue[0] in overdue;
      Some(Finding(OverdueTasks, High,
        NatToString(n) + " critical task" + Plural(n) + " overdue",
        "Reassign tasks or extend deadlines immediately",
        TaskList(DueRefs(overdue))))
    else
      assert forall t | t in e.tasks :: !IsOverdueCritical(t, now);
      None
  }

  // Rule 3: tasks due within the next 24 hours.
  function DueSoonRule(e: Event, now: int): (r: Option<Finding>)
    ensures r.Some? <==> exists t :: t in e.tasks && IsDueSoon(t, now)
    ensures r.Some? ==> r.value.kind == TasksDueSoon && r.value.severity == Medium
    ensures r.Some? ==> r.value.data == TaskList(DueRefs(DueSoonTasks(e, now)))
  {
    var soon := DueSoonTasks(e, now);
    var n := |soon|;
    if n > 0 then
      assert soon[0] in soon;
      Some(Finding(TasksDueSoon, Medium,
        NatToString(n) + " task" + Plural(n) + " due within 24 hours",
        "Send reminders to task assignees",
        TaskList(DueRefs(soon))))
    else
      assert forall t | t in e.tasks :: !IsDueSoon(t, now);
      None
  }

  // Rule 4: share of completed tasks.
  function LowCompletionRule(e: Event, fmt: Formats): (r: Option<Finding>)
    ensures r.Some? <==> |e.tasks| > 0 && 2 * CompletedCount(e) < |e.tasks|
    ensures r.Some? ==> r.value.kind == LowCompletion && r.value.severity == Medium
    ensures r.Some? ==> r.value.data == CompletionData(CompletedCount(e), |e.tasks|)
  {
    var total, completed := |e.tasks|, CompletedCount(e);
    if total > 0 && PercentBelow(completed, total, 50) then
      Some(Finding(LowCompletion, Medium,
        "Only " + fmt.percent(completed, total) + "% of tasks completed ("
          + NatToString(completed) + "/" + NatToString(total) + ")",
        "Review task assignments and provide support",
        CompletionData(completed, total)))
    else
      None
  }

  /** Rule 4 in the source's terms: the exact completion percentage is below 50. */
  lemma LowCompletionRuleExact(e: Event, fmt: Formats)
    requires |e.tasks| > 0
    ensures LowCompletionRule(e, fmt).Some? <==> Percentage(CompletedCount(e), |e.tasks|) < 50.0
  {
    PercentBelowExact(CompletedCount(e), |e.tasks|, 50);
  }

  // Rule 5: the event starts within a week and work is still open.
  function EventApproachingRule(e: Event, now: int): (r: Option<Finding>)
    ensures r.Some? <==>
      0 < e.startsAt - now <= 7 * DayMs && exists t :: t in e.tasks && !IsCompleted(t)
    ensures r.Some? ==> r.value.kind == EventApproaching && r.value.severity != Low
    ensures r.Some? ==> (r.value.severity == High <==> e.startsAt - now <= 3 * DayMs)
    ensures r.Some? ==> r.value.data == ApproachData(CeilDiv(e.startsAt - now, DayMs), IncompleteCount(e))
  {
    var untilStart := e.startsAt - now;
    var incomplete := IncompleteCount(e);
    if 0 < untilStart <= 7 * DayMs && incomplete > 0 then
      var days := CeilDiv(untilStart, DayMs);
      Some(Finding(EventApproaching, if untilStart <= 3 * DayMs then High else Medium,
        "Event in " + IntToString(days) + " day" + Plural(days) + " with "
          + NatToString(incomplete) + " incomplete task" + Plural(incomplete),
        "Prioritize remaining tasks and check resource availability",
        ApproachData(days, incomplete)))
    else None
  }

  // Rule 6: Urgent/High tasks nobody is assigned to, whatever their status.
  function UnassignedRule(e: Event): (r: Option<Finding>)
    ensures r.Some? <==> exists t :: t in e.tasks && IsUnassigned(t) && IsCritical(t)
    ensures r.Some? ==> r.value.kind == UnassignedTasks && r.value.severity == High
    ensures r.Some? ==> r.value.data == TaskList(PriorityRefs(UnassignedCriticalTasks(e)))
  {
    var unassigned := UnassignedCriticalTasks(e);
    var n := |unassigned|;
    if n > 0 then
      assert unassigned[0] in unassigned;
      Some(Finding(UnassignedTasks, High,
        NatToString(n) + " critical task" + Plural(n) + " not assigned",
        "Assign tasks to available volunteers immediately",
        TaskList(PriorityRefs(unassigned))))
    else
      assert forall t | t in e.tasks :: !(IsUnassigned(t) && IsCritical(t));
      None
  }

  function AsSeq(o: Option<Finding>): seq<Finding> {
    if o.Some? then [o.value] else []
  }

  /** The rule that reports findings of kind `k`. */
  function Rule(k: RiskType, e: Event, now: int, fmt: Formats): Option<Finding> {
    match k
    case LowRsvp => LowRsvpRule(e, fmt)
    case OverdueTasks => OverdueRule(e, now)
    case TasksDueSoon => DueSoonRule(e, now)
    case LowCompletion => LowCompletionRule(e, fmt)
    case EventApproaching => EventApproachingRule(e, now)
    case UnassignedTasks => UnassignedRule(e)
  }

  /** The rule that runs `k`-th. */
  function RankedKind(k: int): (r: RiskType)
    requires 1 <= k <= 6
    ensures r.Rank() == k
  {
    if k == 1 then LowRsvp
    else if k == 2 then OverdueTasks
    else if k == 3 then TasksDueSoon
    else if k == 4 then LowCompletion
    else if k == 5 then EventApproaching
    else UnassignedTasks
  }

  /** The rules as a table from kind to result. */
  function RulesOf(e: Event, now: int, fmt: Formats): RiskType -> Option<Finding> {
    k => Rule(k, e, now, fmt)
  }

  /** The findings pushed once the first `k` rules of the table have run. */
  function FindingsUpTo(k: nat, rules: RiskType -> Option<Finding>): seq<Finding>
    requires k <= 6
  {
    if k == 0 then []
    else FindingsUpTo(k - 1, rules) + AsSeq(rules(RankedKind(k)))
  }

  /** The findings of all six rules, in rule order. */
  function Findings(e: Event, now: int, fmt: Formats): seq<Finding> {
    FindingsUpTo(6, RulesOf(e, now, fmt))
  }

  /** Findings listed in strictly increasing rule order. */
  predicate InRuleOrder(fs: seq<Finding>) {
    forall i, j | 0 <= i < j < |fs| :: fs[i].kind.Rank() < fs[j].kind.Rank()
  }

  /** Slot `o` holds nothing, or a finding of kind `k` that is not of low severity. */
  predicate SlotFor(o: Option<Finding>, k: RiskType) {
    o.Some? ==> o.value.kind == k && o.value.severity != Low
  }

  /** Pushing the finding of rank `k` after findings of smaller rank keeps rule order. */
  lemma PushInOrder(xs: seq<Finding>, o: Option<Finding>, k: RiskType)
    requires InRuleOrder(xs) && SlotFor(o, k)
    requires forall f | f in xs :: f.kind.Rank() < k.Rank() && f.severity != Low
    ensures InRuleOrder(xs + AsSeq(o))
    ensures forall f | f in xs + AsSeq(o) :: f.kind.Rank() <= k.Rank() && f.severity != Low
  {
    var ys := xs + AsSeq(o);
    forall i, j | 0 <= i < j < |ys| ensures ys[i].kind.Rank() < ys[j].kind.Rank() {
      if j >= |xs| { assert ys[i] in xs; }
    }
  }

  /** Each rule reports only its own kind, never at low severity. */
  lemma RuleWellFormed(k: RiskType, e: Event, now: int, fmt: Formats)
    ensures SlotFor(Rule(k, e, now, fmt), k)
  {
  }

  /** Every entry of the table reports only its own kind, never at low severity. */
  ghost predicate WellFormedRules(rules: RiskType -> Option<Finding>) {
    forall k: RiskType :: SlotFor(rules(k), k)
  }

  lemma RulesOfWellFormed(e: Event, now: int, fmt: Formats)
    ensures WellFormedRules(RulesOf(e, now, fmt))
  {
    forall k: RiskType ensures SlotFor(RulesOf(e, now, fmt)(k), k) {
      RuleWellFormed(k, e, now, fmt);
    }
  }

  /** After the first `k` rules: at most `k` findings, in rule order, none of low severity. */
  lemma {:induction false} FindingsUpToOrdered(k: nat, rules: RiskType -> Option<Finding>)
    requires k <= 6 && WellFormedRules(rules)
    ensures |FindingsUpTo(k, rules)| <= k
    ensures InRuleOrder(FindingsUpTo(k, rules))
    ensures forall f | f in FindingsUpTo(k, rules) :: f.kind.Rank() <= k && f.severity != Low
  {
    if k > 0 {
      FindingsUpToOrdered(k - 1, rules);
      PushInOrder(FindingsUpTo(k - 1, rules), rules(RankedKind(k)), RankedKind(k));
    }
  }

  /** After the first `k` rules, the list holds exactly what those rules produced. */
  lemma {:induction false} FindingsUpToExact(k: nat, rules: RiskType -> Option<Finding>)
    requires k <= 6 && WellFormedRules(rules)
    ensures forall f :: f in FindingsUpTo(k, rules) <==> f.kind.Rank() <= k && rules(f.kind) == Some(f)
  {
    if k > 0 {
      FindingsUpToExact(k - 1, rules);
      FindingsUpToMembers(k, rules);
    }
  }

  /** The membership clause one rule further. */
  lemma FindingsUpToMembers(k: nat, rules: RiskType -> Option<Finding>)
    requires 1 <= k <= 6 && SlotFor(rules(RankedKind(k)), RankedKind(k))
    requires forall f :: f in FindingsUpTo(k - 1, rules) <==> f.kind.Rank() <= k - 1 && rules(f.kind) == Some(f)
    ensures forall f :: f in FindingsUpTo(k, rules) <==> f.kind.Rank() <= k && rules(f.kind) == Some(f)
  {
    forall f ensures f in FindingsUpTo(k, rules) <==> f.kind.Rank() <= k && rules(f.kind) == Some(f) {
      if f.kind.Rank() == k {
        RankedKindOfRank(f.kind);
      }
    }
  }

  lemma RankedKindOfRank(k: RiskType)
    ensures 1 <= k.Rank() <= 6 && RankedKind(k.Rank()) == k
  {
  }

  function CountSeverity(risks: seq<Finding>, s: Severity): nat {
    Count(risks, (f: Finding) => f.severity == s)
  }

  /** The `reduce` over the findings: each adds the weight of its severity. */
  function Score(risks: seq<Finding>): (score: nat)
    ensures score == 3 * CountSeverity(risks, High) + 2 * CountSeverity(risks, Medium) + CountSeverity(risks, Low)
  {
    if risks == [] then 0
    else Score(risks[..|risks| - 1]) + risks[|risks| - 1].severity.Weight()
  }

  function LevelOf(score: int): Severity {
    if score >= 6 then High else if score >= 3 then Medium else Low
  }

  function Summarize(risks: seq<Finding>): Summary {
    Summary(|risks|, CountSeverity(risks, High), CountSeverity(risks, Medium), CountSeverity(risks, Low))
  }

  /** One finding is reported iff the rule of its kind produced it. */
  lemma FindingReported(f: Finding, e: Event, now: int, fmt: Formats)
    ensures f in Findings(e, now, fmt) <==> Rule(f.kind, e, now, fmt) == Some(f)
  {
    FindingsShape(e, now, fmt);
  }

  /** A rule that fires at high severity puts a high finding among the findings. */
  lemma HighRuleReported(k: RiskType, e: Event, now: int, fmt: Formats)
    requires Rule(k, e, now, fmt).Some? && Rule(k, e, now, fmt).value.severity == High
    ensures exists f :: f in Findings(e, now, fmt) && f.severity == High
  {
    FindingReported(Rule(k, e, now, fmt).value, e, now, fmt);
  }

  /** At most one finding per rule, in rule order, and none of low severity. */
  lemma FindingsShape(e: Event, now: int, fmt: Formats)
    ensures |Findings(e, now, fmt)| <= 6
    ensures InRuleOrder(Findings(e, now, fmt))
    ensures forall f | f in Findings(e, now, fmt) :: f.severity != Low
    ensures forall f :: f in Findings(e, now, fmt) <==> Rule(f.kind, e, now, fmt) == Some(f)
    ensures CountSeverity(Findings(e, now, fmt), Low) == 0
  {
    RulesOfWellFormed(e, now, fmt);
    FindingsUpToOrdered(6, RulesOf(e, now, fmt));
    FindingsUpToExact(6, RulesOf(e, now, fmt));
    forall k: RiskType ensures k.Rank() <= 6 {
      RankedKindOfRank(k);
    }
  }

  /** `risks.push(finding)` when a rule produced a finding. */
  method Push(risks: seq<Finding>, o: Option<Finding>) returns (r: seq<Finding>)
    ensures r == risks + AsSeq(o)
  {
    r := risks;
    if o.Some? {
      r := r + [o.value];
    }
  }

  /** Runs the six rules in order, pushing each finding onto the list. */
  method RunRules(e: Event, now: int, fmt: Formats) returns (risks: seq<Finding>)
    ensures risks == Findings(e, now, fmt)
  {
    ghost var rules := RulesOf(e, now, fmt);
    risks := [];
    risks := Push(risks, LowRsvpRule(e, fmt));
    assert risks == FindingsUpTo(1, rules);
    risks := Push(risks, OverdueRule(e, now));
    assert risks == FindingsUpTo(2, rules);
    risks := Push(risks, DueSoonRule(e, now));
    assert risks == FindingsUpTo(3, rules);
    risks := Push(risks, LowCompletionRule(e, fmt));
    assert risks == FindingsUpTo(4, rules);
    risks := Push(risks, EventApproachingRule(e, now));
    assert risks == FindingsUpTo(5, rules);
    risks := Push(risks, UnassignedRule(e));
  }

  /** `analyzeEventRisks`: 404 for an unknown event, otherwise the findings of
      the six rules with their score, level and summary. */
  method AnalyzeEventRisks(lookup: Option<Event>, now: int, fmt: Formats) returns (r: Result<RiskAnalysis>)
    ensures lookup.None? <==> r.Err?
    ensures lookup.None? ==> r.error == ApiError(404, "Event not found")
    ensures lookup.Some? ==>
      && r.value.eventId == lookup.value.id && r.value.eventTitle == lookup.value.title
      && r.value.risks == Findings(lookup.value, now, fmt)
    ensures r.Ok? ==>
      var a := r.value;
      && |a.risks| <= 6
      && a.summary.totalRisks == |a.risks| == a.summary.highRisks + a.summary.mediumRisks + a.summary.lowRisks
      && a.summary.lowRisks == 0
      && a.summary.highRisks == CountSeverity(a.risks, High)
      && a.summary.mediumRisks == CountSeverity(a.risks, Medium)
      && a.riskScore == 3 * a.summary.highRisks + 2 * a.summary.mediumRisks + a.summary.lowRisks
      && (a.riskLevel == High <==> a.riskScore >= 6)
      && (a.riskLevel == Medium <==> 3 <= a.riskScore < 6)
      && (a.riskLevel == Low <==> a.riskScore < 3)
  {
    if lookup.None? {
      return Err(ApiError(404, "Event not found"));
    }
    var e := lookup.value;
    var risks := RunRules(e, now, fmt);
    FindingsShape(e, now, fmt);
    SeveritiesPartition(risks);
    var score := Score(risks);
    r := Ok(RiskAnalysis(e.id, e.title, LevelOf(score), score, risks, Summarize(risks)));
  }

  /** Every finding is counted under exactly one severity. */
  lemma {:induction false} SeveritiesPartition(risks: seq<Finding>)
    ensures |risks| == CountSeverity(risks, High) + CountSeverity(risks, Medium) + CountSeverity(risks, Low)
  {
    if risks != [] {
      SeveritiesPartition(risks[..|risks| - 1]);
    }
  }

  /** Rule 5 reports between 1 and 7 days, and it is high exactly when that count is at most 3. */
  lemma EventApproachingDays(e: Event, now: int)
    requires EventApproachingRule(e, now).Some?
    ensures var f := EventApproachingRule(e, now).value;
      && 1 <= f.data.daysUntilEvent <= 7
      && (f.severity == High <==> f.data.daysUntilEvent <= 3)
  {
    var diff := e.startsAt - now;
    CeilDivAtMost(diff, DayMs, 0);
    CeilDivAtMost(diff, DayMs, 3);
    CeilDivAtMost(diff, DayMs, 7);
  }

  /** A task due exactly now is neither overdue nor due soon. */
  lemma DueNowInNeitherSet(e: Event, now: int)
    requires forall t | t in e.tasks :: t.dueAt == Some(now)
    ensures OverdueRule(e, now).None? && DueSoonRule(e, now).None?
  {
  }

  /** With a negative capacity the computed rate is never positive, so rule 1 reports high. */
  lemma NegativeCapacityIsHigh(e: Event, fmt: Formats)
    requires e.capacity.Some? && e.capacity.value < 0
    ensures LowRsvpRule(e, fmt).Some? && LowRsvpRule(e, fmt).value.severity == High
  {
  }

  /** An unassigned Urgent task past its due date is reported by rule 2 and by rule 6;
      once completed, only rule 6 still reports it. */
  lemma OverdueUnassignedUrgent(t: Task, e: Event, now: int)
    requires t.dueAt.Some? && t.dueAt.value < now && t.priority == Some("Urgent")
    requires t.assigneeMemberId.None? && e.tasks == [t]
    ensures !IsCompleted(t) ==> OverdueRule(e, now).Some? && UnassignedRule(e).Some?
    ensures IsCompleted(t) ==> OverdueRule(e, now).None? && UnassignedRule(e).Some?
  {
    assert t in e.tasks;
  }

  /** One confirmed RSVP out of a capacity of ten: rule 1 reports 10%, at high severity. */
  lemma LowRsvpExample(fmt: Formats)
    ensures var e := Event(7, "Gala", 0, 0, None, Some(10), None,
                           [Rsvp(1, "CONFIRMED"), Rsvp(2, "PENDING")], []);
      LowRsvpRule(e, fmt) == Some(Finding(LowRsvp, High,
        "Only " + fmt.percent(1, 10) + "% capacity filled (1/10 confirmed)",
        "Send reminder emails to increase attendance", RsvpData(1, 10)))
  {
    var e := Event(7, "Gala", 0, 0, None, Some(10), None,
                   [Rsvp(1, "CONFIRMED"), Rsvp(2, "PENDING")], []);
    assert e.rsvps[..1] == [Rsvp(1, "CONFIRMED")];
    assert ConfirmedCount(e) == 1;
    var counts := NatToString(1) + "/" + IntToString(10);
    assert counts == "1/10";
    var p := fmt.percent(1, 10);
    calc {
      "Only " + p + "% capacity filled (" + counts + " confirmed)";
      "Only " + p + ("% capacity filled (" + counts + " confirmed)");
      "Only " + p + "% capacity filled (1/10 confirmed)";
    }
  }
}

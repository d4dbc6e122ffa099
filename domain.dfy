/** The records the risk engine and the email generator read, as the data
    layer returns them with their relations joined. Timestamps are
    milliseconds since the epoch. */
module Domain {
  import opened Common

  const HourMs: int := 1000 * 60 * 60
  const DayMs: int := 1000 * 60 * 60 * 24

  datatype Rsvp = Rsvp(id: int, status: string)

  datatype Member = Member(id: int, fullName: string)

  datatype Org = Org(id: int, name: string)

  datatype Task = Task(
    id: int,
    title: string,
    status: string,
    priority: Option<string>,
    dueAt: Option<int>,
    assigneeMemberId: Option<int>)

  datatype Event = Event(
    id: int,
    title: string,
    startsAt: int,
    endsAt: int,
    location: Option<string>,
    capacity: Option<int>,
    org: Option<Org>,
    rsvps: seq<Rsvp>,
    tasks: seq<Task>)

  predicate IsConfirmed(r: Rsvp) {
    r.status == "CONFIRMED"
  }

  predicate IsCompleted(t: Task) {
    t.status == "Completed"
  }

  predicate IsCritical(t: Task) {
    t.priority == Some("Urgent") || t.priority == Some("High")
  }

  /** `!t.assigneeMemberId`: no assignee, or the falsy id 0. */
  predicate IsUnassigned(t: Task) {
    t.assigneeMemberId.None? || t.assigneeMemberId.value == 0
  }

  /** Due strictly before `now`, not completed, and Urgent or High. */
  predicate IsOverdueCritical(t: Task, now: int) {
    t.dueAt.Some? && !IsCompleted(t) && t.dueAt.value < now && IsCritical(t)
  }

  /** Not completed and due within the next 24 hours: `0 < hoursUntilDue <= 24`,
      where `hoursUntilDue = (dueAt - now) / 3600000`. */
  predicate IsDueSoon(t: Task, now: int) {
    && t.dueAt.Some? && !IsCompleted(t)
    && 0 < t.dueAt.value - now <= 24 * HourMs
    && t.priority != Some("Completed")
  }

  /** `if (event.capacity)`: set and non-zero. */
  predicate HasCapacity(e: Event) {
    e.capacity.Some? && e.capacity.value != 0
  }

  function ConfirmedCount(e: Event): nat {
    Count(e.rsvps, IsConfirmed)
  }

  function CompletedCount(e: Event): nat {
    Count(e.tasks, IsCompleted)
  }

  function IncompleteCount(e: Event): nat {
    Count(e.tasks, (t: Task) => !IsCompleted(t))
  }

  function OverdueCriticalTasks(e: Event, now: int): seq<Task> {
    Filter(e.tasks, (t: Task) => IsOverdueCritical(t, now))
  }

  function DueSoonTasks(e: Event, now: int): seq<Task> {
    Filter(e.tasks, (t: Task) => IsDueSoon(t, now))
  }

  function UnassignedCriticalTasks(e: Event): seq<Task> {
    Filter(e.tasks, (t: Task) => IsUnassigned(t) && IsCritical(t))
  }

  /** `count / total * 100` in exact arithmetic. */
  function Percentage(count: nat, total: int): real
    requires total != 0
  {
    (count as real) / (total as real) * 100.0
  }

  /** Integer form of `count / total * 100 < pct`, by cross-multiplication
      (dividing by a negative total flips the comparison). */
  predicate PercentBelow(count: nat, total: int, pct: int)
    requires total != 0
  {
    if total > 0 then count * 100 < pct * total else count * 100 > pct * total
  }

  /** The cross-multiplied comparison decides exactly what the percentage does. */
  lemma PercentBelowExact(count: nat, total: int, pct: int)
    requires total != 0
    ensures PercentBelow(count, total, pct) <==> Percentage(count, total) < pct as real
  {
    var c, t, p := count as real, total as real, pct as real;
    var q := c / t;
    assert q * t == c;
    if total > 0 {
      assert q * 100.0 < p <==> q * 100.0 * t < p * t;
    } else {
      assert q * 100.0 < p <==> q * 100.0 * t > p * t;
    }
    assert q * 100.0 * t == c * 100.0;
    assert (count * 100) as real == c * 100.0;
    assert (pct * total) as real == p * t;
  }

  /** `Math.ceil(a / b)` for a positive divisor. */
  function CeilDiv(a: int, b: int): (q: int)
    requires b > 0
    ensures (q - 1) * b < a <= q * b
  {
    -((-a) / b)
  }

  /** `Math.ceil(a / b) <= k` exactly when `a <= k * b`. */
  lemma CeilDivAtMost(a: int, b: int, k: int)
    requires b > 0
    ensures CeilDiv(a, b) <= k <==> a <= k * b
  {
    var q := CeilDiv(a, b);
    if q <= k {
      assert (k - q) * b >= 0;
    } else {
      assert (q - 1 - k) * b >= 0;
    }
  }
}

/** The template-based email generator: a request names one of five email
    kinds, and the generator fills that kind's subject and body from the
    event or the task the request refers to. */
module EmailGen {
  import opened Common
  import opened Text
  import opened Domain

  /** A volunteer task with the event it belongs to and its assignee, if any. */
  datatype TaskDetail = TaskDetail(task: Task, event: Event, assignee: Option<Member>)

  /** The fields of the request body the templates read. */
  datatype EmailRequest = EmailRequest(kind: string, recipientEmail: Option<string>, recipientName: Option<string>)

  datatype Email = Email(subject: string, body: string, to: string)

  datatype EmailResponse = EmailResponse(success: bool, email: Email, generatedAt: string)

  /** The subject and body a template produces. */
  datatype Letter = Letter(subject: string, body: string)

  /** The five email kinds, by the `type` string that selects each. */
  datatype EmailKind =
    EventReminderKind | TaskAssignmentKind | TaskReminderKind | SponsorThankYouKind | RsvpConfirmationKind
  {
    function Name(): string {
      match this
      case EventReminderKind => "event_reminder"
      case TaskAssignmentKind => "task_assignment"
      case TaskReminderKind => "task_reminder"
      case SponsorThankYouKind => "sponsor_thank_you"
      case RsvpConfirmationKind => "rsvp_confirmation"
    }

    /** The kinds built from a task; the others are built from an event. */
    predicate NeedsTask() {
      this == TaskAssignmentKind || this == TaskReminderKind
    }

    /** The 400 message when the event or task the kind needs was not found. */
    function MissingMessage(): string {
      match this
      case EventReminderKind => "Event ID required for event reminder"
      case TaskAssignmentKind => "Task ID required for task assignment"
      case TaskReminderKind => "Task ID required for task reminder"
      case SponsorThankYouKind => "Event ID required for sponsor thank you"
      case RsvpConfirmationKind => "Event ID required for RSVP confirmation"
    }
  }

  /** The `switch (type)`: the kind whose name the string is, if any. */
  function KindOf(s: string): (k: Option<EmailKind>)
    ensures k.Some? ==> k.value.Name() == s
  {
    if s == "event_reminder" then Some(EventReminderKind)
    else if s == "task_assignment" then Some(TaskAssignmentKind)
    else if s == "task_reminder" then Some(TaskReminderKind)
    else if s == "sponsor_thank_you" then Some(SponsorThankYouKind)
    else if s == "rsvp_confirmation" then Some(RsvpConfirmationKind)
    else None
  }

  /** Every kind is selected by its own name, and only by it. */
  lemma KindOfName(k: EmailKind, s: string)
    ensures KindOf(s) == Some(k) <==> s == k.Name()
  {
  }

  const InvalidTypeMessage: string :=
    "Invalid email type. Supported types: event_reminder, task_assignment, task_reminder, sponsor_thank_you, rsvp_confirmation"

  // The frame every template shares: a leading newline, the greeting, the
  // template's own text, the signer, and the closing line's indentation. The
  // generator trims the whole literal.

  const Indent: string := "\n        "

  lemma IndentBlank()
    ensures AllWhitespace(Indent)
  {
    forall i | 0 <= i < |Indent| ensures IsWhitespace(Indent[i]) {
      assert Indent[i] == if i == 0 then '\n' else ' ';
    }
  }

  function Greeting(name: string): string {
    "Dear " + name + ","
  }

  function Framed(greeting: string, content: string, signer: string): string {
    "\n" + greeting + (content + signer + Indent)
  }

  function Body(name: string, content: string, signer: string): string {
    Trim(Framed(Greeting(name), content, signer))
  }

  /** The body always opens with the greeting: trimming removes only the leading newline
      before it and trailing whitespace after it. */
  lemma BodyGreets(name: string, content: string, signer: string)
    ensures Body(name, content, signer) == Greeting(name) + TrimEnd(content + signer + Indent)
  {
    var g := Greeting(name);
    var x := content + signer + Indent;
    var s := Framed(g, content, signer);
    assert s[..1] == "\n";
    assert s[1..] == g + x;
    TrimStartAt(s, 1);
    TrimEndAppend(g, x);
  }

  /** When the signer ends in a visible character, the body is exactly the greeting, the
      template's text and the signer. */
  lemma BodySigned(name: string, content: string, signer: string)
    requires signer != [] && !IsWhitespace(signer[|signer| - 1])
    ensures Body(name, content, signer) == Greeting(name) + content + signer
  {
    BodyGreets(name, content, signer);
    var p := content + signer;
    assert p[|p| - 1] == signer[|signer| - 1];
    TrimEndAppend(p, Indent);
    IndentBlank();
    TrimEndBlank(Indent);
    assert p + [] == p;
  }

  predicate StartsWith(s: string, p: string) {
    |p| <= |s| && s[..|p|] == p
  }

  predicate EndsWith(s: string, p: string) {
    |p| <= |s| && s[|s| - |p|..] == p
  }

  lemma StartsWithAppend(p: string, q: string)
    ensures StartsWith(p + q, p)
  {
    assert (p + q)[..|p|] == p;
  }

  lemma EndsWithAppend(p: string, q: string, x: string)
    requires EndsWith(q, x)
    ensures EndsWith(p + q, x)
  {
    assert (p + q)[|p + q| - |x|..] == q[|q| - |x|..];
  }

  lemma EndsWithExtend(q: string, x: string, y: string)
    requires EndsWith(q, x)
    ensures EndsWith(q + y, x + y)
  {
    assert (q + y)[|q + y| - |x + y|..] == q[|q| - |x|..] + y;
  }

  /** `${v ? caption + v : ""}`: the line is empty when the value is unset or empty. */
  function OptionalLine(caption: string, v: Option<string>): string {
    if Truthy(v) then caption + v.value else ""
  }

  function OrgName(e: Event): Option<string> {
    if e.org.Some? then Some(e.org.value.name) else None
  }

  /** The signer of the task emails and of event emails without an organisation name. */
  const TeamSigner: string := "Event Management Team"

  /** `event.org?.name || "Event Management Team"`. */
  function EventSigner(e: Event): string {
    OrElse(OrgName(e), TeamSigner)
  }

  /** `recipientName || task.assignee?.fullName || "Volunteer"`. */
  function TaskRecipient(name: Option<string>, d: TaskDetail): string {
    OrElse(name, OrElse(if d.assignee.Some? then Some(d.assignee.value.fullName) else None, "Volunteer"))
  }

  function DatesLine(e: Event, fmt: Formats): string {
    fmt.localeDateTime(e.startsAt) + " - " + fmt.localeDateTime(e.endsAt)
  }

  /** The task's priority line: `Priority: ${task.priority || "Medium"}`. */
  function PriorityLine(t: Task): string {
    "\nPriority: " + OrElse(t.priority, "Medium") + "\n"
  }

  predicate ContainsAt(s: string, p: string, i: nat) {
    i + |p| <= |s| && s[i..i + |p|] == p
  }

  ghost predicate Contains(s: string, p: string) {
    exists i: nat :: ContainsAt(s, p, i)
  }

  lemma InfixAt(a: string, p: string, b: string, c: string)
    ensures ContainsAt(a + p + b + c, p, |a|)
  {
    assert (a + p + b + c)[|a|..|a| + |p|] == p;
  }

  const BestRegards: string := "Best regards,\n"

  const Appreciation: string := "With sincere appreciation,\n"

  /** A template's text followed by its sign-off line. */
  function SignedOff(text: string, signOff: string): (c: string)
    ensures EndsWith(c, signOff)
  {
    EndsWithAppend(text, signOff, signOff);
    text + signOff
  }

  // The fixed sentences of the templates.

  const ReminderIntro: string := "\n\nThis is a friendly reminder about the upcoming event:\n\nEvent: "
  const ReminderClose: string := "\n\nWe're looking forward to seeing you there!\n\n"
  const AssignmentIntro: string := "\n\nYou have been assigned a new task for the event \""
  const AssignmentDashboard: string :=
    "\n\nPlease log in to your dashboard to view task details and update your progress."
  const AssignmentClose: string := "\n\nThank you for your commitment!\n\n"
  const TaskReminderIntro: string := "\n\nThis is a reminder about your assigned task:\n\nTask: "
  const TaskReminderClose: string := "\n\nThank you!\n\n"
  const SponsorGratitude: string := ", we would like to extend our heartfelt gratitude for your support of \""
  const SponsorImpact: string :=
    "\n\nYour sponsorship makes a significant impact on our ability to deliver this event successfully."
  const SponsorClose: string := "\n\nWe look forward to continuing our partnership with you.\n\n"
  const EventDetails: string := "\n\nEvent Details:\n- Event: "
  const RsvpIntro: string := "\n\nThank you for confirming your attendance at \""
  const RsvpQuestions: string :=
    "\n\nWe're excited to have you join us! If you have any questions, please don't hesitate to reach out."
  const RsvpClose: string := "\n\nSee you there!\n\n"

  // event_reminder

  function EventReminderContent(e: Event, fmt: Formats): (c: string)
    ensures EndsWith(c, BestRegards)
  {
    SignedOff(
      ReminderIntro + e.title
      + "\nDate: " + DatesLine(e, fmt) + "\n" + OptionalLine("Location: ", e.location)
      + ReminderClose,
      BestRegards)
  }

  function EventReminder(e: Event, name: Option<string>, fmt: Formats): Letter {
    Letter("Reminder: " + e.title + " - " + fmt.localeDate(e.startsAt),
      Body(OrElse(name, "Volunteer"), EventReminderContent(e, fmt), EventSigner(e)))
  }

  // task_assignment

  function TaskAssignmentContent(d: TaskDetail, fmt: Formats): (c: string)
    ensures EndsWith(c, BestRegards)
  {
    SignedOff(AssignmentHead(d) + PriorityLine(d.task) + AssignmentRest(d, fmt), BestRegards)
  }

  function AssignmentHead(d: TaskDetail): string {
    AssignmentIntro + d.event.title + "\":\n\nTask: " + d.task.title
  }

  function AssignmentRest(d: TaskDetail, fmt: Formats): string {
    (if d.task.dueAt.Some? then "Due Date: " + fmt.localeDateTime(d.task.dueAt.value) else "") + "\n"
    + OptionalLine("Event Location: ", d.event.location)
    + AssignmentDashboard + AssignmentClose
  }

  function TaskAssignment(d: TaskDetail, name: Option<string>, fmt: Formats): Letter {
    Letter("New Task Assignment: " + d.task.title,
      Body(TaskRecipient(name, d), TaskAssignmentContent(d, fmt), TeamSigner))
  }

  // task_reminder

  /** `Math.ceil((dueAt - now) / day)`, or nothing without a due date. */
  function DaysUntilDue(t: Task, now: int): (r: Option<int>)
    ensures r.Some? <==> t.dueAt.Some?
    ensures r.Some? ==> (r.value - 1) * DayMs < t.dueAt.value - now <= r.value * DayMs
  {
    if t.dueAt.Some? then Some(CeilDiv(t.dueAt.value - now, DayMs)) else None
  }

  /** `dueDate && daysUntilDue`: a due date and a non-zero day count. */
  predicate ShowsDueIn(t: Task, now: int) {
    DaysUntilDue(t, now).Some? && DaysUntilDue(t, now).value != 0
  }

  predicate IsUrgent(t: Task, now: int) {
    ShowsDueIn(t, now) && DaysUntilDue(t, now).value <= 1
  }

  const UrgentLine: string := "\U{26A0}\U{FE0F} This task is due soon! Please prioritize completing it."

  const OnTimeLine: string := "Please ensure this task is completed on time."

  function DueClause(t: Task, now: int): string {
    if ShowsDueIn(t, now) then
      var n := DaysUntilDue(t, now).value;
      "due in " + IntToString(n) + " day" + Plural(n)
    else "pending"
  }

  /** The reminder is urgent exactly when the task falls due within the coming day or is
      overdue by a whole day or more: an overdue day count is negative, hence also `<= 1`,
      while a task less than a day overdue rounds up to 0 and is not flagged. */
  lemma UrgentWhen(t: Task, now: int)
    ensures IsUrgent(t, now) <==>
      t.dueAt.Some? && (0 < t.dueAt.value - now <= DayMs || t.dueAt.value - now <= -DayMs)
  {
    if t.dueAt.Some? {
      var diff := t.dueAt.value - now;
      CeilDivAtMost(diff, DayMs, 1);
      CeilDivAtMost(diff, DayMs, 0);
      CeilDivAtMost(diff, DayMs, -1);
    }
  }

  /** The subject says "pending" when there is no due date or the task is less than a day overdue. */
  lemma DueClausePending(t: Task, now: int)
    ensures DueClause(t, now) == "pending" <==>
      t.dueAt.None? || -DayMs < t.dueAt.value - now <= 0
  {
    if t.dueAt.Some? {
      var diff := t.dueAt.value - now;
      CeilDivAtMost(diff, DayMs, 0);
      CeilDivAtMost(diff, DayMs, -1);
      if ShowsDueIn(t, now) {
        assert DueClause(t, now)[0] == 'd';
      }
    }
  }

  /** The day count reads "days" exactly when more than one day is left. */
  lemma DueClausePlural(t: Task, now: int)
    ensures EndsWith(DueClause(t, now), "days") <==> t.dueAt.Some? && t.dueAt.value - now > DayMs
  {
    if t.dueAt.Some? {
      var diff := t.dueAt.value - now;
      CeilDivAtMost(diff, DayMs, 1);
      CeilDivAtMost(diff, DayMs, 0);
      CeilDivAtMost(diff, DayMs, -1);
      if ShowsDueIn(t, now) {
        var n := DaysUntilDue(t, now).value;
        var c := "due in " + IntToString(n) + " day";
        assert DueClause(t, now) == c + Plural(n);
        assert c[|c| - 4..] == " day";
        if n > 1 {
          assert (c + "s")[|c + "s"| - 4..] == "days";
        } else {
          assert c + "" == c;
        }
      }
    }
  }

  function TaskReminderContent(d: TaskDetail, now: int, fmt: Formats): (c: string)
    ensures EndsWith(c, BestRegards)
  {
    SignedOff(TaskReminderIntro + d.task.title + PriorityLine(d.task) + TaskReminderRest(d, now, fmt), BestRegards)
  }

  function TaskReminderRest(d: TaskDetail, now: int, fmt: Formats): string {
    (if d.task.dueAt.Some? then "Due Date: " + fmt.localeDateTime(d.task.dueAt.value) else "No due date set")
    + "\nStatus: " + d.task.status + "\nEvent: " + d.event.title + "\n\n"
    + (if IsUrgent(d.task, now) then UrgentLine else OnTimeLine)
    + TaskReminderClose
  }

  function TaskReminder(d: TaskDetail, name: Option<string>, now: int, fmt: Formats): Letter {
    Letter("Reminder: Task \"" + d.task.title + "\" " + DueClause(d.task, now),
      Body(TaskRecipient(name, d), TaskReminderContent(d, now, fmt), TeamSigner))
  }

  // sponsor_thank_you

  function SponsorThanksContent(e: Event, fmt: Formats): (c: string)
    ensures EndsWith(c, Appreciation)
  {
    SignedOff("\n\n" + OnBehalf(e) + SponsorRest(e, fmt), Appreciation)
  }

  /** `On behalf of ${event.org?.name || "our organization"}`. */
  function OnBehalf(e: Event): string {
    "On behalf of " + OrElse(OrgName(e), "our organization")
  }

  function SponsorRest(e: Event, fmt: Formats): string {
    SponsorGratitude + e.title + "\"." + SponsorImpact
    + EventDetails + e.title + "\n- Date: " + fmt.localeDate(e.startsAt)
    + SponsorClose
  }

  function SponsorThanks(e: Event, name: Option<string>, fmt: Formats): Letter {
    Letter("Thank You for Supporting " + e.title,
      Body(OrElse(name, "Sponsor"), SponsorThanksContent(e, fmt), EventSigner(e)))
  }

  // rsvp_confirmation

  function RsvpConfirmationContent(e: Event, fmt: Formats): (c: string)
    ensures EndsWith(c, BestRegards)
  {
    SignedOff(
      RsvpIntro + e.title + "\"." + EventDetails + e.title
      + "\n- Date: " + DatesLine(e, fmt) + "\n" + OptionalLine("- Location: ", e.location)
      + RsvpQuestions + RsvpClose,
      BestRegards)
  }

  function RsvpConfirmation(e: Event, name: Option<string>, fmt: Formats): Letter {
    Letter("RSVP Confirmation: " + e.title,
      Body(OrElse(name, "Guest"), RsvpConfirmationContent(e, fmt), EventSigner(e)))
  }

  /** Whether the record kind `k` is built from was not found. */
  predicate MissingReference(k: EmailKind, event: Option<Event>, task: Option<TaskDetail>) {
    if k.NeedsTask() then task.None? else event.None?
  }

  /** The letter of kind `k`, from the event or task it is built from. */
  function LetterOf(k: EmailKind, event: Option<Event>, task: Option<TaskDetail>, name: Option<string>,
                    now: int, fmt: Formats): Letter
    requires !MissingReference(k, event, task)
  {
    match k
    case EventReminderKind => EventReminder(event.value, name, fmt)
    case TaskAssignmentKind => TaskAssignment(task.value, name, fmt)
    case TaskReminderKind => TaskReminder(task.value, name, now, fmt)
    case SponsorThankYouKind => SponsorThanks(event.value, name, fmt)
    case RsvpConfirmationKind => RsvpConfirmation(event.value, name, fmt)
  }

  /** `generateEmail`: an unknown kind and a kind whose event or task was not found
      answer 400; otherwise the response carries that kind's letter, addressed to the
      recipient's address or to the empty string. */
  method GenerateEmail(req: EmailRequest, event: Option<Event>, task: Option<TaskDetail>, now: int, fmt: Formats)
    returns (r: Result<EmailResponse>)
    ensures r.Ok? <==> KindOf(req.kind).Some? && !MissingReference(KindOf(req.kind).value, event, task)
    ensures KindOf(req.kind).None? ==> r == Err(ApiError(400, InvalidTypeMessage))
    ensures KindOf(req.kind).Some? && r.Err? ==>
      r.error == ApiError(400, KindOf(req.kind).value.MissingMessage())
    ensures r.Ok? ==>
      && r.value.success && r.value.generatedAt == fmt.iso(now)
      && r.value.email.to == OrElse(req.recipientEmail, "")
      && Letter(r.value.email.subject, r.value.email.body)
         == LetterOf(KindOf(req.kind).value, event, task, req.recipientName, now, fmt)
  {
    var content := Email("", "", OrElse(req.recipientEmail, ""));
    var kind := KindOf(req.kind);
    if kind.None? {
      return Err(ApiError(400, InvalidTypeMessage));
    }
    if MissingReference(kind.value, event, task) {
      return Err(ApiError(400, kind.value.MissingMessage()));
    }
    var letter := LetterOf(kind.value, event, task, req.recipientName, now, fmt);
    content := content.(subject := letter.subject, body := letter.body);
    r := Ok(EmailResponse(true, content, fmt.iso(now)));
  }

  /** Whether trimming leaves the end of `s`, the signer, alone. */
  predicate EndsVisibly(s: string) {
    s != [] && !IsWhitespace(s[|s| - 1])
  }

  lemma BodyStartsWithGreeting(name: string, content: string, signer: string)
    ensures StartsWith(Body(name, content, signer), Greeting(name))
  {
    BodyGreets(name, content, signer);
    StartsWithAppend(Greeting(name), TrimEnd(content + signer + Indent));
  }

  /** A framed body ends with the template's sign-off and a visibly ending signer. */
  lemma BodyEnds(name: string, content: string, signer: string, signOff: string)
    requires EndsWith(content, signOff) && EndsVisibly(signer)
    ensures EndsWith(Body(name, content, signer), signOff + signer)
  {
    BodySigned(name, content, signer);
    EndsWithAppend(Greeting(name), content, signOff);
    EndsWithExtend(Greeting(name) + content, signOff, signer);
  }

  /** The event reminder greets the recipient, else "Volunteer". */
  lemma EventReminderGreets(e: Event, name: Option<string>, fmt: Formats)
    ensures StartsWith(EventReminder(e, name, fmt).body, Greeting(OrElse(name, "Volunteer")))
  {
    BodyStartsWithGreeting(OrElse(name, "Volunteer"), EventReminderContent(e, fmt), EventSigner(e));
  }

  /** The event reminder closes with "Best regards," and the organisation or the team.
      An organisation name that ends in whitespace loses it to the trim. */
  lemma EventReminderSigned(e: Event, name: Option<string>, fmt: Formats)
    requires EndsVisibly(EventSigner(e))
    ensures EndsWith(EventReminder(e, name, fmt).body, BestRegards + EventSigner(e))
  {
    BodyEnds(OrElse(name, "Volunteer"), EventReminderContent(e, fmt), EventSigner(e), BestRegards);
  }

  /** The task assignment greets the recipient, else the assignee, else "Volunteer". */
  lemma TaskAssignmentGreets(d: TaskDetail, name: Option<string>, fmt: Formats)
    ensures StartsWith(TaskAssignment(d, name, fmt).body, Greeting(TaskRecipient(name, d)))
  {
    BodyStartsWithGreeting(TaskRecipient(name, d), TaskAssignmentContent(d, fmt), TeamSigner);
  }

  /** The task assignment closes with "Best regards," and the team. */
  lemma TaskAssignmentSigned(d: TaskDetail, name: Option<string>, fmt: Formats)
    ensures EndsWith(TaskAssignment(d, name, fmt).body, BestRegards + TeamSigner)
  {
    TeamSignerVisible();
    BodyEnds(TaskRecipient(name, d), TaskAssignmentContent(d, fmt), TeamSigner, BestRegards);
  }

  /** The task reminder greets the recipient, else the assignee, else "Volunteer". */
  lemma TaskReminderGreets(d: TaskDetail, name: Option<string>, now: int, fmt: Formats)
    ensures StartsWith(TaskReminder(d, name, now, fmt).body, Greeting(TaskRecipient(name, d)))
  {
    BodyStartsWithGreeting(TaskRecipient(name, d), TaskReminderContent(d, now, fmt), TeamSigner);
  }

  /** The task reminder closes with "Best regards," and the team. */
  lemma TaskReminderSigned(d: TaskDetail, name: Option<string>, now: int, fmt: Formats)
    ensures EndsWith(TaskReminder(d, name, now, fmt).body, BestRegards + TeamSigner)
  {
    TeamSignerVisible();
    BodyEnds(TaskRecipient(name, d), TaskReminderContent(d, now, fmt), TeamSigner, BestRegards);
  }

  /** The sponsor letter greets the recipient, else "Sponsor". */
  lemma SponsorThanksGreets(e: Event, name: Option<string>, fmt: Formats)
    ensures StartsWith(SponsorThanks(e, name, fmt).body, Greeting(OrElse(name, "Sponsor")))
  {
    BodyStartsWithGreeting(OrElse(name, "Sponsor"), SponsorThanksContent(e, fmt), EventSigner(e));
  }

  /** The sponsor letter closes with "With sincere appreciation," and the organisation or the team.
      An organisation name that ends in whitespace loses it to the trim. */
  lemma SponsorThanksSigned(e: Event, name: Option<string>, fmt: Formats)
    requires EndsVisibly(EventSigner(e))
    ensures EndsWith(SponsorThanks(e, name, fmt).body, Appreciation + EventSigner(e))
  {
    BodyEnds(OrElse(name, "Sponsor"), SponsorThanksContent(e, fmt), EventSigner(e), Appreciation);
  }

  /** The RSVP confirmation greets the recipient, else "Guest". */
  lemma RsvpConfirmationGreets(e: Event, name: Option<string>, fmt: Formats)
    ensures StartsWith(RsvpConfirmation(e, name, fmt).body, Greeting(OrElse(name, "Guest")))
  {
    BodyStartsWithGreeting(OrElse(name, "Guest"), RsvpConfirmationContent(e, fmt), EventSigner(e));
  }

  /** The RSVP confirmation closes with "Best regards," and the organisation or the team.
      An organisation name that ends in whitespace loses it to the trim. */
  lemma RsvpConfirmationSigned(e: Event, name: Option<string>, fmt: Formats)
    requires EndsVisibly(EventSigner(e))
    ensures EndsWith(RsvpConfirmation(e, name, fmt).body, BestRegards + EventSigner(e))
  {
    BodyEnds(OrElse(name, "Guest"), RsvpConfirmationContent(e, fmt), EventSigner(e), BestRegards);
  }

  /** The task assignment shows the task's priority, and "Medium" when it has none. */
  lemma TaskAssignmentPriority(d: TaskDetail, fmt: Formats)
    ensures Truthy(d.task.priority) ==>
      Contains(TaskAssignmentContent(d, fmt), "\nPriority: " + d.task.priority.value + "\n")
    ensures !Truthy(d.task.priority) ==> Contains(TaskAssignmentContent(d, fmt), "\nPriority: Medium\n")
  {
    var a := AssignmentHead(d);
    InfixAt(a, PriorityLine(d.task), AssignmentRest(d, fmt), BestRegards);
    assert ContainsAt(TaskAssignmentContent(d, fmt), PriorityLine(d.task), |a|);
    PriorityLineText(d.task);
  }

  /** The task reminder shows the task's priority, and "Medium" when it has none. */
  lemma TaskReminderPriority(d: TaskDetail, now: int, fmt: Formats)
    ensures Truthy(d.task.priority) ==>
      Contains(TaskReminderContent(d, now, fmt), "\nPriority: " + d.task.priority.value + "\n")
    ensures !Truthy(d.task.priority) ==> Contains(TaskReminderContent(d, now, fmt), "\nPriority: Medium\n")
  {
    var a := TaskReminderIntro + d.task.title;
    InfixAt(a, PriorityLine(d.task), TaskReminderRest(d, now, fmt), BestRegards);
    assert ContainsAt(TaskReminderContent(d, now, fmt), PriorityLine(d.task), |a|);
    PriorityLineText(d.task);
  }

  lemma PriorityLineText(t: Task)
    ensures Truthy(t.priority) ==> PriorityLine(t) == "\nPriority: " + t.priority.value + "\n"
    ensures !Truthy(t.priority) ==> PriorityLine(t) == "\nPriority: Medium\n"
  {
  }

  /** The sponsor letter thanks on behalf of the organisation, and of "our organization"
      when it has no name. */
  lemma SponsorThanksOnBehalf(e: Event, fmt: Formats)
    ensures Truthy(OrgName(e)) ==>
      Contains(SponsorThanksContent(e, fmt), "On behalf of " + OrgName(e).value)
    ensures !Truthy(OrgName(e)) ==> Contains(SponsorThanksContent(e, fmt), "On behalf of our organization")
  {
    InfixAt("\n\n", OnBehalf(e), SponsorRest(e, fmt), Appreciation);
    assert ContainsAt(SponsorThanksContent(e, fmt), OnBehalf(e), 2);
    OnBehalfText(e);
  }

  lemma OnBehalfText(e: Event)
    ensures Truthy(OrgName(e)) ==> OnBehalf(e) == "On behalf of " + OrgName(e).value
    ensures !Truthy(OrgName(e)) ==> OnBehalf(e) == "On behalf of our organization"
  {
  }

  lemma TeamSignerVisible()
    ensures EndsVisibly(TeamSigner)
  {
    assert TeamSigner[|TeamSigner| - 1] == 'm';
  }

  /** The event signer, the organisation's name or the team, is cut short only when that
      name ends in whitespace. */
  lemma EventSignerVisible(e: Event)
    ensures EndsVisibly(EventSigner(e)) <==> !Truthy(OrgName(e)) || EndsVisibly(OrgName(e).value)
  {
  }
}

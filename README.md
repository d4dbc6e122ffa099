# Event risk analysis, email templates and request validators

A model of the "AI" features of an event-management server and of its
request validators:

- **Risk analysis of one event** (`analyzeEventRisks`). Six independent
  rules each add at most one finding: a low RSVP rate, overdue critical
  tasks, tasks due within 24 hours, a low task-completion rate, an event
  starting within a week with open tasks, and unassigned critical tasks.
  A finding has a severity (high, medium or low), a message, a suggestion
  and a data payload. The findings are folded into a weighted score (high 3,
  medium 2, low 1), a level (high from 6, medium from 3) and a per-severity
  summary. An unknown event gives 404 "Event not found".
- **The list view** (`getAllEventsWithRisks`). This is a cheaper policy per
  event that looks only at the RSVP rate and the overdue critical tasks.
  A missing or zero capacity counts as a rate of 0.
- **Email generation** (`generateEmail`). The request's `type` selects one
  of five templates: event reminder, task assignment, task reminder, sponsor
  thank-you and RSVP confirmation. Each template needs an event or a task.
  Its body is the trimmed template literal, and the recipient defaults to
  the empty string. An unknown type gives 400. So does a missing event or
  task, with the message of the kind.
- **Validators**. `validateRequired` collects the fields that are undefined,
  null or empty; a name every object inherits, such as `constructor`, is
  missing only when the body itself sets it to one of those. `validateEmail` matches `^[^\s@]+@[^\s@]+\.[^\s@]+$`.
  `sanitizeString` trims, then removes every `<` and `>`. `validateId`
  rejects an id whose `Number()` value is NaN or not positive.

Modules follow the source:

- `Common`: options, results, API errors, truthiness, filtering.
- `Text`: JavaScript's `trim`, decimal printing and parsing.
- `Domain`: the records the data layer returns.
- `RiskRules`: `analyzeEventRisks`.
- `BatchRisk`: `getAllEventsWithRisks`.
- `EmailGen`: `generateEmail`.
- `Validator`: `validator.ts`.

What the model takes as parameters:

- The clock is a parameter `now`, in milliseconds since the epoch.
- Locale date formatting, `toISOString` and the percentage's `toFixed(0)`
  are the fields of a `Formats` parameter.
- The database lookups are `Option` parameters: `None` is a record that
  was not found, or an id the request did not give.

The handlers push onto a list, mutate an email record, and raise a `let`
risk level through an `if` chain. These steps are methods: `RunRules` with
`Push`, `GenerateEmail`, `QuickRisk`, and the loops of `ValidateRequired`
and `GetAllEventsWithRisks`. Each method is proved equal to the function
that specifies it. The properties are proved of those functions.

Where the code and the way it is used differ, the model follows the code:

- `task_reminder` has no mode without a task, and no aggregate mode. The
  client asks for it with only an event id
  (client/components/EventRiskAnalysis/index.tsx:70-75), and the server
  answers 400 "Task ID required for task reminder"
  (server/src/controllers/aiController.ts:283-287).
- An event or task that is not found gives the same 400 as one that was
  not given.
- `analyzeEventRisks` does not check that the id is a positive number.
- The due-soon filter also tests `priority !== "Completed"`. This is not a
  status test, and the model keeps it as written.

## Model

| member | source | states |
|---|---|---|
| Common.Filter | server/src/controllers/aiController.ts:76-83 | `filter` keeps exactly the elements that satisfy the predicate, never more elements than the input, and everything when all satisfy it |
| Common.FilterAppend | server/src/controllers/aiController.ts:76-83 | filtering distributes over concatenation, so the kept elements stay in input order |
| Common.Count | server/src/controllers/aiController.ts:50-52 | `filter(p).length` is at most the length and is positive iff some element satisfies `p` |
| Text.TrimStart | server/src/middleware/validator.ts:27 | the result is a suffix of the input that is empty or starts with a non-whitespace character |
| Text.TrimEnd | server/src/middleware/validator.ts:27 | the result is a prefix of the input that is empty or ends with a non-whitespace character |
| Text.Trim | server/src/middleware/validator.ts:27 | `trim()` yields a contiguous part of the input |
| Text.TrimStartDrops | server/src/middleware/validator.ts:27 | what trimming the start removes is all whitespace |
| Text.TrimEndDrops | server/src/middleware/validator.ts:27 | what trimming the end removes is all whitespace |
| Text.TrimSpec | server/src/middleware/validator.ts:27 | `trim()` joins an all-whitespace prefix, the result and an all-whitespace suffix, and the result is empty or has non-whitespace ends |
| Text.TrimUnique | server/src/middleware/validator.ts:27 | any string with that property is the trimmed string, so the property is an independent definition of `trim()` |
| Text.TrimIdempotent | server/src/middleware/validator.ts:27 | trimming twice is trimming once |
| Text.TrimNoWhitespace | server/src/middleware/validator.ts:27 | a string without whitespace is left unchanged |
| Text.TrimAt | server/src/middleware/validator.ts:27 | with whitespace around a part that has visible ends, trimming yields exactly that part |
| Text.TrimBlank | server/src/middleware/validator.ts:27 | an all-whitespace string trims to the empty string |
| Text.TrimEndAppend | server/src/controllers/aiController.ts:242-255 | trimming the end of `p + q`, where `p` ends visibly, trims only `q` |
| Text.NatToString | server/src/controllers/aiController.ts:59 | printing a count gives a canonical decimal: digits with no leading zero |
| Text.ParseNatToString | server/src/middleware/validator.ts:45 | parsing the printed decimal of `n` gives `n` back |
| Text.NatToStringParse | server/src/middleware/validator.ts:45 | printing the parsed value of a canonical decimal gives the same string back |
| Text.ParseDigitsZero | server/src/middleware/validator.ts:45-47 | a digit string parses to 0 iff all its digits are `0` |
| Validator.MissingFieldsAppend | server/src/middleware/validator.ts:8-12 | the missing fields of two lists of names, concatenated, are the two lists' missing fields in order |
| Validator.ValidateRequired | server/src/middleware/validator.ts:5-17 | the loop fails iff some field is undefined, null or `''`; the error is 400 and lists exactly those fields, in order, joined by `, ` |
| Validator.AbsentFieldMissing | server/src/middleware/validator.ts:9 | a name the body does not have reads as `undefined` and is missing, unless every object inherits it from `Object.prototype` (such as `constructor` or `toString`) |
| Validator.ValidateEmail | server/src/middleware/validator.ts:20-23 | true iff the address has exactly one `@`: a non-empty run without whitespace or `@`, then `@`, then such a run with a `.` that has characters on both sides |
| Validator.RemoveAngleBrackets | server/src/middleware/validator.ts:27 | `replace(/[<>]/g, '')` leaves no `<` or `>` and does not lengthen the string |
| Validator.RemoveAngleBracketsCounts | server/src/middleware/validator.ts:27 | every other character occurs as often as before |
| Validator.RemoveAngleBracketsAppend | server/src/middleware/validator.ts:27 | the removal works character by character, so it distributes over concatenation |
| Validator.SanitizeString | server/src/middleware/validator.ts:26-28 | the sanitised string has no angle bracket and is no longer than the input |
| Validator.SanitizeKeeps | server/src/middleware/validator.ts:26-28 | the sanitised string keeps every other character of the trimmed input, as often as it occurs there |
| Validator.SanitizeNotIdempotent | server/src/middleware/validator.ts:26-28 | trimming comes before the removal, so `"< x"` sanitises to `" x"`, and sanitising that again gives `"x"` |
| Validator.ValidateId | server/src/middleware/validator.ts:43-52 | a rejection is always 400 "Invalid ID parameter" |
| Validator.NumberOfDigits | server/src/middleware/validator.ts:45 | `Number()` of a non-empty digit string is its decimal value |
| Validator.ValidateIdPrinted | server/src/middleware/validator.ts:43-52 | the printed decimal of `n` passes iff `n > 0` |
| Validator.ValidateIdDigits | server/src/middleware/validator.ts:43-52 | a digit string passes iff some digit is not `0`; so `""`, `"0"` and `"000"` are rejected |
| Validator.ValidateIdNegative | server/src/middleware/validator.ts:47-49 | a minus sign before digits is always rejected |
| Domain.PercentBelowExact | server/src/controllers/aiController.ts:53-55 | the integer cross-multiplied test decides `count / total * 100 < pct` exactly, for a total of either sign |
| Domain.CeilDiv | server/src/controllers/aiController.ts:288-291 | `Math.ceil(a / b)` is the `q` with `(q - 1) * b < a <= q * b` |
| Domain.CeilDivAtMost | server/src/controllers/aiController.ts:288-291 | `ceil(a / b) <= k` iff `a <= k * b` |
| RiskRules.LowRsvpRule | server/src/controllers/aiController.ts:49-72 | fires only with a truthy capacity; high iff the rate is below 30, medium iff it is in [30, 50); carries the confirmed count and the capacity |
| RiskRules.SeverityNamesDistinct | server/src/controllers/aiController.ts:42 | the severities' JSON strings `"low"`, `"medium"`, `"high"` tell them apart |
| RiskRules.RiskTypeNamesDistinct | server/src/controllers/aiController.ts:57-157 | the six JSON `type` strings tell the rules apart |
| RiskRules.LowRsvpRuleExact | server/src/controllers/aiController.ts:53-63 | the same thresholds on the exact percentage, and no finding iff the rate is at least 50 |
| RiskRules.LowRsvpRuleCrossMultiplied | server/src/controllers/aiController.ts:53-63 | for a positive capacity: high iff `100 c < 30 cap`, medium iff `30 cap <= 100 c < 50 cap` |
| RiskRules.LowRsvpNeedsCapacity | server/src/controllers/aiController.ts:49 | no finding when the capacity is missing or zero |
| RiskRules.NegativeCapacityIsHigh | server/src/controllers/aiController.ts:49-56 | a negative capacity makes the rate non-positive, which is always high |
| RiskRules.LowRsvpExample | server/src/controllers/aiController.ts:49-62 | one of ten places confirmed gives the high finding with message "Only …% capacity filled (1/10 confirmed)" |
| RiskRules.OverdueRule | server/src/controllers/aiController.ts:74-93 | fires iff some task is past due, not completed, and Urgent or High; high; lists those tasks' id, title and due date |
| RiskRules.DueSoonRule | server/src/controllers/aiController.ts:95-111 | fires iff some open task is due in the next 24 hours; medium; lists those tasks |
| RiskRules.DueNowInNeitherSet | server/src/controllers/aiController.ts:76-101 | a task due exactly now is neither overdue nor due soon |
| RiskRules.LowCompletionRule | server/src/controllers/aiController.ts:113-129 | fires iff there are tasks and fewer than half are completed; medium; carries the completed and total counts |
| RiskRules.LowCompletionRuleExact | server/src/controllers/aiController.ts:118-121 | the same as the exact completion percentage being below 50 |
| RiskRules.EventApproachingRule | server/src/controllers/aiController.ts:131-146 | fires iff the event starts within 7 days and some task is open; high iff within 3 days; carries the ceiling of the days and the number of open tasks |
| RiskRules.EventApproachingDays | server/src/controllers/aiController.ts:133-144 | the reported day count is between 1 and 7, and the finding is high iff that count is at most 3 |
| RiskRules.UnassignedRule | server/src/controllers/aiController.ts:148-161 | fires iff some Urgent or High task has no assignee (whatever its status); high; lists id, title and priority |
| RiskRules.OverdueUnassignedUrgent | server/src/controllers/aiController.ts:76-83 | an overdue, unassigned Urgent task triggers both rules; once completed, it still triggers the unassigned rule but not the overdue one |
| RiskRules.RuleWellFormed | server/src/controllers/aiController.ts:48-161 | each rule reports only findings of its own kind and never at low severity |
| RiskRules.PushInOrder | server/src/controllers/aiController.ts:48-161 | pushing a later rule's finding keeps the list in rule order |
| RiskRules.FindingsUpToOrdered | server/src/controllers/aiController.ts:48-161 | for any table of well-formed rules, after the first `k` of them: at most `k` findings, in rule order, none low |
| RiskRules.FindingsUpToExact | server/src/controllers/aiController.ts:48-161 | for any table of well-formed rules, after the first `k` of them the list holds exactly the findings those rules produced |
| RiskRules.RulesOfWellFormed | server/src/controllers/aiController.ts:48-161 | each of the six rules, if it fires, yields a finding of its own kind and of high or medium severity |
| RiskRules.FindingsShape | server/src/controllers/aiController.ts:48-161 | at most six findings, in rule order, none low; a finding is listed iff its kind's rule produced it |
| RiskRules.FindingReported | server/src/controllers/aiController.ts:48-161 | the same, for one given finding |
| RiskRules.HighRuleReported | server/src/controllers/aiController.ts:48-161 | a rule firing at high severity puts a high finding in the list |
| RiskRules.Push | server/src/controllers/aiController.ts:56-62 | `risks.push` appends the finding, if there is one |
| RiskRules.RunRules | server/src/controllers/aiController.ts:40-161 | running the six rules in order, pushing each result, builds exactly the specified findings |
| RiskRules.Score | server/src/controllers/aiController.ts:164-168 | the `reduce` is 3 per high, 2 per medium and 1 per low finding |
| RiskRules.SeveritiesPartition | server/src/controllers/aiController.ts:179-184 | the high, medium and low counts add up to the number of findings |
| RiskRules.AnalyzeEventRisks | server/src/controllers/aiController.ts:7-192 | 404 "Event not found" iff no event; otherwise the event's id and title, the specified findings, and a summary whose counts add up (no low findings); the score is the weighted sum, and the level is high iff score >= 6, medium iff 3 <= score < 6, low iff score < 3 |
| BatchRisk.Overview | server/src/controllers/aiController.ts:405-422 | high iff the capacity is unset or zero, or the rate is below 30, or some critical task is overdue; medium iff none of those holds and the rate is below 50; the count is the overdue tasks plus one for a rate below 30 |
| BatchRisk.QuickRisk | server/src/controllers/aiController.ts:406-422 | the `let riskLevel` raised through the `if` chain, counting as it goes, gives the specified overview |
| BatchRisk.GetAllEventsWithRisks | server/src/controllers/aiController.ts:386-433 | one overview per event, in event order |
| BatchRisk.NoCapacityIsHigh | server/src/controllers/aiController.ts:407 | with no truthy capacity the rate is 0: the event is high, and that rate adds one to the count |
| BatchRisk.OverviewExact | server/src/controllers/aiController.ts:407-415 | the levels in terms of the exact percentage: high iff rate < 30 or some task is overdue; medium iff 30 <= rate < 50 and none is |
| BatchRisk.HighOverviewHasHighFinding | server/src/controllers/aiController.ts:403-424 | with a capacity, a high overview implies a high finding in the full analysis |
| BatchRisk.ListViewStricterThanAnalysis | server/src/controllers/aiController.ts:403-424 | without capacity or tasks, the list view says high whereas the full analysis finds nothing |
| EmailGen.KindOf | server/src/controllers/aiController.ts:235-370 | the `switch (type)` selects only the kind whose name is the string |
| EmailGen.KindOfName | server/src/controllers/aiController.ts:235-370 | each kind is selected by exactly its own name |
| EmailGen.GenerateEmail | server/src/controllers/aiController.ts:195-383 | unknown type: 400 listing the supported types; known type without its event or task: 400 with that kind's message; otherwise success with `to` equal to `recipientEmail \|\| ""`, the ISO timestamp, and the kind's subject and body |
| EmailGen.BodyGreets | server/src/controllers/aiController.ts:242-255 | the trimmed body is the greeting, then the rest of the template trimmed at the end |
| EmailGen.BodySigned | server/src/controllers/aiController.ts:242-255 | when the signer ends visibly, the trimmed body is exactly greeting, text and signer |
| EmailGen.BodyStartsWithGreeting | server/src/controllers/aiController.ts:242-255 | every body starts with `Dear <name>,` |
| EmailGen.BodyEnds | server/src/controllers/aiController.ts:242-255 | a body whose text ends with the sign-off, and whose signer ends visibly, ends with sign-off and signer |
| EmailGen.EventReminderContent | server/src/controllers/aiController.ts:242-254 | the event reminder's text closes with "Best regards," |
| EmailGen.TaskAssignmentContent | server/src/controllers/aiController.ts:264-279 | the task assignment's text closes with "Best regards," |
| EmailGen.TaskReminderContent | server/src/controllers/aiController.ts:294-312 | the task reminder's text closes with "Best regards," |
| EmailGen.SponsorThanksContent | server/src/controllers/aiController.ts:322-336 | the sponsor letter's text closes with "With sincere appreciation," |
| EmailGen.RsvpConfirmationContent | server/src/controllers/aiController.ts:346-361 | the RSVP confirmation's text closes with "Best regards," |
| EmailGen.TaskAssignmentPriority | server/src/controllers/aiController.ts:270 | the assignment shows `Priority: <priority>`, and `Priority: Medium` when the task has none |
| EmailGen.TaskReminderPriority | server/src/controllers/aiController.ts:300 | the reminder shows `Priority: <priority>`, and `Priority: Medium` when the task has none |
| EmailGen.SponsorThanksOnBehalf | server/src/controllers/aiController.ts:325 | the sponsor letter thanks "On behalf of" the organisation's name, and of "our organization" when it has none |
| EmailGen.EventReminderGreets | server/src/controllers/aiController.ts:243 | the event reminder greets the recipient, else "Volunteer" |
| EmailGen.EventReminderSigned | server/src/controllers/aiController.ts:253-255 | it ends with "Best regards," and the organisation's name, else "Event Management Team" |
| EmailGen.TaskAssignmentGreets | server/src/controllers/aiController.ts:265 | the assignment greets the recipient, else the assignee's full name, else "Volunteer" |
| EmailGen.TaskAssignmentSigned | server/src/controllers/aiController.ts:278-280 | it always ends with "Best regards," and "Event Management Team" |
| EmailGen.TaskReminderGreets | server/src/controllers/aiController.ts:295 | the task reminder greets the recipient, else the assignee, else "Volunteer" |
| EmailGen.TaskReminderSigned | server/src/controllers/aiController.ts:311-313 | it always ends with "Best regards," and "Event Management Team" |
| EmailGen.SponsorThanksGreets | server/src/controllers/aiController.ts:323 | the sponsor letter greets the recipient, else "Sponsor" |
| EmailGen.SponsorThanksSigned | server/src/controllers/aiController.ts:335-337 | it ends with "With sincere appreciation," and the organisation or the team |
| EmailGen.RsvpConfirmationGreets | server/src/controllers/aiController.ts:347 | the RSVP confirmation greets the recipient, else "Guest" |
| EmailGen.RsvpConfirmationSigned | server/src/controllers/aiController.ts:360-362 | it ends with "Best regards," and the organisation or the team |
| EmailGen.TeamSignerVisible | server/src/controllers/aiController.ts:279 | "Event Management Team" ends in a visible character, so the trim keeps it whole |
| EmailGen.EventSignerVisible | server/src/controllers/aiController.ts:254 | the event's signer survives the trim iff the organisation has no truthy name or its name ends visibly |
| EmailGen.DaysUntilDue | server/src/controllers/aiController.ts:288-291 | a day count exists iff the task has a due date, and it is the ceiling of the days until it |
| EmailGen.UrgentWhen | server/src/controllers/aiController.ts:305-307 | the "due soon" line appears iff the task is due within the next day, or at least a full day overdue (a negative day count is truthy) |
| EmailGen.DueClausePending | server/src/controllers/aiController.ts:293 | the subject says "pending" iff there is no due date or the day count is 0 (due by now, less than a day ago) |
| EmailGen.DueClausePlural | server/src/controllers/aiController.ts:293 | the subject says "days" iff the task is due more than a day from now |

## Left out

- Prisma, Express and the 500 paths are not modelled. The handlers' `catch` blocks, `res.json` and `console.error`
  are replaced by `Result` values. Lookups are parameters, and so is the `parseInt` of the ids that select them.
- The model reads the clock once, as `now`. The source calls `new Date()` several times in one request, including
  once per task in the list view.
- Locale-dependent and runtime formatting is opaque: `toLocaleDateString`, `toLocaleString`, `toISOString`
  and the percentage's `toFixed(0)`. These are functions passed in a `Formats` value. Equally, the float
  fields `rsvpRate` and `completionRate` of the data payloads are not carried: the payload keeps the two
  integers they are computed from, and the lemmas ending in `Exact` relate the thresholds to exact real
  arithmetic. Floating-point rounding of the rate is not modelled.
- `Promise.all` in the list view is modelled as the sequential loop over the events, because the per-event work is pure.
- ValidateId: `Number()` is modelled for surrounding whitespace, an optional sign and decimal digits, with `""`
  as 0. Other numeric syntaxes (a decimal point, exponents, hexadecimal, `Infinity`) count as NaN here, so such ids
  are rejected, whereas the source accepts positive ones.
- Property lookup on the request body models own keys and the members of `Object.prototype` only. A body that is not a
  plain object (an array, say) is outside the model.
- `validateRequestBody` is only the wrapper that passes `validateRequired`'s error to `next`, and is not modelled separately.
- The email subjects have no lemma of their own. Each letter function spells its subject out, and `GenerateEmail`
  states that the response carries the letter of its kind.
- EventReminderSigned, SponsorThanksSigned, RsvpConfirmationSigned: these require that the signer ends in a visible character.
  An organisation name that ends in whitespace loses that whitespace to the trim.
- The client and the other server routes are not part of this model.

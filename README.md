# vt-sniper, modelled in Dafny

vt-sniper is a command-line monitor for Virginia Tech course sections. It
reads a configuration (the CRNs to watch, an email address, the campus, the
term, the check interval and, in the current runner, the timetable URL). It
resolves each CRN to a course name through the timetable search, keeping
only the CRNs it can resolve. Then it polls the timetable's "open only"
search, cycle after cycle. When a tracked section appears there, the course
is marked found and an email is attempted through Resend; it goes out only
when a Resend API key is set. The run ends after the
cycle that leaves no course remaining.

The project models:

- the current runner (`vt_sniper.go`);
- the older single-file runner (`main.go`);
- the scripted demo loop (`demo.go`);
- the pure helpers of the terminal interface (`ui.go`).

Modules:

- `Wrappers`: `Option` and `Result`.
- `GoStrings`: Go's `strings.Contains`, `strings.TrimSpace` (with the exact `unicode.IsSpace` set) and `strings.Repeat`.
- `Timetable`: the search form and what the monitor reads back from the response.
  - The form has one constructor per field; `Key` gives the name each field is posted under.
  - A response is abstracted as a `Document`: the text of the results table and the cell texts of its rows.
  - The last-matching-row rule of the name lookup.
- `Tracking`: what the three loops share.
  - The per-course state.
  - The answers of the availability oracle.
  - One polling cycle as a function of the state (`Cycle`), and a run of cycles (`AfterCycles`).
  - The order-preserving resolution filter (`Resolved`).
  - The alert attempted for a course.
- `Notify`: the email send, with its missing-key guard in front of an abstract provider.
- `Sniper`: `vt_sniper.go`.
  - `loadConfig` after decoding, `getBaseURL`, `buildPayload`, `checkSectionOpen` and `getCourseName`.
  - `Run` as the phases `ResolveCourses` and `Poll`, with the inner loop as `PollCycle`/`CheckCourse`.
- `LegacyMain`: `main.go`, with the same structure. `main` is `Monitor`.
  - It has a fixed endpoint, no base URL and fatal exits.
  - It is proved to make exactly the requests the current runner makes when no base URL is configured.
- `Ui`: `truncateString` on bytes, the box edges and lines, Go's truncated remainder and spinner frame selection.
- `Demo`: `RunDemo` with its scripted availability rule, proved to end after attempt 3.

The network is a parameter:

- The lookup of the configured CRN at position `i` is served by `resolveNet(i)`.
- The check of the course at position `i` during attempt `a` is served by `net(a, i)`.
- Each is a function from the target URL and the posted form to a document or an error.

The email provider is a parameter of type `EmailRequest -> Result<()>`. The Resend API key, which the source reads from the environment, is a parameter too.

Each loop method is proved against the tracking functions:

- After cycle `a`, the state is `Cycle(state before, answers, a)`.
- The remaining count equals the number of unfound courses.
- The positions checked are exactly the unfound ones, in order.
- The notifications attempted (the `sendEmail` calls) are one per course found, in order.
- The outcome of each call is returned, and is `Notify.Send` of that notification. With an empty API key, no request reaches the provider. The state, the checks and the notifications attempted do not depend on the key or on the provider.

The tracking lemmas then prove:

- the run invariants: CRN and name fixed, `found` monotone, `remaining` non-increasing, no course found twice;
- the termination condition.

## Model

| member | source | states |
|---|---|---|
| GoStrings.Contains | vt_sniper.go:174 | `strings.Contains(s, sub)` holds exactly when `sub` occurs in `s` at some offset |
| GoStrings.TrimSpaceSpec | vt_sniper.go:190 | `TrimSpace(s)` is the slice of `s` left after cutting leading and trailing white space. It is bounded by non-spaces at both ends, and empty exactly when `s` is all white space |
| GoStrings.RepeatRune | ui.go:80 | `strings.Repeat` of a one-rune string `n` times is `n` copies of that rune |
| Timetable.KeyInjective | vt_sniper.go:116-131 | distinct form fields are posted under distinct names, so the field-keyed form carries exactly as many names as fields |
| Timetable.LastMatch | vt_sniper.go:186-192 | gives the position of a row whose first cell contains the CRN, with no matching row after it; gives none exactly when no row matches |
| Timetable.TitleOf | vt_sniper.go:186-199 | the name is the non-empty trimmed third cell of the last matching row, if that row has one (and then is the only possible result); otherwise the error is "course not found for CRN: <crn>" |
| Timetable.NamedByIsLastMatch | vt_sniper.go:186-192 | a row that yields a name is always the last matching row |
| Timetable.BlankLastTitleHidesEarlier | vt_sniper.go:186-197 | when the last matching row's trimmed title is blank, the lookup fails even though an earlier row matched |
| Tracking.PendingSpec | vt_sniper.go:274-277 | the positions a cycle checks are exactly the unfound courses, each once, in increasing order |
| Tracking.RemainingZeroIff | vt_sniper.go:300-303 | nothing remains exactly when every tracked course is found |
| Tracking.RemainingAllPending | vt_sniper.go:267 | with no course found yet, `remaining` starts at the number of courses |
| Tracking.FlippedSpec | vt_sniper.go:288-291 | the courses a cycle finds are exactly the unfound ones whose check answers open, each once, in order |
| Tracking.CycleEffect | vt_sniper.go:274-298 | a cycle keeps every CRN and name. It leaves found courses, and courses whose check errs or answers not open, unchanged. It only sets `found` to true |
| Tracking.CycleQuiet | vt_sniper.go:282-286 | a cycle with no "open" answer leaves the whole state unchanged |
| Tracking.CycleRemaining | vt_sniper.go:288-291 | in a cycle, `remaining` drops by exactly the number of courses found |
| Tracking.CycleAlertsAlign | vt_sniper.go:292-294 | the k-th email of a cycle is the alert "OPEN SEAT: <name> (CRN: <crn>)" for the k-th course found |
| Tracking.RunKeepsCourses | vt_sniper.go:271-316 | over any number of cycles, the CRN and the name at each position never change |
| Tracking.RunMonotone | vt_sniper.go:271-316 | over a run, a found course stays found, and `remaining` never increases and never exceeds the number of courses |
| Tracking.PendingThroughAll | vt_sniper.go:300-303 | `PendingThrough(n)` (what the loops promise for the cycles before they stop) holds exactly when something remained after each of attempts 1 to `n` |
| Tracking.AllFoundStays | vt_sniper.go:274-277 | once nothing remains, further cycles change nothing, so stopping there loses nothing |
| Tracking.RunFlippedSpec | vt_sniper.go:288-294 | over a run, no course is found (and alerted) twice. Every course found stays found. `remaining` drops by exactly the number found |
| Tracking.RunAlertsAlign | vt_sniper.go:288-294 | over a run, the k-th notification attempted (`sendEmail` call) is the alert "OPEN SEAT: <name> (CRN: <crn>)" for the k-th course found. With `RunFlippedSpec`, no course is alerted twice |
| Tracking.RunChecksAll | vt_sniper.go:274-282 | attempt k+1 checks exactly the courses still unfound after attempt k, in order |
| Tracking.FoundNotRechecked | vt_sniper.go:274-277 | a course found by attempt a is never checked on any later attempt |
| Tracking.FoundHistoryAll | demo.go:77-78 | the found count shown in the k-th wait is the number of courses minus `remaining` after attempt k+1 |
| Tracking.FoundHistoryMonotone | demo.go:77-78 | the found counts shown while waiting never decrease and stay between 0 and the number of courses |
| Tracking.Survivors | vt_sniper.go:251-256 | lists exactly the configured positions whose name lookup succeeds, in increasing order |
| Tracking.ResolvedIsFilter | vt_sniper.go:250-259 | the tracked courses are the CRNs whose lookup succeeded, in configured order, each with its looked-up name and not found |
| Tracking.ResolvedAllPending | vt_sniper.go:257 | every resolved course starts out not found, so `remaining` starts at the number of tracked courses |
| Notify.Send | vt_sniper.go:208-226 | with an empty API key, the provider is never contacted and the error is "RESEND_API_KEY not set". Otherwise exactly one request (from onboarding@resend.dev, to the one recipient, with the subject and text) goes out, and its result is returned unchanged |
| Notify.MissingKeyIgnoresProvider | vt_sniper.go:37-39 | without a key, the outcome does not depend on the provider |
| Notify.SendAllAppend | vt_sniper.go:294 | the outcomes of sending two runs of notifications one after the other are the outcomes of the first run followed by those of the second |
| Notify.SendAllEach | vt_sniper.go:294 | sending a list of notifications makes one send per notification, the k-th outcome being the send of the k-th notification |
| Notify.SendAllWithoutKey | vt_sniper.go:209-211 | with an empty API key, no notification of a list reaches the provider, and every outcome is the "RESEND_API_KEY not set" error |
| Notify.SendAllWithKey | vt_sniper.go:213-226 | with a key, the k-th notification becomes exactly one request, from onboarding@resend.dev to its one recipient with its subject and text, and its outcome is the provider's answer to that request |
| Sniper.LoadConfig | vt_sniper.go:73-103 | fails, with "no CRNs specified in config", exactly when the CRN list is empty; otherwise returns the decoded configuration with its defaults applied |
| Sniper.DefaultsFill | vt_sniper.go:85-96 | defaults: interval 0 to 30, campus "" to "0", term "" to "202601", base URL "" to the default endpoint. Set fields, the CRNs and the email pass through unchanged, and every defaulted field ends up set |
| Sniper.DefaultsIdempotent | vt_sniper.go:85-96 | applying the defaults twice is the same as applying them once |
| Sniper.GetBaseURL | vt_sniper.go:105-110 | never empty: the configured URL when set, the default endpoint otherwise |
| Sniper.LoadedBaseURL | vt_sniper.go:105-110 | after loading, `getBaseURL` is the `BaseURL` field, so the name lookup and the availability check post to the same endpoint |
| Sniper.PayloadKeys | vt_sniper.go:114-136 | the payload has exactly the eleven search fields, plus `open_only` exactly when it is asked for |
| Sniper.PayloadValues | vt_sniper.go:116-131 | every field has one value. `CAMPUS`, `TERMYEAR` and `crn` come from the arguments, the other search fields have their fixed wildcard values, and `open_only` is "on" |
| Sniper.CheckSectionOpen | vt_sniper.go:166-175 | posts the open-only search to `getBaseURL`. A fetch error is returned unchanged. Otherwise the section is open exactly when the CRN occurs in the table text |
| Sniper.EmptyCRNAlwaysOpen | vt_sniper.go:174 | an empty CRN is reported open by any successful fetch |
| Sniper.GetCourseName | vt_sniper.go:179-200 | the row loop computes the name lookup of the unfiltered search posted to `BaseURL`: fetch errors unchanged, otherwise `TitleOf` |
| Sniper.ResolveCourses | vt_sniper.go:250-259 | the start-up loop builds `Resolved(crns, lookups)` |
| Sniper.CheckCourse | vt_sniper.go:274-297 | a found course is skipped unchecked. An unfound one is checked, and becomes found exactly when the check answers open. Exactly then its alert is attempted, and the outcome returned is `Notify.Send` of that alert; the state does not depend on that outcome |
| Sniper.PollCycle | vt_sniper.go:274-298 | one pass gives `Cycle` of the state. It keeps `remaining` equal to the unfound count, lowered by the number found. It checks exactly the unfound positions in order, and attempts the alerts of the courses found in order. The outcomes are the sends of those alerts, one each, in order |
| Sniper.Attempt | vt_sniper.go:271-298 | one attempt takes the state, the checks, the notifications attempted and their send outcomes after attempt k-1 to those after attempt k, and something remains after it exactly when `remaining` is positive |
| Sniper.Poll | vt_sniper.go:267-316 | it never fails. It reports success at attempt k exactly when attempt k is the first after which nothing remains, and then the state is the state after k cycles. Otherwise, after the bound, something remained after every attempt. The positions checked on each attempt are `RunChecks`, and the notifications attempted are `RunAlerts`, over the cycles run. The send outcomes are `SendAll` of those notifications |
| Sniper.Run | vt_sniper.go:237-317 | an empty CRN list fails with "failed to load config: no CRNs specified in config". No resolvable CRN fails with "no valid CRNs to monitor", before polling. Otherwise it never fails, and ends as `Poll` does over the resolved courses, with the same checks, notifications attempted and send outcomes. A failed run checks and attempts nothing. With an empty API key every outcome is the missing-key error, so no request reaches the provider |
| LegacyMain.LoadConfig | main.go:42-69 | fails exactly when the CRN list is empty; otherwise applies the three defaults (no base URL) |
| LegacyMain.DefaultsAgree | main.go:54-62 | the older defaults are the current ones, and the current base-URL default is the older fixed endpoint |
| LegacyMain.PayloadAgrees | main.go:95-117 | the older payload equals the current one: the eleven fields plus `open_only` exactly when asked, with campus, term and CRN from the arguments |
| LegacyMain.CheckSectionOpen | main.go:147-156 | posts to the fixed timetable URL. Fetch errors are unchanged. Otherwise it is open exactly when the CRN occurs in the table text |
| LegacyMain.GetCourseName | main.go:160-181 | the row loop computes the last-matching-row lookup of the search posted to the fixed URL |
| LegacyMain.AnswersAgree | main.go:147-181 | over the same network, the older runner gets the same availability answers and name lookups as the current runner with no base URL |
| LegacyMain.ResolveCourses | main.go:222-232 | the start-up loop builds `Resolved(crns, lookups)` |
| LegacyMain.CheckCourse | main.go:247-271 | as `Sniper.CheckCourse`, with the older request |
| LegacyMain.PollCycle | main.go:247-271 | as `Sniper.PollCycle`, with the older request |
| LegacyMain.Attempt | main.go:244-271 | as `Sniper.Attempt`, with the older request |
| LegacyMain.Poll | main.go:240-289 | the `remaining > 0` loop never fails, and returns right after the first attempt that leaves nothing remaining. Its checks are `RunChecks`, its notifications attempted `RunAlerts` over the cycles run, and its send outcomes `SendAll` of those |
| LegacyMain.Monitor | main.go:213-290 | `main`: an empty CRN list is fatal ("Failed to load config: ..."), and so is an empty tracked set ("No valid CRNs to monitor"). Otherwise it ends as `Poll` does, with the same checks, notifications attempted and send outcomes. With an empty API key, no request reaches the provider |
| Ui.TruncateBounds | ui.go:175-180 | for `maxLen >= 3`, the result never exceeds `maxLen`. A string that fits is returned unchanged. A longer one becomes exactly `maxLen` bytes: a prefix of `s` followed by "..." |
| Ui.TruncateIdempotent | ui.go:175-180 | truncating a truncated string changes nothing |
| Ui.BoxEdges | ui.go:79-85 | each edge is the colour, its corner, exactly 50 "─" and the reset sequence; the two edges differ only in the corner |
| Ui.BoxLineContent | ui.go:87-89 | a box line is the colour, "│", the reset and a space, followed by the content, so the content is recoverable from the line |
| Ui.GoRemSpec | ui.go:126 | Go's `%` satisfies `a == (a/n)*n + a%n`. The remainder is below `n` in magnitude and never has the sign opposite to `a` |
| Ui.SpinnerIndexRange | ui.go:124-127 | for a non-negative counter, the frame index is in [0, 10) and repeats every 10 steps. A negative counter gives a valid index only on multiples of 10. The frame shown for a non-negative counter is `Spinner[idx mod 10]` |
| Demo.FoundSeatRule | demo.go:49-54 | a seat, once shown, keeps showing on later attempts. CRNs other than 13466 and 13472 never get one, and none shows before attempt 2 |
| Demo.DemoCheck | demo.go:37-64 | a found course is skipped; otherwise the scripted rule decides whether it becomes found |
| Demo.DemoCycle | demo.go:37-65 | one attempt gives `Cycle` of the state, keeps `remaining` equal to the unfound count, and visits exactly the unfound courses in order |
| Demo.DemoTrajectory | demo.go:33-69 | attempt 1 finds nothing, attempt 2 finds 13466 and attempt 3 finds 13472; `remaining` goes 2, 1, 0 |
| Demo.RunDemo | demo.go:31-82 | the loop ends after attempt 3 with both courses found. It announces 13466 and then 13472, and shows found counts 0 and then 1 while waiting |

## Left out

- HTTP (`http.PostForm`, status checks), HTML parsing with goquery and the CSS selectors are not modelled. A fetch is an oracle returning a `Document` (table text and row cell texts) or an error. Which text the selectors pick is outside the model.
- The error texts of `fetchDocument` pass through unchanged, but their contents are the oracle's.
- Go's `(false, err)` and `("", err)` results are the `Err` case of a `Result`.
- `os.ReadFile` and `json.Unmarshal` are not modelled: `LoadConfig` starts from the decoded `Config`, so the read and parse errors are not modelled.
- `os.Getenv("RESEND_API_KEY")` is not modelled; the key is a parameter.
- The Resend client is not modelled; it is the provider parameter. The loops return each send outcome but, as the source does, never act on it.
- The `EmailSender` that `Run` selects at vt_sniper.go:244-247 is never used by the loop, which calls the environment-based `sendEmail`. The model follows the code.
- `ResendEmailSender.Send` (vt_sniper.go:36-51) has the same guard and request as `sendEmail`. Both are `Notify.Send`.
- Sleeps, clocks, the check time, the interval wait and the spinner animation are left out because they are real time with no logical content. The wait loop appears only through the found count it shows (`FoundHistory`, used by the demo).
- All printing, the banner, the `Print*` functions, the colour and icon constants other than `Reset`, and flag parsing are presentation only and are left out.
- Sniper.Run: the source loop never ends while something remains. `Run`, `Poll`, `LegacyMain.Monitor` and `LegacyMain.Poll` take a bound `maxCycles` and end with `StillPolling` when it is reached. At that point they still state the state after `maxCycles` cycles and that something remained after each of them.
- LegacyMain.Monitor: `log.Fatalf` (printing and process exit) is the `Failed` outcome with the same message.
- Ui.Truncate works on a sequence of bytes, as Go's `len` and slicing do. The model does not say how `string` values (sequences of code points elsewhere in the model) encode to UTF-8, so a cut in the middle of a multi-byte rune is not visible.
- Ui.GoRem is defined for positive divisors only, the only kind the source uses (`len(Spinner)`).
- GoStrings.Contains compares code points, while Go's `strings.Contains` (vt_sniper.go:174, :189) compares bytes. The two agree on valid UTF-8, because the encoding of `sub` can only match at a code-point boundary of `s`.
- GoStrings.TrimSpace works on code points. Invalid UTF-8 bytes, which Go's `TrimSpace` treats as non-space, cannot arise in a `seq<char>`.
- The network is indexed by attempt and position. Two checks of the same CRN at different positions may therefore get different answers, which is at least as general as the source.
- `getCourseName` posts to the `BaseURL` field directly, while `checkSectionOpen` uses `getBaseURL`. `Sniper.LoadedBaseURL` shows they agree on every loaded configuration; an unloaded configuration with an empty `BaseURL` is not reachable from `Run`.
- Attempt `k` is the k-th cycle. The loop headers `for attempt := 1; ; attempt++` (vt_sniper.go:271) and `for attempt := 1; remaining > 0; attempt++` (main.go:244, demo.go:33) number the first cycle 1 and increment after each cycle.

# mutt-ical in Dafny

`mutt-ical.py` is a Python 2 script that answers an iCalendar invitation
from the mutt mail reader. It shows the event. It then decides the answer,
either from the command-line options `-a`, `-d` and `-t` or by prompting
under `-i`. It builds a METHOD:REPLY calendar whose attendees are the
user's own entries, each with their participation status set. Finally it
hands that reply to mutt as an attachment, in a mail addressed to the
organizer.

This project models the script's own logic over an abstract calendar:
- An event is a map from lower-case property name to its content lines.
- A content line is a value (text, a datetime or a date) plus a map of parameters
  (`Calendar`).
- A raised Python exception is the error arm of a `Result` (`Outcomes`).

The modules follow the script:
- `Params`: `del_if_present` and `set_accept_state`. `SetAcceptState`
  rewrites an `array` of attendee lines in place.
- `Emails`: the address extraction the script repeats inline. It is
  `EMAIL_param`, or else `value.split(':')[1]`.
- `Responders`: the matching loop.
- `Reply`: `get_answer`, `get_mutt_command` and the mail text.
- `Decision`: `get_accept_decline` and the option loop.
- `Display`: what `display` reads and can fail on.
- `Workflow`: the `__main__` block, both as the function `Run` and as the
  method `Respond`, which is proved equal to it.
- `Scenarios`: whole runs on a one-attendee invitation, including the
  sprint-planning meeting of boss@co.com and alice@co.com.

The outer and inner loops of `set_accept_state`, the copy loop of `get_answer`,
`get_accept_decline`, the option loop and the matching loop are methods,
each proved against a specification function. The specification
functions carry their properties as postconditions or lemmas. The attendee
loop of `display` (mutt-ical.py:152-156) prints as it goes; it is modelled
only by the recursive function `Display.ListingAsWritten`, which builds
the text it prints, or the exception it raises.

Where the script's own text, or a natural reading of it, differs from what
its code does, the model follows the code:
- **No default answer.** The usage text says "accept is default"
  (mutt-ical.py:37). But without -a, -d, -t or -i the decision stays
  empty (mutt-ical.py:163), and the script exits 0 without replying
  (mutt-ical.py:188-189). See `Workflow.UndecidedExitsZero`.
- **Address piece.** The address taken from a value is the second
  `:`-separated piece (`split(':')[1]`), not everything after the first
  colon. So `MAILTO:a:b` gives `a`.
- **Matching.** The loop keeps every matching attendee, not only the
  first. The sender address is that of the last match.
- **DTSTAMP zone.** The new DTSTAMP takes its tzinfo from the
  invitation's DTSTAMP, not from its DTSTART.
- **End of input.** `get_accept_decline` never returns once standard
  input is exhausted: `readline` keeps returning `""`. The model reports
  this as `Prompted.Exhausted` and the run as `Outcome.Hangs`.

Parameters stand in for things outside the script:
- the clock (`now`, the UTC wall-clock reading);
- the temporary directory's name;
- the parsed options (`opts`);
- the lines typed at the prompt (`input`);
- the parsed invitation.

## Model

| member | source | states |
|---|---|---|
| Strings.Split | mutt-ical.py:176 | `arg.split(',')`: at least one piece, no piece holds the separator, joining the pieces gives back the string, and a string without the separator is one piece |
| Strings.SplitJoin | mutt-ical.py:176 | splitting a join of separator-free pieces gives back those pieces |
| Strings.Lower | mutt-ical.py:219 | no contract of its own: ASCII-only `lower` (also at mutt-ical.py:55-61), specified through `Decision.AnswerFor`, `Decision.LowerLine` and `Scenarios.StateLabels` |
| Strings.Capitalize | mutt-ical.py:90 | no contract of its own: `capitalize`, specified through `Scenarios.StateLabels` |
| Strings.AsciiEncode | mutt-ical.py:98 | no contract of its own: the default ASCII `encode`, specified through `Calendar.SummaryText` |
| Calendar.Param | mutt-ical.py:202-205 | no contract of its own: `hasattr(x, 'NAME_param')` and `x.NAME_param` (also at mutt-ical.py:92-93 and 153-154), where an empty value list counts as absent; specified through `Emails.EmailOf`, `Emails.DualRepresentation` and `Display.ListingAsWrittenOk` |
| Calendar.AttendeesOf | mutt-ical.py:193-196 | no contract of its own: the invitation's attendee lines, or none without an ATTENDEE (also at mutt-ical.py:142-145); specified through `Workflow.MatchedAreInvited` and `Workflow.NobodyInvited` |
| Calendar.SummaryText | mutt-ical.py:98 | `contents['summary'][0].value.encode()` (also at mutt-ical.py:130) succeeds exactly when a first SUMMARY line exists and holds ASCII text, and then gives that text |
| Strings.SplitAfter | mutt-ical.py:95 | splitting just after a separator-free prefix yields that prefix first, then the split of the rest |
| Params.DelIfPresent | mutt-ical.py:40-42 | `key` is gone afterwards, every other key keeps its value, and an absent key leaves the map unchanged |
| Params.DelIfPresentIdempotent | mutt-ical.py:40-42 | deleting a key twice is deleting it once |
| Params.DelAll | mutt-ical.py:47-48 | after the four deletions none of the keys remain, and every other key keeps its presence and value |
| Params.DelEach | mutt-ical.py:47-48 | the inner `for` loop computes `DelAll` |
| Params.SetState | mutt-ical.py:44-48 | one attendee is rewritten: PARTSTAT becomes `[state]`, RSVP, ROLE, X-NUM-GUESTS and CUTYPE are gone, and the value and all other parameters are untouched |
| Params.SetStateIdempotent | mutt-ical.py:44-49 | setting the same state twice is setting it once |
| Params.AcceptAll | mutt-ical.py:44-49 | no contract of its own: the attendee list after `set_accept_state`; specified through `Params.SetAcceptState`, `Workflow.AcceptAllKeepsEmails` and `Workflow.AcceptAllStates` |
| Params.SetAcceptState | mutt-ical.py:44-49 | the in-place loop rewrites each array element by `SetState`, keeping length and order |
| Emails.ColonPiece | mutt-ical.py:95 | `value.split(':')[1]` succeeds exactly on text holding a colon; otherwise it raises (IndexError, or AttributeError for a datetime or a date); the piece holds no colon |
| Emails.ColonPieceOf | mutt-ical.py:208 | `mailto:foo@x.com` gives `foo@x.com`; in general the piece is the text between the first colon and the next one |
| Emails.FirstPiece | mutt-ical.py:208 | the first piece of an address followed by nothing or by a colon is the address |
| Emails.DualRepresentation | mutt-ical.py:202-210 | an EMAIL parameter and a `mailto:` value give the same address, and the parameter wins when both are present |
| Emails.EmailOf | mutt-ical.py:202-210 | the address is extractable exactly when there is an EMAIL parameter or the value is text holding a colon; without an EMAIL parameter the address holds no colon (see also `Emails.DualRepresentation`) |
| Emails.SenderOf | mutt-ical.py:91-97 | no contract of its own (the same code is at mutt-ical.py:131-137): specified by `Emails.SenderCases` |
| Emails.EmailOfSetState | mutt-ical.py:197-208 | `set_accept_state` does not change any attendee's extracted address |
| Emails.SenderCases | mutt-ical.py:91-97 | the sender is the organizer's EMAIL parameter, else the second colon piece of its value, and "NO SENDER" without an organizer |
| Responders.Matches | mutt-ical.py:201-211 | every attendee the loop keeps has an extractable address that is in the user's list |
| Responders.MatchesIsInvited | mutt-ical.py:201-211 | the loop raises exactly when some address cannot be extracted; otherwise it keeps exactly the invited attendees, in document order |
| Responders.InvitedMembers | mutt-ical.py:201-214 | an attendee is kept exactly when it is listed and invited; the result is empty exactly when nobody is invited |
| Responders.MatchesPrefixErr | mutt-ical.py:208 | once an attendee's address raises, the whole loop raises the same exception |
| Responders.MatchResponders | mutt-ical.py:200-212 | the loop's appends, its `email_address` and its `flag`: the matched list is `Matches`, `flag` is 1 exactly when nothing matched, and the email is that of the last match |
| Reply.CopyFields | mutt-ical.py:72-74 | the copy succeeds exactly when no present copied property is empty; the result has exactly the copied properties present in the invitation, each as its first line unchanged |
| Reply.CopyFieldsPrefixErr | mutt-ical.py:72-74 | once one copied property raises, the whole copy raises the same way |
| Reply.CopiedDistinct | mutt-ical.py:72 | the five copied names are distinct and none is DTSTAMP |
| Reply.CopiedLacksStamp | mutt-ical.py:72-77 | the copied properties never include a DTSTAMP, so the one added is the only one |
| Reply.StampZone | mutt-ical.py:79 | `invitation.vevent.dtstamp.value.tzinfo` succeeds exactly when a first DTSTAMP line holding a datetime exists, and then gives its tzinfo; without a DTSTAMP it raises AttributeError |
| Reply.CopyEach | mutt-ical.py:72-74 | the successive `add` calls compute `CopyFields` |
| Reply.ReplyFor | mutt-ical.py:64-80 | the reply has METHOD REPLY; it holds exactly the copied properties present in the invitation, each unchanged, plus one DTSTAMP carrying `now` and the invitation DTSTAMP's tzinfo; it raises exactly when a present copied property is empty or the invitation's DTSTAMP is missing or not a datetime |
| Reply.GetAnswer | mutt-ical.py:64-80 | the step-by-step construction, with the added DTSTAMP overwritten, gives `ReplyFor` |
| Reply.MuttCommand | mutt-ical.py:89-103 | `get_mutt_command` raises exactly when the sender or the summary does; otherwise it gives nine arguments, starting with the mail command, with the reply file fifth and the sender last; the whole vector is `Workflow.CommandOf` |
| Reply.MailText | mutt-ical.py:219 | no contract of its own: the mail body, specified through `Workflow.MailedBody` and `Scenarios.AcceptedTexts` |
| Workflow.CommandOf | mutt-ical.py:89-103 | a command that does not raise is exactly the nine-element argument vector `[mutt, "-e", "my_hdr From: "+email, "-a", icsfile, "-s", Capitalize(state)+": "+summary, "--", sender]` |
| Workflow.ReplyKeepsHeaders | mutt-ical.py:91-98 | the sender and summary read from the reply are those of the invitation |
| Decision.LowerLine | mutt-ical.py:55-61 | a line whose lower-case form is a letter then a newline is that letter, in either case, then a newline |
| Decision.AnswerFor | mutt-ical.py:55-62 | `y`/`n`/`t`/`q` in either case, followed by a newline, give ACCEPTED/DECLINED/TENTATIVE/"" (each in both directions); any other line gives no answer |
| Decision.Prompt | mutt-ical.py:51-62 | the answer is that of the first line that answers, and every earlier line answered nothing; the prompt never returns exactly when no line answers |
| Decision.GetAcceptDecline | mutt-ical.py:51-62 | the re-prompting loop computes `Prompt` |
| Decision.ApplyOptionsAppend | mutt-ical.py:174-186 | running the option loop over two lists in sequence is running it over their concatenation |
| Decision.Untouched | mutt-ical.py:174-186 | the decision, the address list and the mail command each survive options that do not set them |
| Decision.Initial | mutt-ical.py:161-163 | no contract of its own: no addresses, no decision and the mail command "mutt" (mutt-ical.py:26) before the option loop; specified through `Decision.NoDecisionFlag` and `Scenarios.AcceptAsSettings` |
| Decision.Step | mutt-ical.py:175-186 | no contract of its own: one pass of the option loop; specified through `Decision.StepOnce` and the lemmas on `Decision.ApplyOptions` |
| Decision.ApplyOptions | mutt-ical.py:174-186 | no contract of its own: the option loop from the left; specified by `Decision.ReadOptions`, `Decision.LastOptionWins`, `Decision.Untouched`, `Decision.DecisionClosed` and `Decision.ApplyOptionsAppend` |
| Decision.LastOptionWins | mutt-ical.py:174-186 | the last of -a, -d and -t decides the state, and when -i is last the decision is the answer its prompt reads; the last -e gives the address list, split at commas; the last -c gives the mail command |
| Decision.DecisionClosed | mutt-ical.py:174-186 | the decision is always ACCEPTED, DECLINED, TENTATIVE or "" |
| Decision.NoDecisionFlag | mutt-ical.py:163-186 | without -a, -d, -t or -i the decision stays "" |
| Decision.ApplyOptionsPrefixNone | mutt-ical.py:177-178 | once a prompt hangs, the whole option loop hangs |
| Decision.StepOnce | mutt-ical.py:175-186 | one pass of the loop body, with its separate `if`s, computes `Step` |
| Decision.ReadOptions | mutt-ical.py:174-186 | the option loop computes `ApplyOptions` from the initial settings |
| Display.LocalTime | mutt-ical.py:147-148 | `NAME.value.astimezone(timezone)` succeeds exactly when the first NAME line holds a datetime with a tzinfo, and then keeps that datetime; text or a date raises AttributeError, a naive datetime ValueError |
| Display.AllDayStops | mutt-ical.py:147 | an all-day event, whose DTSTART is a DATE, raises AttributeError at `astimezone`, so `display` fails |
| Display.CommonName | mutt-ical.py:154-156 | no contract of its own: `attendee.CN_param`, raising AttributeError without a CN; specified through `Display.ListingAsWrittenOk` and `Display.MissingNameCrashes` |
| Display.ListingAsWritten | mutt-ical.py:152-156 | no contract of its own: the attendee listing as written; specified by `Display.ListingAsWrittenOk` and `Display.MissingNameCrashes` |
| Display.ListingAsWrittenOk | mutt-ical.py:152-156 | as written, the listing raises exactly when some attendee lacks a CN or an extractable address |
| Display.MissingNameCrashes | mutt-ical.py:152-156 | as written, the listing raises AttributeError for an attendee without a CN parameter |
| Display.Listing | mutt-ical.py:152-156 | no contract of its own: the corrected listing, which lists an attendee without a CN by address alone; specified by `Display.ListingOk` and `Display.ListingAgrees` |
| Display.ListingOk | mutt-ical.py:152-156 | the corrected listing fails exactly when some attendee's address cannot be extracted |
| Display.ListingAgrees | mutt-ical.py:152-156 | where every attendee has a CN, the corrected listing equals the one written |
| Display.PreviewOf | mutt-ical.py:129-158 | `display` as written: when it does not raise, it has read the summary, the sender, and every attendee's display name and address; without an organizer it shows NO SENDER, and without a description NO DESCRIPTION |
| Workflow.Run | mutt-ical.py:160-220 | no contract of its own: the whole `__main__` block; specified by `Workflow.Respond` and the run lemmas below |
| Workflow.WithAttendees | mutt-ical.py:198-204 | no contract of its own: the reply with the matched attendees as its attendee list; specified through `Workflow.MailedReply` and `Workflow.ReplyKeepsHeaders` |
| Workflow.Send | mutt-ical.py:218-220 | no contract of its own: the mail step; specified by `Workflow.SendFields` |
| Workflow.ReplyFile | mutt-ical.py:84 | no contract of its own: the reply file's name inside the temporary directory; specified through `Workflow.MailedCommand` and `Scenarios.SprintAccepted` |
| Workflow.AllDayInvitationStops | mutt-ical.py:147 | an all-day invitation makes every run with a file argument raise in `display` (called at mutt-ical.py:172) |
| Workflow.Respond | mutt-ical.py:160-220 | the `__main__` block, step by step, computes `Run` |
| Workflow.AcceptAndMatch | mutt-ical.py:193-212 | `set_accept_state` on the invitation's attendees followed by the matching loop: the matched list, the flag (1 exactly when nothing matched) and the last match's email |
| Workflow.AcceptAllKeepsEmails | mutt-ical.py:197 | rewriting the states keeps the length of the attendee list and every address |
| Workflow.AcceptAllStates | mutt-ical.py:197 | every rewritten attendee has PARTSTAT `[state]` and no advisory parameter |
| Workflow.NoPromptNoHang | mutt-ical.py:174-186 | without -i the option loop always finishes |
| Workflow.UndecidedExitsZero | mutt-ical.py:188-189 | without a decision flag the run exits 0 before building any reply |
| Workflow.EmptyDecisionExitsZero | mutt-ical.py:188-189 | whatever the options, a run whose final decision is empty (no decision flag, or `q` last at a prompt) exits 0 before building any reply |
| Workflow.NamelessAttendeeStops | mutt-ical.py:152-156 | as written, an attendee without a display name makes every run raise in `display` (called at mutt-ical.py:172), before any option is read |
| Workflow.MatchedAreInvited | mutt-ical.py:193-211 | after a successful display, the matching loop keeps exactly the invited attendees, rewritten, in document order |
| Workflow.NobodyInvited | mutt-ical.py:201-214 | nobody is matched exactly when no attendee of the invitation has one of the user's addresses |
| Workflow.NotInvitedExitsOne | mutt-ical.py:212-220 | with a decision taken, the run exits 1 before writing any file exactly when nobody is invited; otherwise it mails the reply |
| Workflow.MailOnceInvited | mutt-ical.py:216-220 | once someone is matched, building the command does not raise and a mail is sent |
| Workflow.RunSteps | mutt-ical.py:166-220 | a mailed run got past the usage check, the display, a non-empty decision, the reply and a non-empty match, and sent exactly what `Send` gives |
| Workflow.RunMailed | mutt-ical.py:191-220 | a mailed run sends the reply with the invited attendees, rewritten, from the address of the last of them |
| Workflow.SendFields | mutt-ical.py:218-220 | the mail handed to the mail program: the nine-element command, the mail text and the reply |
| Workflow.InvitedStates | mutt-ical.py:197-209 | every attendee in the reply has PARTSTAT `[state]` and no advisory parameter |
| Workflow.MailedReply | mutt-ical.py:191-216 | a mailed reply has METHOD REPLY, a decision among the three states, and as attendees exactly the invited attendees of the invitation, each with PARTSTAT `[decision]` and no advisory parameter |
| Workflow.MailedCommand | mutt-ical.py:89-103 | a mailed run's command sends the reply file from the last matched address to the invitation's organizer, with subject `State: summary` |
| Workflow.MailedBody | mutt-ical.py:219 | a mailed run's text is `From: e`, a blank line, and `e has <state in lower case>` |
| Scenarios.StateLabels | mutt-ical.py:90 | the subject and text forms of the three states: Accepted/accepted, Declined/declined, Tentative/tentative |
| Scenarios.MailtoAddress | mutt-ical.py:208 | a `mailto:` attendee's address, before and after its state is set |
| Scenarios.AcceptAsSettings | mutt-ical.py:174-186 | `-e addr -a` leaves the address list `[addr]` and the decision ACCEPTED |
| Scenarios.InvitationDisplayed | mutt-ical.py:129-158 | a well-formed one-attendee invitation is displayed without error |
| Scenarios.InvitationReply | mutt-ical.py:64-80 | its reply can be built |
| Scenarios.AttendeeAccepts | mutt-ical.py:160-220 | the attendee accepting with `-e att -a` mails the organizer with subject `Accepted: title` and body `att has accepted`; the reply's attendee is marked ACCEPTED and has no advisory parameters |
| Scenarios.OtherExitsOne | mutt-ical.py:201-214 | anyone else answering is not invited, so the run exits 1 |
| Scenarios.QuitExitsZero | mutt-ical.py:51-62 | answering `q` at the `-i` prompt exits 0 |
| Scenarios.SprintAccepted | mutt-ical.py:99-100 | alice@co.com accepting the sprint planning sends `mutt -e "my_hdr From: alice@co.com" -a <tempdir>/event-reply.ics -s "Accepted: Sprint Planning" -- boss@co.com` |
| Scenarios.SprintBobExitsOne | mutt-ical.py:212-214 | bob@co.com answering the sprint planning is not invited, so the run exits 1 |

## Left out

- Parsing the invitation file (`openics`, mutt-ical.py:119-127) and serializing the reply (`ical.serialize()`, mutt-ical.py:86). Both are done by the vobject library, which is not part of this model. The invitation's event is taken as given. So the case of a document without any VEVENT, where `ical.vevent` raises, is not modelled.
- Reply.ReplyFor: says which properties the reply holds but not their order. A map does not record it, and the order only shows in the serialized file.
- `write_to_tempfile` (mutt-ical.py:82-87): only the file name `tempdir + "/event-reply.ics"` is modelled. The directory name is a parameter; creating the directory and writing the file are filesystem I/O.
- `execute` (mutt-ical.py:105-117): process spawning, piping the mail text to it, and the poll loop are not modelled. A `Mail` outcome records the command, the text and the reply the script hands over, and nothing after that. A mail program that exits non-zero makes the script print a message and wait for a line; that is left out. So is a mail command that cannot be started: `Popen` then raises OSError, and the reply file and its directory are left behind.
- `os.remove` and `os.rmdir` (mutt-ical.py:222-223): filesystem cleanup.
- `getopt` itself (mutt-ical.py:164): the options arrive as a sequence of (flag, argument) pairs and the file names as `args`. The GetoptError raised for an unknown option is not modelled.
- Display.PreviewOf: does not model the terminal output. The local zone (`get_localzone`), the `astimezone` conversion and the `strftime` formatting are left out. The preview keeps the datetimes as read and only checks that each carries a tzinfo.
- The usage text, the prompt text and the "not invited" message (stdout and stderr writes).
- `datetime.utcnow()`: the clock is the parameter `now`.
- Reading standard input: the prompt reads from a given sequence of lines.
- Params.SetAcceptState: does not model aliasing. In the script, the reply's attendee list shares those attendees with the invitation, and these are the same objects `set_accept_state` rewrote. The model copies values instead. The array method rewrites them in place, but the reply holds the rewritten values, not the same objects.
- Params.SetState: stores `state` itself, not `unicode(state)`. Strings here have no str/unicode distinction.
- Strings.Lower: changes only ASCII letters, as Python 2's byte-string `lower` does. Non-ASCII case mappings are not modelled.
- Decision.Step: the source's independent `if`s are an `if`/`else` chain here. `Decision.StepOnce` keeps the separate `if`s and is proved equal to it.

## Findings

| source | as written | input that shows it | evidently intended | confidence | as-written member | corrected member |
|---|---|---|---|---|---|---|
| mutt-ical.py:152-156 | `display` reads `attendee.CN_param` for every attendee; CN is optional on an ATTENDEE property (section 3.2.2 of RFC 5545) | an invitation whose only attendee is `ATTENDEE:mailto:alice@co.com` with no parameters: `display` raises AttributeError, so nobody can reply | list an attendee without a CN by its address alone | not executed | Display.MissingNameCrashes | Display.ListingOk |

`Display.ListingAsWritten` is the listing as written, and
`Display.MissingNameCrashes` shows it raising on that attendee.
`Display.Listing` is the corrected listing. `Display.ListingOk` proves that
it fails only on an address that cannot be extracted. `Display.ListingAgrees`
proves that it equals the written listing whenever every attendee has a CN.
`Display.PreviewOf`, and so every run, uses the listing as written, as
the script does. `Workflow.NamelessAttendeeStops` shows that such an
attendee makes every run raise in `display`.

/** The script's main flow (mutt-ical.py:160-223): display, decide, build
    the reply, find the responder, and hand the reply to the mail program. */
module Workflow {
  import opened Outcomes
  import opened Strings
  import opened Calendar
  import opened Params
  import opened Emails
  import opened Responders
  import opened Reply
  import opened Decision
  import opened Display

  /** How a run ends: an exit status before any mail is sent, a prompt that
      never gets an answer, or the mail program started with `command`,
      `body` for its input and `reply` as the content of the attached file.
      What the mail program then does is not modelled. A raised exception
      is a `Result` error. */
  datatype Outcome =
    | Exit(code: int)
    | Hangs
    | Mail(command: seq<string>, body: string, reply: Document)

  /** The file `write_to_tempfile` creates inside the fresh directory. */
  function ReplyFile(tempdir: string): string {
    tempdir + "/event-reply.ics"
  }

  /** The reply as sent: the built answer with its attendee list set to the
      matched attendees. */
  function WithAttendees(ans: Document, matched: seq<ContentLine>): Document {
    ans.(vevent := ans.vevent["attendee" := matched])
  }

  /** The whole run, given the positional arguments, the parsed options, the
      parsed invitation, the lines typed at the prompt, the UTC wall-clock
      time and the temporary directory. */
  function Run(args: seq<string>, opts: seq<Opt>, inv: Document, input: seq<string>, now: int, tempdir: string)
    : Result<Outcome>
  {
    if |args| < 1 then Ok(Exit(1))
    else
      var shown :- PreviewOf(inv.vevent);
      match ApplyOptions(Initial(input), opts)
      case None => Ok(Hangs)
      case Some(s) =>
        if s.decision == "" then Ok(Exit(0))
        else
          var ans :- ReplyFor(inv, now);
          var matched :- Matches(AcceptAll(AttendeesOf(inv.vevent), s.decision), s.emails);
          if matched == [] then Ok(Exit(1))
          else
            Send(s.mutt, WithAttendees(ans, matched), EmailOf(matched[|matched| - 1]).value,
                 s.decision, ReplyFile(tempdir))
  }

  /** The last step: the reply goes to the mail program as `email`, with the
      mail text on its input. */
  function Send(mutt: string, reply: Document, email: string, state: string, icsfile: string): Result<Outcome> {
    var command :- MuttCommand(mutt, reply, email, state, icsfile);
    Ok(Mail(command, MailText(email, state), reply))
  }

  /** The script's `__main__` block, step by step. */
  method Respond(args: seq<string>, opts: seq<Opt>, inv: Document, input: seq<string>, now: int, tempdir: string)
      returns (r: Result<Outcome>)
    ensures r == Run(args, opts, inv, input, now, tempdir)
  {
    if |args| < 1 {
      return Ok(Exit(1));
    }
    var shown := PreviewOf(inv.vevent);
    if shown.Err? {
      return Err(shown.crash);
    }
    var settings := ReadOptions(opts, input);
    if settings.None? {
      return Ok(Hangs);
    }
    var s := settings.value;
    if s.decision == "" {
      return Ok(Exit(0));
    }
    var ans := GetAnswer(inv, now);
    if ans.Err? {
      return Err(ans.crash);
    }
    var matched, email, flag := AcceptAndMatch(AttendeesOf(inv.vevent), s.decision, s.emails);
    if matched.Err? {
      return Err(matched.crash);
    }
    var reply := WithAttendees(ans.value, matched.value);
    if flag == 1 {
      return Ok(Exit(1));
    }
    var command := MuttCommand(s.mutt, reply, email.value, s.decision, ReplyFile(tempdir));
    if command.Err? {
      return Err(command.crash);
    }
    var mailtext := MailText(email.value, s.decision);
    r := Ok(Mail(command.value, mailtext, reply));
  }

  /** The attendee steps of the `__main__` block: `set_accept_state` on the
      invitation's attendee objects, then the matching loop over them. */
  method AcceptAndMatch(atts: seq<ContentLine>, state: string, emails: seq<string>)
      returns (matched: Result<seq<ContentLine>>, email: Option<string>, flag: int)
    ensures matched == Matches(AcceptAll(atts, state), emails)
    ensures matched.Ok? ==> (flag == 1 <==> matched.value == [])
    ensures matched.Ok? && matched.value != [] ==>
      email == Some(EmailOf(matched.value[|matched.value| - 1]).value)
  {
    var attendees := new ContentLine[|atts|](i requires 0 <= i < |atts| => atts[i]);
    SetAcceptState(attendees, state);
    assert attendees[..] == AcceptAll(atts, state);
    matched, email, flag := MatchResponders(attendees[..], emails);
  }

  /** Rewriting the state keeps every address, so who is invited does not change. */
  lemma AcceptAllKeepsEmails(atts: seq<ContentLine>, state: string)
    ensures |AcceptAll(atts, state)| == |atts|
    ensures forall i :: 0 <= i < |atts| ==> EmailOf(AcceptAll(atts, state)[i]) == EmailOf(atts[i])
  {
    forall i | 0 <= i < |atts| ensures EmailOf(AcceptAll(atts, state)[i]) == EmailOf(atts[i]) {
      EmailOfSetState(atts[i], state);
    }
  }

  /** Every rewritten attendee has PARTSTAT `[state]` and no advisory parameter. */
  lemma AcceptAllStates(atts: seq<ContentLine>, state: string)
    ensures forall x :: x in AcceptAll(atts, state) ==>
      PARTSTAT in x.params && x.params[PARTSTAT] == [state] && forall k :: k in Advisory ==> k !in x.params
  {
  }

  /** The prompt can only hang the loop through a -i option. */
  lemma {:induction false} NoPromptNoHang(s: Settings, opts: seq<Opt>)
    requires forall k :: 0 <= k < |opts| ==> opts[k].flag != "-i"
    ensures ApplyOptions(s, opts).Some?
    decreases |opts|
  {
    if opts != [] {
      NoPromptNoHang(s, opts[..|opts| - 1]);
    }
  }

  /** Without -a, -d, -t or -i the run exits 0 and builds no reply. */
  lemma UndecidedExitsZero(args: seq<string>, opts: seq<Opt>, inv: Document, input: seq<string>, now: int, tempdir: string)
    requires |args| >= 1 && PreviewOf(inv.vevent).Ok?
    requires forall k :: 0 <= k < |opts| ==> opts[k].flag !in DecisionFlags
    ensures Run(args, opts, inv, input, now, tempdir) == Ok(Exit(0))
  {
    NoPromptNoHang(Initial(input), opts);
    NoDecisionFlag(input, opts, ApplyOptions(Initial(input), opts).value);
  }

  /** Whatever the options, a run whose final decision is empty exits 0
      before building any reply: no decision flag, or `q` last at a prompt. */
  lemma EmptyDecisionExitsZero(
      args: seq<string>, opts: seq<Opt>, inv: Document, input: seq<string>, now: int, tempdir: string, s: Settings)
    requires |args| >= 1 && PreviewOf(inv.vevent).Ok?
    requires ApplyOptions(Initial(input), opts) == Some(s) && s.decision == ""
    ensures Run(args, opts, inv, input, now, tempdir) == Ok(Exit(0))
  {
  }

  /** An attendee without a display name stops every run in `display`,
      before any option is read. */
  lemma NamelessAttendeeStops(
      args: seq<string>, opts: seq<Opt>, inv: Document, input: seq<string>, now: int, tempdir: string, i: nat)
    requires |args| >= 1
    requires i < |AttendeesOf(inv.vevent)| && Param(AttendeesOf(inv.vevent)[i], "CN").None?
    ensures PreviewOf(inv.vevent).Err?
    ensures Run(args, opts, inv, input, now, tempdir).Err?
  {
    ListingAsWrittenOk(AttendeesOf(inv.vevent));
  }

  /** An all-day invitation, whose DTSTART is a DATE, makes every run raise
      in `display`, before any option is read. */
  lemma AllDayInvitationStops(
      args: seq<string>, opts: seq<Opt>, inv: Document, input: seq<string>, now: int, tempdir: string)
    requires |args| >= 1
    requires "dtstart" in inv.vevent && |inv.vevent["dtstart"]| > 0 && inv.vevent["dtstart"][0].value.Date?
    ensures Run(args, opts, inv, input, now, tempdir).Err?
  {
    AllDayStops(inv.vevent);
  }

  /** The reply carries the invitation's organizer and summary, so its
      recipient and subject are the invitation's. */
  lemma ReplyKeepsHeaders(inv: Document, now: int, matched: seq<ContentLine>)
    requires ReplyFor(inv, now).Ok?
    ensures SenderOf(WithAttendees(ReplyFor(inv, now).value, matched).vevent) == SenderOf(inv.vevent)
    ensures SummaryText(WithAttendees(ReplyFor(inv, now).value, matched).vevent) == SummaryText(inv.vevent)
  {
    var ev := WithAttendees(ReplyFor(inv, now).value, matched).vevent;
    assert "organizer" in Copied && "summary" in Copied;
    assert "organizer" in ev <==> "organizer" in inv.vevent;
    assert "summary" in ev <==> "summary" in inv.vevent;
  }

  /** Once someone is matched, building the mail command raises nothing,
      and the run ends in a `Mail` outcome. */
  lemma {:induction false} MailOnceInvited(
      args: seq<string>, opts: seq<Opt>, inv: Document, input: seq<string>, now: int, tempdir: string, s: Settings)
    requires |args| >= 1 && PreviewOf(inv.vevent).Ok?
    requires ApplyOptions(Initial(input), opts) == Some(s) && s.decision != ""
    requires ReplyFor(inv, now).Ok?
    requires Matches(AcceptAll(AttendeesOf(inv.vevent), s.decision), s.emails).Ok?
    requires Matches(AcceptAll(AttendeesOf(inv.vevent), s.decision), s.emails).value != []
    ensures Run(args, opts, inv, input, now, tempdir).Ok?
    ensures Run(args, opts, inv, input, now, tempdir).value.Mail?
  {
    var matched := Matches(AcceptAll(AttendeesOf(inv.vevent), s.decision), s.emails).value;
    ReplyKeepsHeaders(inv, now, matched);
  }

  /** With a decision taken, the run exits 1 when nobody is invited, and
      otherwise mails a reply. */
  lemma {:induction false} NotInvitedExitsOne(
      args: seq<string>, opts: seq<Opt>, inv: Document, input: seq<string>, now: int, tempdir: string, s: Settings)
    requires |args| >= 1 && PreviewOf(inv.vevent).Ok?
    requires ApplyOptions(Initial(input), opts) == Some(s) && s.decision != ""
    requires ReplyFor(inv, now).Ok?
    ensures SentAttendees(inv, s) == [] ==> Run(args, opts, inv, input, now, tempdir) == Ok(Exit(1))
    ensures SentAttendees(inv, s) != [] ==> Run(args, opts, inv, input, now, tempdir).Ok?
    ensures SentAttendees(inv, s) != [] ==> Run(args, opts, inv, input, now, tempdir).value.Mail?
  {
    MatchedAreInvited(inv, s);
    if SentAttendees(inv, s) != [] {
      MailOnceInvited(args, opts, inv, input, now, tempdir, s);
    }
  }

  /** Nobody is invited exactly when no attendee of the invitation has one
      of the user's addresses: rewriting the state changes no address. */
  lemma NobodyInvited(inv: Document, s: Settings)
    ensures SentAttendees(inv, s) == [] <==>
      forall i :: 0 <= i < |AttendeesOf(inv.vevent)| ==> !IsInvited(AttendeesOf(inv.vevent)[i], s.emails)
  {
    var atts := AttendeesOf(inv.vevent);
    var scrubbed := AcceptAll(atts, s.decision);
    AcceptAllKeepsEmails(atts, s.decision);
    InvitedMembers(scrubbed, s.emails);
    assert forall i :: 0 <= i < |atts| ==> (IsInvited(atts[i], s.emails) <==> IsInvited(scrubbed[i], s.emails));
  }

  /** Once the invitation has been displayed, the matching loop keeps
      exactly the invited attendees of the invitation, rewritten, in
      document order. */
  lemma MatchedAreInvited(inv: Document, s: Settings)
    requires PreviewOf(inv.vevent).Ok?
    ensures Matches(AcceptAll(AttendeesOf(inv.vevent), s.decision), s.emails) ==
      Ok(Invited(AcceptAll(AttendeesOf(inv.vevent), s.decision), s.emails))
  {
    var atts := AttendeesOf(inv.vevent);
    var scrubbed := AcceptAll(atts, s.decision);
    ListingAsWrittenOk(atts);
    AcceptAllKeepsEmails(atts, s.decision);
    assert Extractable(scrubbed);
    MatchesIsInvited(scrubbed, s.emails);
  }

  /** The attendees a reply goes out with: the invited ones, rewritten. */
  function SentAttendees(inv: Document, s: Settings): seq<ContentLine> {
    Invited(AcceptAll(AttendeesOf(inv.vevent), s.decision), s.emails)
  }

  /** The steps of a mailed run, on the matching loop's own result. */
  lemma RunSteps(
      args: seq<string>, opts: seq<Opt>, inv: Document, input: seq<string>, now: int, tempdir: string,
      s: Settings, out: Outcome)
    requires ApplyOptions(Initial(input), opts) == Some(s)
    requires Run(args, opts, inv, input, now, tempdir) == Ok(out) && out.Mail?
    ensures |args| >= 1 && PreviewOf(inv.vevent).Ok? && s.decision != ""
    ensures ReplyFor(inv, now).Ok?
    ensures Matches(AcceptAll(AttendeesOf(inv.vevent), s.decision), s.emails).Ok?
    ensures var matched := Matches(AcceptAll(AttendeesOf(inv.vevent), s.decision), s.emails).value;
      && matched != []
      && Send(s.mutt, WithAttendees(ReplyFor(inv, now).value, matched), EmailOf(matched[|matched| - 1]).value,
              s.decision, ReplyFile(tempdir)) == Ok(out)
  {
  }

  /** A mailed run sends the reply to the invitation with the invited
      attendees, rewritten, from the address of the last of them. */
  lemma RunMailed(
      args: seq<string>, opts: seq<Opt>, inv: Document, input: seq<string>, now: int, tempdir: string,
      s: Settings, out: Outcome)
    requires ApplyOptions(Initial(input), opts) == Some(s)
    requires Run(args, opts, inv, input, now, tempdir) == Ok(out) && out.Mail?
    ensures ReplyFor(inv, now).Ok?
    ensures SentAttendees(inv, s) != []
    ensures EmailOf(SentAttendees(inv, s)[|SentAttendees(inv, s)| - 1]).Ok?
    ensures Send(s.mutt, WithAttendees(ReplyFor(inv, now).value, SentAttendees(inv, s)),
                 EmailOf(SentAttendees(inv, s)[|SentAttendees(inv, s)| - 1]).value, s.decision, ReplyFile(tempdir)) == Ok(out)
  {
    RunSteps(args, opts, inv, input, now, tempdir, s, out);
    MatchedAreInvited(inv, s);
  }

  /** What a mail outcome holds: the mail program's argument vector, the
      mail text, and the reply itself. */
  lemma SendFields(mutt: string, reply: Document, email: string, state: string, icsfile: string, out: Outcome)
    requires Send(mutt, reply, email, state, icsfile) == Ok(out)
    ensures SenderOf(reply.vevent).Ok? && SummaryText(reply.vevent).Ok?
    ensures out.Mail?
    ensures out.command ==
      [mutt, "-e", "my_hdr From: " + email, "-a", icsfile,
       "-s", Capitalize(state) + ": " + SummaryText(reply.vevent).value, "--", SenderOf(reply.vevent).value]
    ensures out.body == MailText(email, state)
    ensures out.reply == reply
  {
    CommandOf(mutt, reply, email, state, icsfile);
  }

  /** The invited attendees, rewritten, carry PARTSTAT `[state]` and no
      advisory parameter. */
  lemma InvitedStates(atts: seq<ContentLine>, state: string, emails: seq<string>)
    ensures forall x :: x in Invited(AcceptAll(atts, state), emails) ==>
      PARTSTAT in x.params && x.params[PARTSTAT] == [state] &&
      forall k :: k in Advisory ==> k !in x.params
  {
    InvitedMembers(AcceptAll(atts, state), emails);
    AcceptAllStates(atts, state);
  }

  /** A mailed reply: method REPLY, a decision among the three states, and
      as attendees the invited attendees of the invitation, rewritten. */
  lemma {:induction false} MailedReply(
      args: seq<string>, opts: seq<Opt>, inv: Document, input: seq<string>, now: int, tempdir: string,
      s: Settings, out: Outcome)
    requires ApplyOptions(Initial(input), opts) == Some(s)
    requires Run(args, opts, inv, input, now, tempdir) == Ok(out) && out.Mail?
    ensures out.reply.kind == Some("REPLY")
    ensures s.decision == ACCEPTED || s.decision == DECLINED || s.decision == TENTATIVE
    ensures "attendee" in out.reply.vevent && out.reply.vevent["attendee"] == SentAttendees(inv, s)
    ensures SentAttendees(inv, s) != []
    ensures forall x :: x in SentAttendees(inv, s) ==>
      PARTSTAT in x.params && x.params[PARTSTAT] == [s.decision] &&
      forall k :: k in Advisory ==> k !in x.params
  {
    RunMailed(args, opts, inv, input, now, tempdir, s, out);
    SendFields(s.mutt, WithAttendees(ReplyFor(inv, now).value, SentAttendees(inv, s)),
               EmailOf(SentAttendees(inv, s)[|SentAttendees(inv, s)| - 1]).value, s.decision, ReplyFile(tempdir), out);
    InvitedStates(AttendeesOf(inv.vevent), s.decision, s.emails);
    DecisionClosed(Initial(input), opts, s);
  }

  /** The mail command of a mailed run: sent from the address of the last
      matched attendee to the invitation's organizer, with the reply file
      attached and subject "State: summary". */
  lemma {:induction false} MailedCommand(
      args: seq<string>, opts: seq<Opt>, inv: Document, input: seq<string>, now: int, tempdir: string,
      s: Settings, out: Outcome)
    requires ApplyOptions(Initial(input), opts) == Some(s)
    requires Run(args, opts, inv, input, now, tempdir) == Ok(out) && out.Mail?
    ensures SentAttendees(inv, s) != []
    ensures EmailOf(SentAttendees(inv, s)[|SentAttendees(inv, s)| - 1]).Ok?
    ensures SummaryText(inv.vevent).Ok? && SenderOf(inv.vevent).Ok?
    ensures out.command ==
      [s.mutt, "-e", "my_hdr From: " + EmailOf(SentAttendees(inv, s)[|SentAttendees(inv, s)| - 1]).value,
       "-a", ReplyFile(tempdir),
       "-s", Capitalize(s.decision) + ": " + SummaryText(inv.vevent).value,
       "--", SenderOf(inv.vevent).value]
  {
    RunMailed(args, opts, inv, input, now, tempdir, s, out);
    SendFields(s.mutt, WithAttendees(ReplyFor(inv, now).value, SentAttendees(inv, s)),
               EmailOf(SentAttendees(inv, s)[|SentAttendees(inv, s)| - 1]).value, s.decision, ReplyFile(tempdir), out);
    ReplyKeepsHeaders(inv, now, SentAttendees(inv, s));
  }

  /** The text piped to the mail program: who answered, and how. */
  lemma {:induction false} MailedBody(
      args: seq<string>, opts: seq<Opt>, inv: Document, input: seq<string>, now: int, tempdir: string,
      s: Settings, out: Outcome)
    requires ApplyOptions(Initial(input), opts) == Some(s)
    requires Run(args, opts, inv, input, now, tempdir) == Ok(out) && out.Mail?
    ensures SentAttendees(inv, s) != []
    ensures EmailOf(SentAttendees(inv, s)[|SentAttendees(inv, s)| - 1]).Ok?
    ensures out.body == MailText(EmailOf(SentAttendees(inv, s)[|SentAttendees(inv, s)| - 1]).value, s.decision)
  {
    RunMailed(args, opts, inv, input, now, tempdir, s, out);
    SendFields(s.mutt, WithAttendees(ReplyFor(inv, now).value, SentAttendees(inv, s)),
               EmailOf(SentAttendees(inv, s)[|SentAttendees(inv, s)| - 1]).value, s.decision, ReplyFile(tempdir), out);
  }

  /** The argument vector of a command that does not raise. */
  lemma CommandOf(mutt: string, reply: Document, email: string, state: string, icsfile: string)
    requires MuttCommand(mutt, reply, email, state, icsfile).Ok?
    ensures SenderOf(reply.vevent).Ok? && SummaryText(reply.vevent).Ok?
    ensures MuttCommand(mutt, reply, email, state, icsfile).value ==
      [mutt, "-e", "my_hdr From: " + email, "-a", icsfile,
       "-s", Capitalize(state) + ": " + SummaryText(reply.vevent).value, "--", SenderOf(reply.vevent).value]
  {
  }
}

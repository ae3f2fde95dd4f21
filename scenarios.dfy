/** Runs of the script on one kind of invitation: a meeting titled `title`,
    organized by `mailto:org`, whose only attendee is `mailto:att` with
    display name `name`. Each lemma holds for every such invitation; the
    sprint-planning meeting of boss@co.com and alice@co.com is one. */
module Scenarios {
  import opened Outcomes
  import opened Strings
  import opened Calendar
  import opened Params
  import opened Emails
  import opened Responders
  import opened Reply
  import opened Decision
  import opened Display
  import opened Workflow

  const Utc: Option<Zone> := Some(Zone("UTC"))

  /** An attendee line as clients send it: a `mailto:` value, a display name
      and the advisory parameters. */
  function AttendeeLine(att: string, name: string): ContentLine {
    ContentLine(Text("mailto:" + att),
                map["CN" := [name], "RSVP" := ["TRUE"], "ROLE" := ["REQ-PARTICIPANT"],
                    "PARTSTAT" := ["NEEDS-ACTION"]])
  }

  /** The invitation, starting 2024-01-10T09:00:00Z (seconds since the epoch)
      and lasting an hour. */
  function Invitation(title: string, org: string, att: string, name: string): Document {
    Document(Some("REQUEST"),
             map["uid" := [ContentLine(Text("meeting-1"), map[])],
                 "summary" := [ContentLine(Text(title), map[])],
                 "dtstart" := [ContentLine(Time(DateTime(1704877200, Utc)), map[])],
                 "dtend" := [ContentLine(Time(DateTime(1704880800, Utc)), map[])],
                 "dtstamp" := [ContentLine(Time(DateTime(1704800000, Utc)), map[])],
                 "organizer" := [ContentLine(Text("mailto:" + org), map[])],
                 "attendee" := [AttendeeLine(att, name)]])
  }

  /** A title the ASCII codec accepts and addresses without colons. */
  predicate WellFormed(title: string, org: string, att: string) {
    (forall i :: 0 <= i < |title| ==> title[i] as int < 128) && ':' !in org && ':' !in att
  }

  /** The capitalized and lower-cased forms of the three states, as they
      appear in the subject and the mail text. */
  lemma StateLabels()
    ensures Capitalize(ACCEPTED) == "Accepted" && Lower(ACCEPTED) == "accepted"
    ensures Capitalize(DECLINED) == "Declined" && Lower(DECLINED) == "declined"
    ensures Capitalize(TENTATIVE) == "Tentative" && Lower(TENTATIVE) == "tentative"
  {
  }

  /** The addresses read from a `mailto:` value, before and after the state
      is set. */
  lemma MailtoAddress(addr: string, params: map<string, seq<string>>, state: string)
    requires ':' !in addr && "EMAIL" !in params
    ensures EmailOf(ContentLine(Text("mailto:" + addr), params)) == Ok(addr)
    ensures EmailOf(SetState(ContentLine(Text("mailto:" + addr), params), state)) == Ok(addr)
  {
    assert "mailto:" + addr == "mailto" + ":" + addr + "";
    ColonPieceOf("mailto", addr, "");
    EmailOfSetState(ContentLine(Text("mailto:" + addr), params), state);
  }

  /** The lines of the invitation, property by property. */
  lemma InvitationLines(title: string, org: string, att: string, name: string)
    ensures var ev := Invitation(title, org, att, name).vevent;
      && "description" !in ev
      && ev["summary"] == [ContentLine(Text(title), map[])]
      && ev["organizer"] == [ContentLine(Text("mailto:" + org), map[])]
      && ev["dtstart"] == [ContentLine(Time(DateTime(1704877200, Utc)), map[])]
      && ev["dtend"] == [ContentLine(Time(DateTime(1704880800, Utc)), map[])]
      && ev["dtstamp"] == [ContentLine(Time(DateTime(1704800000, Utc)), map[])]
      && AttendeesOf(ev) == [AttendeeLine(att, name)]
      && forall n :: n in ev ==> |ev[n]| == 1
  {
  }

  /** `display` succeeds on what it reads. */
  lemma PreviewFromParts(ev: Contents)
    requires SummaryText(ev).Ok? && SenderOf(ev).Ok? && "description" !in ev
    requires LocalTime(ev, "dtstart").Ok? && LocalTime(ev, "dtend").Ok?
    requires ListingAsWritten(AttendeesOf(ev)).Ok?
    ensures PreviewOf(ev).Ok?
  {
  }

  /** The subject of a reply is the title and its recipient the organizer. */
  lemma InvitationHeaders(title: string, org: string, att: string, name: string)
    requires WellFormed(title, org, att)
    ensures SummaryText(Invitation(title, org, att, name).vevent) == Ok(title)
    ensures SenderOf(Invitation(title, org, att, name).vevent) == Ok(org)
  {
    InvitationLines(title, org, att, name);
    MailtoAddress(org, map[], "");
  }

  /** The invitation is displayed without error. */
  lemma InvitationDisplayed(title: string, org: string, att: string, name: string)
    requires WellFormed(title, org, att)
    ensures PreviewOf(Invitation(title, org, att, name).vevent).Ok?
  {
    var ev := Invitation(title, org, att, name).vevent;
    InvitationHeaders(title, org, att, name);
    InvitationLines(title, org, att, name);
    AttendeeListed(att, name);
    PreviewFromParts(ev);
  }

  /** The one attendee, named and with a `mailto:` address, is listed. */
  lemma AttendeeListed(att: string, name: string)
    requires ':' !in att
    ensures ListingAsWritten([AttendeeLine(att, name)]).Ok?
  {
    MailtoAddress(att, AttendeeLine(att, name).params, ACCEPTED);
    assert Param(AttendeeLine(att, name), "CN") == Some(name);
    ListingAsWrittenOk([AttendeeLine(att, name)]);
  }

  /** The reply to the invitation can be built. */
  lemma InvitationReply(title: string, org: string, att: string, name: string, now: int)
    ensures ReplyFor(Invitation(title, org, att, name), now).Ok?
  {
    InvitationLines(title, org, att, name);
  }

  /** The command line names the invitation file. */
  const Args: seq<string> := ["invite.ics"]

  /** `-e addr -a`: answer as `addr`, accepting. */
  function AcceptAs(addr: string): seq<Opt> {
    [Opt("-e", addr), Opt("-a", "")]
  }

  /** `-e addr -a` leaves the address list `[addr]` and the decision ACCEPTED. */
  lemma AcceptAsSettings(addr: string, input: seq<string>)
    requires ',' !in addr
    ensures ApplyOptions(Initial(input), AcceptAs(addr)) == Some(Settings([addr], ACCEPTED, "mutt", input))
  {
    var opts := AcceptAs(addr);
    assert opts[..|opts| - 1] == [Opt("-e", addr)];
    assert [Opt("-e", addr)][..0] == [];
    assert Split(addr, ',') == [addr];
    assert ApplyOptions(Initial(input), [Opt("-e", addr)]) == Some(Settings([addr], "", "mutt", input));
  }

  /** A single attendee is invited exactly when its address is listed. */
  lemma SingleInvited(line: ContentLine, state: string, emails: seq<string>)
    requires EmailOf(line).Ok?
    ensures Invited(AcceptAll([line], state), emails) ==
      if EmailOf(line).value in emails then [SetState(line, state)] else []
  {
    EmailOfSetState(line, state);
    assert AcceptAll([line], state) == [SetState(line, state)];
    assert [SetState(line, state)][1..] == [];
  }

  /** With the user's address list, the only attendee is or is not invited. */
  lemma SentToAttendee(title: string, org: string, att: string, name: string, s: Settings)
    requires WellFormed(title, org, att)
    ensures SentAttendees(Invitation(title, org, att, name), s) ==
      if att in s.emails then [SetState(AttendeeLine(att, name), s.decision)] else []
  {
    InvitationLines(title, org, att, name);
    MailtoAddress(att, AttendeeLine(att, name).params, s.decision);
    SingleInvited(AttendeeLine(att, name), s.decision, s.emails);
  }

  /** Any invitation that displays, whose reply can be built and in which
      `att` is invited: `-e att -a` sends a mail. */
  lemma InvitedAcceptMails(inv: Document, att: string, now: int, tempdir: string)
    requires ',' !in att
    requires PreviewOf(inv.vevent).Ok? && ReplyFor(inv, now).Ok?
    requires SentAttendees(inv, Settings([att], ACCEPTED, "mutt", [])) != []
    ensures Run(Args, AcceptAs(att), inv, [], now, tempdir).Ok?
    ensures Run(Args, AcceptAs(att), inv, [], now, tempdir).value.Mail?
  {
    var s := Settings([att], ACCEPTED, "mutt", []);
    AcceptAsSettings(att, []);
    NotInvitedExitsOne(Args, AcceptAs(att), inv, [], now, tempdir, s);
  }

  /** Any invitation that displays and whose reply can be built, but in
      which `other` is not invited: `-e other -a` exits 1. */
  lemma UninvitedExitsOne(inv: Document, other: string, now: int, tempdir: string)
    requires ',' !in other
    requires PreviewOf(inv.vevent).Ok? && ReplyFor(inv, now).Ok?
    requires SentAttendees(inv, Settings([other], ACCEPTED, "mutt", [])) == []
    ensures Run(Args, AcceptAs(other), inv, [], now, tempdir) == Ok(Exit(1))
  {
    var s := Settings([other], ACCEPTED, "mutt", []);
    AcceptAsSettings(other, []);
    NotInvitedExitsOne(Args, AcceptAs(other), inv, [], now, tempdir, s);
  }

  /** The invited attendee accepting with `-e att -a` sends a mail. */
  lemma AttendeeAcceptsMails(title: string, org: string, att: string, name: string, now: int, tempdir: string)
    requires WellFormed(title, org, att) && ',' !in att
    ensures Run(Args, AcceptAs(att), Invitation(title, org, att, name), [], now, tempdir).Ok?
    ensures Run(Args, AcceptAs(att), Invitation(title, org, att, name), [], now, tempdir).value.Mail?
  {
    InvitationDisplayed(title, org, att, name);
    InvitationReply(title, org, att, name, now);
    SentToAttendee(title, org, att, name, Settings([att], ACCEPTED, "mutt", []));
    InvitedAcceptMails(Invitation(title, org, att, name), att, now, tempdir);
  }

  /** The subject and the mail text of an acceptance. */
  lemma AcceptedTexts(att: string, title: string)
    ensures Capitalize(ACCEPTED) + ": " + title == "Accepted: " + title
    ensures MailText(att, ACCEPTED) == "From: " + att + "\n\n" + att + " has accepted"
  {
    StateLabels();
    var head := "From: " + att + "\n\n" + att;
    assert MailText(att, ACCEPTED) == head + " has " + "accepted";
    assert head + " has " + "accepted" == head + " has accepted";
  }

  /** The mail `-e att -a` sends when `x`, with address `att`, is the one
      invited attendee: from `att` to the organizer, subject
      `Accepted: summary`, body `att has accepted`, and `x` the reply's
      attendee list. */
  lemma InvitedAccepts(inv: Document, att: string, x: ContentLine, now: int, tempdir: string, out: Outcome)
    requires ',' !in att
    requires SentAttendees(inv, Settings([att], ACCEPTED, "mutt", [])) == [x] && EmailOf(x) == Ok(att)
    requires Run(Args, AcceptAs(att), inv, [], now, tempdir) == Ok(out) && out.Mail?
    ensures SummaryText(inv.vevent).Ok? && SenderOf(inv.vevent).Ok?
    ensures out.command ==
      ["mutt", "-e", "my_hdr From: " + att, "-a", tempdir + "/event-reply.ics",
       "-s", "Accepted: " + SummaryText(inv.vevent).value, "--", SenderOf(inv.vevent).value]
    ensures out.body == "From: " + att + "\n\n" + att + " has accepted"
    ensures "attendee" in out.reply.vevent && out.reply.vevent["attendee"] == [x]
  {
    var s := Settings([att], ACCEPTED, "mutt", []);
    AcceptAsSettings(att, []);
    StateLabels();
    var sent := SentAttendees(inv, s);
    assert sent[|sent| - 1] == x;
    MailedCommand(Args, AcceptAs(att), inv, [], now, tempdir, s, out);
    assert out.command ==
      [s.mutt, "-e", "my_hdr From: " + att, "-a", ReplyFile(tempdir),
       "-s", Capitalize(ACCEPTED) + ": " + SummaryText(inv.vevent).value, "--", SenderOf(inv.vevent).value];
    MailedBody(Args, AcceptAs(att), inv, [], now, tempdir, s, out);
    assert out.body == MailText(att, ACCEPTED);
    AcceptedTexts(att, SummaryText(inv.vevent).value);
    MailedReply(Args, AcceptAs(att), inv, [], now, tempdir, s, out);
  }

  /** The mail the invited attendee sends with `-e att -a`: from `att` to
      the organizer, subject `Accepted: title`, body `att has accepted`, and
      the attendee in the reply marked ACCEPTED without its advisory
      parameters. */
  lemma AttendeeAccepts(title: string, org: string, att: string, name: string, now: int, tempdir: string, out: Outcome)
    requires WellFormed(title, org, att) && ',' !in att
    requires Run(Args, AcceptAs(att), Invitation(title, org, att, name), [], now, tempdir) == Ok(out) && out.Mail?
    ensures out.command ==
      ["mutt", "-e", "my_hdr From: " + att, "-a", tempdir + "/event-reply.ics",
       "-s", "Accepted: " + title, "--", org]
    ensures out.body == "From: " + att + "\n\n" + att + " has accepted"
    ensures "attendee" in out.reply.vevent
    ensures out.reply.vevent["attendee"] == [SetState(AttendeeLine(att, name), ACCEPTED)]
  {
    var x := SetState(AttendeeLine(att, name), ACCEPTED);
    SentToAttendee(title, org, att, name, Settings([att], ACCEPTED, "mutt", []));
    MailtoAddress(att, AttendeeLine(att, name).params, ACCEPTED);
    InvitationHeaders(title, org, att, name);
    InvitedAccepts(Invitation(title, org, att, name), att, x, now, tempdir, out);
  }

  /** Someone else answering with `-e other -a` is not invited: exit 1. */
  lemma OtherExitsOne(title: string, org: string, att: string, name: string, other: string, now: int, tempdir: string)
    requires WellFormed(title, org, att) && ',' !in other && other != att
    ensures Run(Args, AcceptAs(other), Invitation(title, org, att, name), [], now, tempdir) == Ok(Exit(1))
  {
    InvitationDisplayed(title, org, att, name);
    InvitationReply(title, org, att, name, now);
    SentToAttendee(title, org, att, name, Settings([other], ACCEPTED, "mutt", []));
    UninvitedExitsOne(Invitation(title, org, att, name), other, now, tempdir);
  }

  /** Answering `q` at the prompt of `-i`: exit 0, and no reply is built. */
  lemma QuitExitsZero(title: string, org: string, att: string, name: string, now: int, tempdir: string)
    requires WellFormed(title, org, att)
    ensures Run(Args, [Opt("-i", "")], Invitation(title, org, att, name), ["q\n"], now, tempdir) == Ok(Exit(0))
  {
    InvitationDisplayed(title, org, att, name);
    assert AnswerFor("q\n") == Some("");
  }

  /** The sprint-planning meeting: organized by boss@co.com, with
      alice@co.com (Alice) as its attendee. */
  function Sprint(): Document {
    Invitation("Sprint Planning", "boss@co.com", "alice@co.com", "Alice")
  }

  /** The sprint-planning title and addresses meet the scenario's conditions. */
  lemma SprintWellFormed()
    ensures WellFormed("Sprint Planning", "boss@co.com", "alice@co.com")
    ensures ',' !in "alice@co.com" && ',' !in "bob@co.com"
  {
  }

  /** The header and subject strings of the sprint-planning reply. */
  lemma SprintTexts()
    ensures "my_hdr From: " + "alice@co.com" == "my_hdr From: alice@co.com"
    ensures "Accepted: " + "Sprint Planning" == "Accepted: Sprint Planning"
  {
  }

  /** Alice accepting with `-e alice@co.com -a` sends a mail. */
  lemma SprintAcceptMails(now: int, tempdir: string)
    ensures Run(Args, AcceptAs("alice@co.com"), Sprint(), [], now, tempdir).Ok?
    ensures Run(Args, AcceptAs("alice@co.com"), Sprint(), [], now, tempdir).value.Mail?
  {
    SprintWellFormed();
    AttendeeAcceptsMails("Sprint Planning", "boss@co.com", "alice@co.com", "Alice", now, tempdir);
  }

  /** That mail goes from alice@co.com to boss@co.com with subject
      "Accepted: Sprint Planning". */
  lemma SprintAccepted(now: int, tempdir: string, out: Outcome)
    requires Run(Args, AcceptAs("alice@co.com"), Sprint(), [], now, tempdir) == Ok(out) && out.Mail?
    ensures out.command ==
      ["mutt", "-e", "my_hdr From: alice@co.com", "-a", tempdir + "/event-reply.ics",
       "-s", "Accepted: Sprint Planning", "--", "boss@co.com"]
  {
    SprintWellFormed();
    SprintTexts();
    AttendeeAccepts("Sprint Planning", "boss@co.com", "alice@co.com", "Alice", now, tempdir, out);
  }

  /** bob@co.com answering is not invited, so the run exits 1. */
  lemma SprintBobExitsOne(now: int, tempdir: string)
    ensures Run(Args, AcceptAs("bob@co.com"), Sprint(), [], now, tempdir) == Ok(Exit(1))
  {
    SprintWellFormed();
    OtherExitsOne("Sprint Planning", "boss@co.com", "alice@co.com", "Alice", "bob@co.com", now, tempdir);
  }
}

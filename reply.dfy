/** Building the REPLY document, the mail command and the mail body
    (mutt-ical.py:64-80, 89-103, 219). */
module Reply {
  import opened Outcomes
  import opened Strings
  import opened Calendar
  import opened Emails

  /** The properties copied from the invitation, in the order they are added. */
  const Copied: seq<string> := ["uid", "summary", "dtstart", "dtend", "organizer"]

  predicate Distinct(names: seq<string>) {
    forall i, j :: 0 <= i < j < |names| ==> names[i] != names[j]
  }

  /** The copy loop of `get_answer`, over the first names of the list: each
      present property contributes its first line, unchanged; an absent one
      contributes nothing. A present but empty list raises IndexError. */
  function CopyFields(src: Contents, names: seq<string>): (r: Result<Contents>)
    requires Distinct(names)
    ensures r.Ok? <==> forall n :: n in names && n in src ==> |src[n]| > 0
    ensures r.Ok? ==> r.value.Keys == set n | n in names && n in src
    ensures r.Ok? ==> forall n :: n in r.value ==> r.value[n] == [src[n][0]]
    decreases |names|
  {
    if names == [] then Ok(map[])
    else
      var init, name := names[..|names| - 1], names[|names| - 1];
      assert names == init + [name];
      assert Distinct(init) by {
        forall i, j | 0 <= i < j < |init| ensures init[i] != init[j] {
          assert init[i] == names[i] && init[j] == names[j];
        }
      }
      assert name !in init by {
        forall i | 0 <= i < |init| ensures init[i] != name {
          assert init[i] == names[i];
        }
      }
      var ev :- CopyFields(src, init);
      if name in src then
        if |src[name]| == 0 then Err(IndexError(name)) else Ok(Add(ev, name, src[name][0]))
      else Ok(ev)
  }

  /** `invitation.vevent.dtstamp.value.tzinfo`. */
  function StampZone(ev: Contents): (r: Result<Option<Zone>>)
    ensures r.Ok? <==> "dtstamp" in ev && |ev["dtstamp"]| > 0 && ev["dtstamp"][0].value.Time?
    ensures r.Ok? ==> r.value == ev["dtstamp"][0].value.moment.tzinfo
    ensures "dtstamp" !in ev ==> r == Err(AttributeError("dtstamp"))
  {
    var stamp :- Attr(ev, "dtstamp");
    match stamp.value
    case Time(dt) => Ok(dt.tzinfo)
    case Text(_) => Err(AttributeError("tzinfo"))
    case Date(_) => Err(AttributeError("tzinfo"))
  }

  /** `get_answer(invitation)` at UTC wall-clock time `now`: a REPLY whose
      event holds exactly the copied properties present in the invitation,
      each its first line unchanged, plus one fresh DTSTAMP carrying `now`
      and the invitation DTSTAMP's tzinfo. */
  function ReplyFor(inv: Document, now: int): (r: Result<Document>)
    ensures r.Ok? <==>
      (forall n :: n in Copied && n in inv.vevent ==> |inv.vevent[n]| > 0) && StampZone(inv.vevent).Ok?
    ensures r.Ok? ==> r.value.kind == Some("REPLY")
    ensures r.Ok? ==> r.value.vevent.Keys == (set n | n in Copied && n in inv.vevent) + {"dtstamp"}
    ensures r.Ok? ==> forall n :: n in Copied && n in inv.vevent ==> r.value.vevent[n] == [inv.vevent[n][0]]
    ensures r.Ok? ==>
      r.value.vevent["dtstamp"] == [ContentLine(Time(DateTime(now, StampZone(inv.vevent).value)), map[])]
  {
    CopiedDistinct();
    var ev :- CopyFields(inv.vevent, Copied);
    var zone :- StampZone(inv.vevent);
    Ok(Document(Some("REPLY"), Add(ev, "dtstamp", ContentLine(Time(DateTime(now, zone)), map[]))))
  }

  /** Once a prefix of the names raises, the whole copy raises the same way. */
  lemma {:induction false} CopyFieldsPrefixErr(src: Contents, names: seq<string>, k: nat)
    requires Distinct(names) && k <= |names|
    requires Distinct(names[..k]) && CopyFields(src, names[..k]).Err?
    ensures CopyFields(src, names) == CopyFields(src, names[..k])
    decreases |names| - k
  {
    if k < |names| {
      assert names[..k + 1][..k] == names[..k];
      CopyFieldsPrefixErr(src, names, k + 1);
    } else {
      assert names[..k] == names;
    }
  }

  lemma CopiedDistinct()
    ensures Distinct(Copied) && "dtstamp" !in Copied
  {
    assert "uid" != "summary" && "summary" != "dtstart" && "dtstart" != "dtend";
    assert "dtstamp"[5] != "dtstart"[5];
  }

  /** The copied properties never include a DTSTAMP. */
  lemma CopiedLacksStamp(src: Contents)
    requires Distinct(Copied) && "dtstamp" !in Copied
    requires CopyFields(src, Copied).Ok?
    ensures "dtstamp" !in CopyFields(src, Copied).value
  {
  }

  /** The copy loop of `get_answer` as the script runs it: successive `add`
      calls, stopping at the first present but empty property. */
  method CopyEach(src: Contents, names: seq<string>) returns (r: Result<Contents>)
    requires Distinct(names)
    ensures r == CopyFields(src, names)
  {
    var ev: Contents := map[];
    for k := 0 to |names|
      invariant Distinct(names[..k])
      invariant CopyFields(src, names[..k]) == Ok(ev)
    {
      var name := names[k];
      assert names[..k + 1][..k] == names[..k];
      assert names[..k + 1][k] == name;
      assert Distinct(names[..k + 1]);
      if name in src {
        if |src[name]| == 0 {
          CopyFieldsPrefixErr(src, names, k + 1);
          return Err(IndexError(name));
        }
        ev := Add(ev, name, src[name][0]);
      }
    }
    assert names[..|names|] == names;
    r := Ok(ev);
  }

  /** `get_answer` as the script runs it: the copy loop, then a DTSTAMP added
      and its value replaced by the current time. */
  method GetAnswer(inv: Document, now: int) returns (r: Result<Document>)
    ensures r == ReplyFor(inv, now)
  {
    CopiedDistinct();
    var copied := CopyEach(inv.vevent, Copied);
    if copied.Err? {
      return Err(copied.crash);
    }
    CopiedLacksStamp(inv.vevent);
    var ev := Add(copied.value, "dtstamp", ContentLine(Text(""), map[]));
    var zone := StampZone(inv.vevent);
    if zone.Err? {
      return Err(zone.crash);
    }
    var stamp := ContentLine(Time(DateTime(now, zone.value)), map[]);
    ev := ev["dtstamp" := [stamp]];
    assert [] + [stamp] == [stamp];
    assert ev == Add(copied.value, "dtstamp", stamp);
    r := Ok(Document(Some("REPLY"), ev));
  }

  /** `get_mutt_command`: the argument vector that sends the reply file to
      the organizer, as `email`, with subject `Capitalized-state: summary`. */
  function MuttCommand(mutt: string, reply: Document, email: string, state: string, icsfile: string)
    : (r: Result<seq<string>>)
    ensures r.Ok? <==> SenderOf(reply.vevent).Ok? && SummaryText(reply.vevent).Ok?
    ensures r.Ok? ==> |r.value| == 9 && r.value[0] == mutt && r.value[4] == icsfile
    ensures r.Ok? ==> r.value[8] == SenderOf(reply.vevent).value
  {
    var sender :- SenderOf(reply.vevent);
    var summary :- SummaryText(reply.vevent);
    Ok([mutt, "-e", "my_hdr From: " + email, "-a", icsfile,
        "-s", Capitalize(state) + ": " + summary, "--", sender])
  }

  /** The mail body fed to the mail program. */
  function MailText(email: string, state: string): string {
    "From: " + email + "\n\n" + email + " has " + Lower(state)
  }
}

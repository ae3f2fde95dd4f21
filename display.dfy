/** What `display` checks and composes before any decision is taken
    (mutt-ical.py:129-158). The conversion of the start and end times to the
    local zone and their formatting are not modelled: the preview carries the
    datetimes as read. */
module Display {
  import opened Outcomes
  import opened Calendar
  import opened Emails
  import opened Responders

  datatype Preview = Preview(
    start: DateTime, end: DateTime, sender: string, title: string, to: string, description: string)

  /** `ical.vevent.NAME.value.astimezone(timezone)`: needs a datetime that
      carries a tzinfo; a `date` has no `astimezone`. */
  function LocalTime(ev: Contents, name: string): (r: Result<DateTime>)
    ensures r.Ok? <==>
      && Attr(ev, name).Ok? && Attr(ev, name).value.value.Time?
      && Attr(ev, name).value.value.moment.tzinfo.Some?
    ensures r.Ok? ==> Attr(ev, name).value.value == Time(r.value)
  {
    var line :- Attr(ev, name);
    match line.value
    case Text(_) => Err(AttributeError("astimezone"))
    case Date(_) => Err(AttributeError("astimezone"))
    case Time(dt) => if dt.tzinfo.None? then Err(ValueError("astimezone")) else Ok(dt)
  }

  function CommonName(line: ContentLine): Result<string> {
    match Param(line, "CN")
    case Some(n) => Ok(n)
    case None => Err(AttributeError("CN_param"))
  }

  /** The "To:" listing as written: `CN_param` is read for every attendee,
      so an attendee without a CN parameter raises. */
  function ListingAsWritten(atts: seq<ContentLine>): Result<string>
    decreases |atts|
  {
    if atts == [] then Ok("")
    else
      var cn :- CommonName(atts[0]);
      var e :- EmailOf(atts[0]);
      var rest :- ListingAsWritten(atts[1..]);
      Ok(cn + " <" + e + ">, " + rest)
  }

  /** As written, the listing raises exactly when some attendee lacks a CN
      or has no extractable address. */
  lemma {:induction false} ListingAsWrittenOk(atts: seq<ContentLine>)
    ensures ListingAsWritten(atts).Ok? <==>
      forall i :: 0 <= i < |atts| ==> Param(atts[i], "CN").Some? && EmailOf(atts[i]).Ok?
    ensures ListingAsWritten(atts).Ok? ==> Extractable(atts)
    decreases |atts|
  {
    if atts != [] {
      ListingAsWrittenOk(atts[1..]);
      assert forall i :: 0 <= i < |atts[1..]| ==> atts[1..][i] == atts[i + 1];
      assert forall i :: 0 < i < |atts| ==> atts[i] == atts[1..][i - 1];
    }
  }

  /** A display name is optional in an attendee line, so such an attendee
      cannot reply at all: the run stops in `display`. */
  lemma MissingNameCrashes()
    ensures ListingAsWritten([ContentLine(Text("mailto:alice@co.com"), map[])]) == Err(AttributeError("CN_param"))
  {
  }

  /** The "To:" listing as evidently intended: an attendee without a CN is
      listed by its address alone. */
  function Listing(atts: seq<ContentLine>): Result<string>
    decreases |atts|
  {
    if atts == [] then Ok("")
    else
      var e :- EmailOf(atts[0]);
      var rest :- Listing(atts[1..]);
      match Param(atts[0], "CN")
      case Some(cn) => Ok(cn + " <" + e + ">, " + rest)
      case None => Ok("<" + e + ">, " + rest)
  }

  /** The corrected listing fails only on an address that cannot be
      extracted, whatever the display names. */
  lemma {:induction false} ListingOk(atts: seq<ContentLine>)
    ensures Listing(atts).Ok? <==> Extractable(atts)
    decreases |atts|
  {
    if atts != [] {
      ListingOk(atts[1..]);
      assert Extractable(atts) <==> EmailOf(atts[0]).Ok? && Extractable(atts[1..]) by {
        if EmailOf(atts[0]).Ok? && Extractable(atts[1..]) {
          forall i | 0 <= i < |atts| ensures EmailOf(atts[i]).Ok? {
            if i > 0 { assert atts[i] == atts[1..][i - 1]; }
          }
        }
        if Extractable(atts) {
          forall i | 0 <= i < |atts[1..]| ensures EmailOf(atts[1..][i]).Ok? {
            assert atts[1..][i] == atts[i + 1];
          }
        }
      }
    }
  }

  /** Where every attendee has a CN, the corrected listing is the one written. */
  lemma {:induction false} ListingAgrees(atts: seq<ContentLine>)
    requires forall i :: 0 <= i < |atts| ==> Param(atts[i], "CN").Some?
    ensures Listing(atts) == ListingAsWritten(atts)
    decreases |atts|
  {
    if atts != [] {
      assert forall i :: 0 <= i < |atts[1..]| ==> atts[1..][i] == atts[i + 1];
      ListingAgrees(atts[1..]);
    }
  }

  /** An all-day event, whose DTSTART is a DATE, cannot be displayed: a
      `date` has no `astimezone`, so `display` raises and the run ends. */
  lemma AllDayStops(ev: Contents)
    requires "dtstart" in ev && |ev["dtstart"]| > 0 && ev["dtstart"][0].value.Date?
    ensures LocalTime(ev, "dtstart") == Err(AttributeError("astimezone"))
    ensures PreviewOf(ev).Err?
  {
  }

  /** `display(ical)`: the organizer (or "NO SENDER"), the title, the
      description (or "NO DESCRIPTION") and the attendee listing as written,
      or the exception that stops the run. */
  function PreviewOf(ev: Contents): (r: Result<Preview>)
    ensures r.Ok? ==> SummaryText(ev).Ok? && SenderOf(ev).Ok? && ListingAsWritten(AttendeesOf(ev)).Ok?
    ensures r.Ok? && "organizer" !in ev ==> r.value.sender == "NO SENDER"
    ensures r.Ok? && "description" !in ev ==> r.value.description == "NO DESCRIPTION"
  {
    var title :- SummaryText(ev);
    var sender :- SenderOf(ev);
    var described :- if "description" in ev then Index0(ev, "description")
                     else Ok(ContentLine(Text("NO DESCRIPTION"), map[]));
    var start :- LocalTime(ev, "dtstart");
    var end :- LocalTime(ev, "dtend");
    var to :- ListingAsWritten(AttendeesOf(ev));
    match described.value
    case Time(_) => Err(TypeError("description"))
    case Date(_) => Err(TypeError("description"))
    case Text(description) => Ok(Preview(start, end, sender, title, to, description))
  }
}

/** The calendar document as the script sees it through its parsing library:
    a component is a map from lower-case property name to the list of
    content lines of that name, in document order; a content line has a
    value and a map of parameters, each parameter holding a list of values. */
module Calendar {
  import opened Outcomes
  import opened Strings

  /** A `tzinfo` object, compared by identity of its name. */
  datatype Zone = Zone(name: string)

  /** A `datetime`: its wall-clock reading, left abstract as a count of
      seconds, and its `tzinfo`, absent for a naive datetime. */
  datatype DateTime = DateTime(wall: int, tzinfo: Option<Zone>)

  /** A property value: text (addresses, summaries, identifiers), a
      datetime, or a `date` (a DATE value, as an all-day event's DTSTART),
      left abstract as a day count. */
  datatype Value = Text(text: string) | Time(moment: DateTime) | Date(day: int)

  datatype ContentLine = ContentLine(value: Value, params: map<string, seq<string>>)

  type Contents = map<string, seq<ContentLine>>

  /** A VCALENDAR: its METHOD (`kind`), if any, and its one VEVENT. */
  datatype Document = Document(kind: Option<string>, vevent: Contents)

  /** `line.NAME_param`: the first value of parameter `name`. It is absent
      exactly when `hasattr(line, 'NAME_param')` is false. */
  function Param(line: ContentLine, name: string): Option<string> {
    if name in line.params && |line.params[name]| > 0 then Some(line.params[name][0]) else None
  }

  /** `component.name`: the first content line of that name. */
  function Attr(ev: Contents, name: string): Result<ContentLine> {
    if name !in ev then Err(AttributeError(name))
    else if |ev[name]| == 0 then Err(IndexError(name))
    else Ok(ev[name][0])
  }

  /** `component.contents[name][0]`. */
  function Index0(ev: Contents, name: string): Result<ContentLine> {
    if name !in ev then Err(KeyError(name))
    else if |ev[name]| == 0 then Err(IndexError(name))
    else Ok(ev[name][0])
  }

  /** `component.add(line)`: appends the line under its name. */
  function Add(ev: Contents, name: string, line: ContentLine): Contents {
    ev[name := (if name in ev then ev[name] else []) + [line]]
  }

  /** The attendee lines of an event, or none when it has no ATTENDEE. */
  function AttendeesOf(ev: Contents): seq<ContentLine> {
    if "attendee" in ev then ev["attendee"] else []
  }

  /** `ical.vevent.contents['summary'][0].value.encode()`: the
      summary as an ASCII byte string. */
  function SummaryText(ev: Contents): (r: Result<string>)
    ensures r.Ok? <==>
      && "summary" in ev && |ev["summary"]| > 0 && ev["summary"][0].value.Text?
      && forall i :: 0 <= i < |ev["summary"][0].value.text| ==> ev["summary"][0].value.text[i] as int < 128
    ensures r.Ok? ==> ev["summary"][0].value == Text(r.value)
  {
    var line :- Index0(ev, "summary");
    match line.value
    case Text(t) => AsciiEncode(t)
    case Time(_) => Err(AttributeError("encode"))
    case Date(_) => Err(AttributeError("encode"))
  }
}

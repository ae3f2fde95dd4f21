/** Extracting an address from an attendee or organizer line
    (mutt-ical.py:92-95, 132-135, 153-156, 202-210). The address is the EMAIL
    parameter when there is one; otherwise it is the second `:`-separated
    piece of the line's value, the workaround for Microsoft clients that send
    only `mailto:` values. */
module Emails {
  import opened Outcomes
  import opened Strings
  import opened Calendar
  import opened Params

  /** `value.split(':')[1]`. A value without a colon raises IndexError; a
      datetime value has no `split`. */
  function ColonPiece(value: Value): (r: Result<string>)
    ensures r.Ok? <==> value.Text? && ':' in value.text
    ensures r.Ok? ==> ':' !in r.value
  {
    match value
    case Time(_) => Err(AttributeError("split"))
    case Date(_) => Err(AttributeError("split"))
    case Text(t) =>
      var pieces := Split(t, ':');
      if |pieces| < 2 then Err(IndexError("list index out of range")) else Ok(pieces[1])
  }

  /** The piece taken is the text between the first colon and the next one
      (or the end): `mailto:foo@x.com` gives `foo@x.com`, and
      `MAILTO:a:b` gives `a`, not the whole remainder `a:b`. */
  lemma ColonPieceOf(scheme: string, addr: string, rest: string)
    requires ':' !in scheme && ':' !in addr
    requires rest == [] || rest[0] == ':'
    ensures ColonPiece(Text(scheme + ":" + addr + rest)) == Ok(addr)
  {
    assert scheme + ":" + addr + rest == scheme + [':'] + (addr + rest);
    SplitAfter(scheme, addr + rest, ':');
    FirstPiece(addr, rest);
  }

  /** The first piece of `addr + rest` is `addr` when `rest` is empty or
      starts with the separator. */
  lemma FirstPiece(addr: string, rest: string)
    requires ':' !in addr
    requires rest == [] || rest[0] == ':'
    ensures Split(addr + rest, ':')[0] == addr
  {
    if rest == [] {
      assert addr + rest == addr;
    } else {
      assert addr + rest == addr + [':'] + rest[1..];
      SplitAfter(addr, rest[1..], ':');
    }
  }

  /** The attendee's address: `EMAIL_param` if present, else the colon piece. */
  function EmailOf(line: ContentLine): (r: Result<string>)
    ensures r.Ok? <==> Param(line, "EMAIL").Some? || (line.value.Text? && ':' in line.value.text)
    ensures Param(line, "EMAIL").None? && r.Ok? ==> ':' !in r.value
  {
    match Param(line, "EMAIL")
    case Some(e) => Ok(e)
    case None => ColonPiece(line.value)
  }

  /** Both representations extract the same address: EMAIL=foo@x.com and a
      value `mailto:foo@x.com` both give foo@x.com; when both are present the
      parameter wins, whatever the value says. */
  lemma DualRepresentation(addr: string, scheme: string, params: map<string, seq<string>>, v: Value, more: seq<string>)
    requires ':' !in scheme && ':' !in addr
    requires "EMAIL" !in params
    ensures EmailOf(ContentLine(Text(scheme + ":" + addr), params)) == Ok(addr)
    ensures EmailOf(ContentLine(v, params["EMAIL" := [addr] + more])) == Ok(addr)
  {
    ColonPieceOf(scheme, addr, "");
    assert scheme + ":" + addr + "" == scheme + ":" + addr;
  }

  /** Rewriting the participation status leaves the address alone, so the
      match after `set_accept_state` sees the addresses of the invitation. */
  lemma EmailOfSetState(line: ContentLine, state: string)
    ensures EmailOf(SetState(line, state)) == EmailOf(line)
  {
    assert "EMAIL" != PARTSTAT && "EMAIL" !in Advisory;
  }

  /** The organizer's address, or "NO SENDER" without an organizer
      (mutt-ical.py:91-97 and 131-137). */
  function SenderOf(ev: Contents): (r: Result<string>)
  {
    if "organizer" in ev then
      var organizer :- Attr(ev, "organizer");
      EmailOf(organizer)
    else Ok("NO SENDER")
  }

  /** The sender is the organizer's EMAIL parameter when it has one, else
      the colon piece of its value, and "NO SENDER" without an organizer;
      an ORGANIZER property with no line raises IndexError. */
  lemma SenderCases(ev: Contents)
    ensures "organizer" !in ev ==> SenderOf(ev) == Ok("NO SENDER")
    ensures "organizer" in ev && ev["organizer"] == [] ==> SenderOf(ev) == Err(IndexError("organizer"))
    ensures "organizer" in ev && ev["organizer"] != [] && Param(ev["organizer"][0], "EMAIL").Some? ==>
      SenderOf(ev) == Ok(Param(ev["organizer"][0], "EMAIL").value)
    ensures "organizer" in ev && ev["organizer"] != [] && Param(ev["organizer"][0], "EMAIL").None? ==>
      SenderOf(ev) == ColonPiece(ev["organizer"][0].value)
  {
  }
}

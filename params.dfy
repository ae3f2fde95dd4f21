/** Rewriting an attendee's parameters for the reply: `del_if_present` and
    `set_accept_state` (mutt-ical.py:40-49). */
module Params {
  import opened Calendar

  type ParamMap = map<string, seq<string>>

  const PARTSTAT: string := "PARTSTAT"

  /** The advisory parameters dropped from every attendee, in the order the
      source deletes them. */
  const Advisory: seq<string> := ["RSVP", "ROLE", "X-NUM-GUESTS", "CUTYPE"]

  /** `del_if_present(dic, key)`: `key` is gone, every other entry is kept,
      and an absent key leaves the map as it was. */
  function DelIfPresent(dic: ParamMap, key: string): (r: ParamMap)
    ensures key !in r
    ensures forall k :: k != key ==> (k in r <==> k in dic)
    ensures forall k :: k in r ==> r[k] == dic[k]
    ensures key !in dic ==> r == dic
  {
    if key in dic then dic - {key} else dic
  }

  /** Deleting twice is deleting once. */
  lemma DelIfPresentIdempotent(dic: ParamMap, key: string)
    ensures DelIfPresent(DelIfPresent(dic, key), key) == DelIfPresent(dic, key)
  {
  }

  /** `del_if_present` applied to each of `keys` in turn. */
  function DelAll(dic: ParamMap, keys: seq<string>): (r: ParamMap)
    ensures forall k :: k in keys ==> k !in r
    ensures forall k :: k !in keys ==> (k in r <==> k in dic)
    ensures forall k :: k in r ==> r[k] == dic[k]
    decreases |keys|
  {
    if keys == [] then dic
    else
      assert keys == keys[..|keys| - 1] + [keys[|keys| - 1]];
      DelIfPresent(DelAll(dic, keys[..|keys| - 1]), keys[|keys| - 1])
  }

  /** What `set_accept_state` does to one attendee: PARTSTAT becomes
      `[state]`, the advisory parameters are gone, the value and every other
      parameter are untouched. */
  function SetState(line: ContentLine, state: string): (r: ContentLine)
    ensures r.value == line.value
    ensures PARTSTAT in r.params && r.params[PARTSTAT] == [state]
    ensures forall k :: k in Advisory ==> k !in r.params
    ensures forall k :: k != PARTSTAT && k !in Advisory ==> (k in r.params <==> k in line.params)
    ensures forall k :: k != PARTSTAT && k in r.params ==> r.params[k] == line.params[k]
  {
    line.(params := DelAll(line.params[PARTSTAT := [state]], Advisory))
  }

  /** Setting the same state twice is setting it once. */
  lemma SetStateIdempotent(line: ContentLine, state: string)
    ensures SetState(SetState(line, state), state) == SetState(line, state)
  {
    var once := SetState(line, state);
    var twice := SetState(once, state);
    assert forall k :: k in twice.params <==> k in once.params;
    assert twice.params == once.params;
  }

  /** The attendee list after `set_accept_state`: same length, same order,
      each attendee rewritten by `SetState`. */
  function AcceptAll(atts: seq<ContentLine>, state: string): (r: seq<ContentLine>)
  {
    seq(|atts|, i requires 0 <= i < |atts| => SetState(atts[i], state))
  }

  /** The inner loop of `set_accept_state`: `del_if_present` on each key in turn. */
  method DelEach(dic: ParamMap, keys: seq<string>) returns (r: ParamMap)
    ensures r == DelAll(dic, keys)
  {
    r := dic;
    for k := 0 to |keys|
      invariant r == DelAll(dic, keys[..k])
    {
      assert keys[..k + 1][..k] == keys[..k];
      r := DelIfPresent(r, keys[k]);
    }
    assert keys[..|keys|] == keys;
  }

  /** `set_accept_state(attendees, state)`: rewrites every attendee in place. */
  method SetAcceptState(attendees: array<ContentLine>, state: string)
    modifies attendees
    ensures forall i :: 0 <= i < attendees.Length ==> attendees[i] == SetState(old(attendees[i]), state)
  {
    for i := 0 to attendees.Length
      invariant forall j :: 0 <= j < i ==> attendees[j] == SetState(old(attendees[j]), state)
      invariant forall j :: i <= j < attendees.Length ==> attendees[j] == old(attendees[j])
    {
      ghost var before := attendees[..];
      var params := DelEach(attendees[i].params[PARTSTAT := [state]], Advisory);
      attendees[i] := attendees[i].(params := params);
      assert forall j :: 0 <= j < attendees.Length && j != i ==> attendees[j] == before[j];
    }
  }
}

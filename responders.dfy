/** Finding the responding user among the attendees (mutt-ical.py:193-214):
    every attendee whose extracted address is one of the user's addresses is
    kept, in document order; membership is exact and case-sensitive. */
module Responders {
  import opened Outcomes
  import opened Calendar
  import opened Emails

  /** The loop's result on `atts`, built attendee by attendee from the left:
      the first attendee whose address cannot be extracted raises. */
  function Matches(atts: seq<ContentLine>, emails: seq<string>): (r: Result<seq<ContentLine>>)
    ensures r.Ok? ==> forall x :: x in r.value ==> EmailOf(x).Ok? && EmailOf(x).value in emails
    decreases |atts|
  {
    if atts == [] then Ok([])
    else
      var acc :- Matches(atts[..|atts| - 1], emails);
      var last := atts[|atts| - 1];
      var e :- EmailOf(last);
      Ok(if e in emails then acc + [last] else acc)
  }

  /** Every attendee's address can be extracted. */
  predicate Extractable(atts: seq<ContentLine>) {
    forall i :: 0 <= i < |atts| ==> EmailOf(atts[i]).Ok?
  }

  predicate IsInvited(a: ContentLine, emails: seq<string>) {
    EmailOf(a).Ok? && EmailOf(a).value in emails
  }

  /** Reference definition: the subsequence of invited attendees, kept in
      document order, read from the head. */
  function Invited(atts: seq<ContentLine>, emails: seq<string>): seq<ContentLine>
    decreases |atts|
  {
    if atts == [] then []
    else (if IsInvited(atts[0], emails) then [atts[0]] else []) + Invited(atts[1..], emails)
  }

  lemma {:induction false} InvitedSnoc(atts: seq<ContentLine>, x: ContentLine, emails: seq<string>)
    ensures Invited(atts + [x], emails) == Invited(atts, emails) + (if IsInvited(x, emails) then [x] else [])
    decreases |atts|
  {
    if atts == [] {
      assert [x][1..] == [];
    } else {
      var head: seq<ContentLine> := if IsInvited(atts[0], emails) then [atts[0]] else [];
      var last: seq<ContentLine> := if IsInvited(x, emails) then [x] else [];
      assert (atts + [x])[0] == atts[0];
      assert (atts + [x])[1..] == atts[1..] + [x];
      assert Invited(atts + [x], emails) == head + Invited(atts[1..] + [x], emails);
      InvitedSnoc(atts[1..], x, emails);
      assert head + (Invited(atts[1..], emails) + last) == (head + Invited(atts[1..], emails)) + last;
    }
  }

  /** The loop raises exactly when some address cannot be extracted, and
      otherwise keeps exactly the invited attendees in document order. */
  lemma {:induction false} MatchesIsInvited(atts: seq<ContentLine>, emails: seq<string>)
    ensures Matches(atts, emails).Ok? <==> Extractable(atts)
    ensures Extractable(atts) ==> Matches(atts, emails) == Ok(Invited(atts, emails))
    decreases |atts|
  {
    if atts != [] {
      var init, last := atts[..|atts| - 1], atts[|atts| - 1];
      MatchesIsInvited(init, emails);
      assert atts == init + [last];
      InvitedSnoc(init, last, emails);
      assert Extractable(atts) <==> Extractable(init) && EmailOf(last).Ok? by {
        if Extractable(init) && EmailOf(last).Ok? {
          forall i | 0 <= i < |atts| ensures EmailOf(atts[i]).Ok? {
            if i < |init| { assert atts[i] == init[i]; }
          }
        }
        if Extractable(atts) {
          forall i | 0 <= i < |init| ensures EmailOf(init[i]).Ok? {
            assert init[i] == atts[i];
          }
        }
      }
      if Extractable(atts) {
        var e := EmailOf(last).value;
        assert Matches(atts, emails) == Ok(if e in emails then Invited(init, emails) + [last] else Invited(init, emails));
        assert Invited(atts, emails) == Invited(init + [last], emails);
        assert IsInvited(last, emails) <==> e in emails;
        assert Invited(init, emails) + [] == Invited(init, emails);
      }
    }
  }

  /** An attendee is kept exactly when it is in the list and invited; so the
      result is empty exactly when nobody on the list is invited. */
  lemma {:induction false} InvitedMembers(atts: seq<ContentLine>, emails: seq<string>)
    ensures forall x :: x in Invited(atts, emails) <==> x in atts && IsInvited(x, emails)
    ensures Invited(atts, emails) == [] <==> forall i :: 0 <= i < |atts| ==> !IsInvited(atts[i], emails)
    decreases |atts|
  {
    if atts != [] {
      InvitedMembers(atts[1..], emails);
      assert atts == [atts[0]] + atts[1..];
      assert forall x :: x in atts <==> x == atts[0] || x in atts[1..];
      if forall i :: 0 <= i < |atts| ==> !IsInvited(atts[i], emails) {
        forall i | 0 <= i < |atts[1..]| ensures !IsInvited(atts[1..][i], emails) {
          assert atts[1..][i] == atts[i + 1];
        }
      }
      if Invited(atts, emails) == [] {
        forall i | 0 <= i < |atts| ensures !IsInvited(atts[i], emails) {
          if i > 0 { assert atts[i] == atts[1..][i - 1]; assert atts[i] in atts[1..]; }
        }
      }
    }
  }

  /** Once a prefix raises, the whole loop raises with the same exception. */
  lemma {:induction false} MatchesPrefixErr(atts: seq<ContentLine>, i: nat, emails: seq<string>)
    requires i <= |atts|
    requires Matches(atts[..i], emails).Err?
    ensures Matches(atts, emails) == Matches(atts[..i], emails)
    decreases |atts| - i
  {
    if i < |atts| {
      assert atts[..i + 1][..i] == atts[..i];
      MatchesPrefixErr(atts, i + 1, emails);
    } else {
      assert atts[..i] == atts;
    }
  }

  /** The matching loop of the script: appends every matching attendee,
      `email` ends as the address of the last one, and `flag` stays 1 exactly
      when nothing matched. */
  method MatchResponders(atts: seq<ContentLine>, emails: seq<string>)
      returns (matched: Result<seq<ContentLine>>, email: Option<string>, flag: int)
    ensures matched == Matches(atts, emails)
    ensures matched.Ok? ==> (flag == 1 <==> matched.value == []) && (flag == 0 <==> matched.value != [])
    ensures matched.Ok? && matched.value != [] ==>
      email == Some(EmailOf(matched.value[|matched.value| - 1]).value)
    ensures matched.Ok? && matched.value == [] ==> email == None
  {
    var acc: seq<ContentLine> := [];
    email, flag := None, 1;
    for i := 0 to |atts|
      invariant Matches(atts[..i], emails) == Ok(acc)
      invariant flag == (if acc == [] then 1 else 0)
      invariant acc != [] ==> email == Some(EmailOf(acc[|acc| - 1]).value)
      invariant acc == [] ==> email == None
    {
      var attendee := atts[i];
      assert atts[..i + 1][..i] == atts[..i];
      assert atts[..i + 1][i] == attendee;
      var param := Param(attendee, "EMAIL");
      if param.Some? {
        if param.value in emails {
          acc := acc + [attendee];
          email, flag := param, 0;
        }
      } else {
        var piece := ColonPiece(attendee.value);
        if piece.Err? {
          MatchesPrefixErr(atts, i + 1, emails);
          return Err(piece.crash), email, flag;
        }
        if piece.value in emails {
          acc := acc + [attendee];
          email, flag := Some(piece.value), 0;
        }
      }
    }
    assert atts[..|atts|] == atts;
    matched := Ok(acc);
  }
}

/** The response decision (mutt-ical.py:51-62, 174-189): the interactive
    prompt, and the option loop in which the last of -a, -d, -t and -i wins,
    each -e replaces the address list and -c replaces the mail command. */
module Decision {
  import opened Outcomes
  import opened Strings

  const ACCEPTED: string := "ACCEPTED"
  const DECLINED: string := "DECLINED"
  const TENTATIVE: string := "TENTATIVE"

  /** The states a decision can hold; "" means no reply is sent. */
  predicate IsState(s: string) {
    s == ACCEPTED || s == DECLINED || s == TENTATIVE || s == ""
  }

  /** A two-character line whose lower-case form is `c` then newline is
      `c` or its capital, then newline. */
  lemma LowerLine(line: string, c: char)
    requires 'a' <= c <= 'z'
    requires Lower(line) == [c, '\n']
    ensures line == [c, '\n'] || line == [(c as int - 32) as char, '\n']
  {
    assert |line| == 2;
    assert Lower(line)[0] == LowerChar(line[0]) && Lower(line)[1] == LowerChar(line[1]);
    assert line == [line[0], line[1]];
  }

  /** The answer one input line gives at the prompt; None re-prompts. */
  function AnswerFor(line: string): (r: Option<string>)
    ensures r == Some(ACCEPTED) <==> line == "y\n" || line == "Y\n"
    ensures r == Some(DECLINED) <==> line == "n\n" || line == "N\n"
    ensures r == Some(TENTATIVE) <==> line == "t\n" || line == "T\n"
    ensures r == Some("") <==> line == "q\n" || line == "Q\n"
    ensures r.Some? ==> IsState(r.value)
  {
    var l := Lower(line);
    if l == "y\n" then
      LowerLine(line, 'y');
      Some(ACCEPTED)
    else if l == "n\n" then
      LowerLine(line, 'n');
      Some(DECLINED)
    else if l == "t\n" then
      LowerLine(line, 't');
      Some(TENTATIVE)
    else if l == "q\n" then
      LowerLine(line, 'q');
      Some("")
    else None
  }

  /** The prompt's outcome on a stream of input lines: the state chosen and
      how many lines were read, or Exhausted when no line answers (the
      script then re-prompts for ever, reading empty lines at end of input). */
  datatype Prompted = Answered(state: string, used: nat) | Exhausted

  function Prompt(lines: seq<string>): (r: Prompted)
    ensures r.Answered? ==>
      && 1 <= r.used <= |lines|
      && AnswerFor(lines[r.used - 1]) == Some(r.state)
      && forall j :: 0 <= j < r.used - 1 ==> AnswerFor(lines[j]).None?
    ensures r.Exhausted? <==> forall j :: 0 <= j < |lines| ==> AnswerFor(lines[j]).None?
    decreases |lines|
  {
    if lines == [] then Exhausted
    else match AnswerFor(lines[0])
      case Some(s) => Answered(s, 1)
      case None =>
        assert forall j :: 0 <= j < |lines| - 1 ==> lines[1..][j] == lines[j + 1];
        match Prompt(lines[1..])
        case Exhausted => Exhausted
        case Answered(s, used) => Answered(s, used + 1)
  }

  /** `get_accept_decline()`: prompt until a line answers. */
  method GetAcceptDecline(lines: seq<string>) returns (r: Prompted)
    ensures r == Prompt(lines)
  {
    var i := 0;
    while i < |lines|
      invariant 0 <= i <= |lines|
      invariant forall j :: 0 <= j < i ==> AnswerFor(lines[j]).None?
    {
      var ans := AnswerFor(lines[i]);
      if ans.Some? {
        return Answered(ans.value, i + 1);
      }
      i := i + 1;
    }
    return Exhausted;
  }

  /** One `(flag, argument)` pair as `getopt` returns it. */
  datatype Opt = Opt(flag: string, arg: string)

  /** The variables the option loop updates, and the unread input. */
  datatype Settings = Settings(emails: seq<string>, decision: string, mutt: string, input: seq<string>)

  function Initial(input: seq<string>): Settings {
    Settings([], "", "mutt", input)
  }

  const DecisionFlags: set<string> := {"-a", "-d", "-t", "-i"}

  /** The state a direct decision flag selects. */
  function FlagState(flag: string): string
    requires flag in {"-a", "-d", "-t"}
  {
    if flag == "-a" then ACCEPTED else if flag == "-d" then DECLINED else TENTATIVE
  }

  /** One pass of the option loop's body; None when a prompt never answers. */
  function Step(s: Settings, opt: Opt): Option<Settings> {
    if opt.flag == "-e" then Some(s.(emails := Split(opt.arg, ',')))
    else if opt.flag == "-i" then
      match Prompt(s.input)
      case Exhausted => None
      case Answered(state, used) => Some(s.(decision := state, input := s.input[used..]))
    else if opt.flag == "-a" then Some(s.(decision := ACCEPTED))
    else if opt.flag == "-d" then Some(s.(decision := DECLINED))
    else if opt.flag == "-t" then Some(s.(decision := TENTATIVE))
    else if opt.flag == "-c" then Some(s.(mutt := opt.arg))
    else Some(s)
  }

  /** The option loop over `opts`, from the left. */
  function ApplyOptions(s: Settings, opts: seq<Opt>): Option<Settings>
    decreases |opts|
  {
    if opts == [] then Some(s)
    else match ApplyOptions(s, opts[..|opts| - 1])
      case None => None
      case Some(t) => Step(t, opts[|opts| - 1])
  }

  /** Running the loop over `a + b` is running it over `a`, then over `b`. */
  lemma {:induction false} ApplyOptionsAppend(s: Settings, a: seq<Opt>, b: seq<Opt>)
    ensures ApplyOptions(s, a + b) ==
      match ApplyOptions(s, a)
      case None => None
      case Some(t) => ApplyOptions(t, b)
    decreases |b|
  {
    if b == [] {
      assert a + b == a;
    } else {
      assert (a + b)[..|a + b| - 1] == a + b[..|b| - 1];
      ApplyOptionsAppend(s, a, b[..|b| - 1]);
    }
  }

  /** Each setting survives options that do not touch it. */
  lemma {:induction false} Untouched(s: Settings, post: seq<Opt>, t: Settings)
    requires ApplyOptions(s, post) == Some(t)
    ensures (forall k :: 0 <= k < |post| ==> post[k].flag !in DecisionFlags) ==> t.decision == s.decision
    ensures (forall k :: 0 <= k < |post| ==> post[k].flag != "-e") ==> t.emails == s.emails
    ensures (forall k :: 0 <= k < |post| ==> post[k].flag != "-c") ==> t.mutt == s.mutt
    decreases |post|
  {
    if post != [] {
      var init := post[..|post| - 1];
      var u := ApplyOptions(s, init).value;
      Untouched(s, init, u);
      assert forall k :: 0 <= k < |init| ==> init[k] == post[k];
    }
  }

  /** Every decision the loop can reach is one of the four states. */
  lemma {:induction false} DecisionClosed(s: Settings, opts: seq<Opt>, t: Settings)
    requires IsState(s.decision)
    requires ApplyOptions(s, opts) == Some(t)
    ensures IsState(t.decision)
    decreases |opts|
  {
    if opts != [] {
      DecisionClosed(s, opts[..|opts| - 1], ApplyOptions(s, opts[..|opts| - 1]).value);
    }
  }

  /** The loop up to and including option `j`, then the rest. */
  lemma SplitAt(s: Settings, opts: seq<Opt>, j: nat, t: Settings)
    requires j < |opts|
    requires ApplyOptions(s, opts) == Some(t)
    ensures ApplyOptions(s, opts[..j]).Some?
    ensures Step(ApplyOptions(s, opts[..j]).value, opts[j]).Some?
    ensures ApplyOptions(Step(ApplyOptions(s, opts[..j]).value, opts[j]).value, opts[j + 1..]) == Some(t)
  {
    var pre, post := opts[..j + 1], opts[j + 1..];
    assert opts == pre + post;
    ApplyOptionsAppend(s, pre, post);
    assert pre[..|pre| - 1] == opts[..j];
  }

  /** The last option of each kind decides: the last -a/-d/-t gives the
      decision, and a last -i the answer its prompt reads, the last -e the address list (split at commas), the last -c
      the mail command. */
  lemma LastOptionWins(s: Settings, opts: seq<Opt>, j: nat, t: Settings)
    requires j < |opts|
    requires ApplyOptions(s, opts) == Some(t)
    ensures opts[j].flag in {"-a", "-d", "-t"} &&
            (forall k :: j < k < |opts| ==> opts[k].flag !in DecisionFlags) ==>
            t.decision == FlagState(opts[j].flag)
    ensures opts[j].flag == "-e" && (forall k :: j < k < |opts| ==> opts[k].flag != "-e") ==>
            t.emails == Split(opts[j].arg, ',')
    ensures opts[j].flag == "-c" && (forall k :: j < k < |opts| ==> opts[k].flag != "-c") ==>
            t.mutt == opts[j].arg
    ensures opts[j].flag == "-i" &&
            (forall k :: j < k < |opts| ==> opts[k].flag !in DecisionFlags) ==>
            && ApplyOptions(s, opts[..j]).Some?
            && Prompt(ApplyOptions(s, opts[..j]).value.input).Answered?
            && t.decision == Prompt(ApplyOptions(s, opts[..j]).value.input).state
  {
    SplitAt(s, opts, j, t);
    var post := opts[j + 1..];
    var u := Step(ApplyOptions(s, opts[..j]).value, opts[j]).value;
    Untouched(u, post, t);
    assert forall k :: 0 <= k < |post| ==> post[k] == opts[j + 1 + k];
  }

  /** Without any decision flag the decision stays empty. */
  lemma NoDecisionFlag(input: seq<string>, opts: seq<Opt>, t: Settings)
    requires ApplyOptions(Initial(input), opts) == Some(t)
    requires forall k :: 0 <= k < |opts| ==> opts[k].flag !in DecisionFlags
    ensures t.decision == ""
  {
    Untouched(Initial(input), opts, t);
  }

  /** Once a prefix of the options hangs in a prompt, the whole loop does. */
  lemma ApplyOptionsPrefixNone(s: Settings, opts: seq<Opt>, i: nat)
    requires i <= |opts|
    requires ApplyOptions(s, opts[..i]).None?
    ensures ApplyOptions(s, opts).None?
  {
    assert opts == opts[..i] + opts[i..];
    ApplyOptionsAppend(s, opts[..i], opts[i..]);
  }

  /** The body of the option loop: a chain of independent `if`s, of which
      at most one applies since the flags differ. */
  method StepOnce(emails: seq<string>, decision: string, mutt: string, input: seq<string>, opt: Opt)
      returns (r: Option<Settings>)
    ensures r == Step(Settings(emails, decision, mutt, input), opt)
  {
    var emails, decision, mutt, input := emails, decision, mutt, input;
    if opt.flag == "-e" {
      emails := Split(opt.arg, ',');
    }
    if opt.flag == "-i" {
      var answer := GetAcceptDecline(input);
      if answer.Exhausted? {
        return None;
      }
      decision := answer.state;
      input := input[answer.used..];
    }
    if opt.flag == "-a" {
      decision := ACCEPTED;
    }
    if opt.flag == "-d" {
      decision := DECLINED;
    }
    if opt.flag == "-t" {
      decision := TENTATIVE;
    }
    if opt.flag == "-c" {
      mutt := opt.arg;
    }
    r := Some(Settings(emails, decision, mutt, input));
  }

  /** The option loop of the script over `opts`, reading prompts from `input`. */
  method ReadOptions(opts: seq<Opt>, input: seq<string>) returns (r: Option<Settings>)
    ensures r == ApplyOptions(Initial(input), opts)
  {
    var settings := Initial(input);
    for i := 0 to |opts|
      invariant ApplyOptions(Initial(input), opts[..i]) == Some(settings)
    {
      assert opts[..i + 1][..i] == opts[..i];
      var next := StepOnce(settings.emails, settings.decision, settings.mutt, settings.input, opts[i]);
      if next.None? {
        ApplyOptionsPrefixNone(Initial(input), opts, i + 1);
        return None;
      }
      settings := next.value;
    }
    assert opts[..|opts|] == opts;
    r := Some(settings);
  }
}

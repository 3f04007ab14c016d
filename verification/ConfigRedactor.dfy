/** Redacting a configuration line by line: what carries from one line to the next. */
module ConfigRedactor {
  import opened Basics
  import opened Lex

  const MARK := "***scrubbed***"
  const DELIMITER := "^C"
  const APPLET := "event manager applet"

  // The expressions the redactor goes by: the redaction of one line under its parent, as
  // free text or not; an action that waits for a prompt; where a `cli command` ends.
  datatype Patterns = Patterns(
    redactLine: (string, string, bool) -> string,
    prompt: string -> bool,
    command: string -> Option<nat>)

  ghost predicate Sound(p: Patterns) {
    forall s :: p.command(s).Some? ==> p.command(s).value <= |s|
  }

  function Count(line: string): nat {
    if |line| < 2 then 0
    else if line[..2] == DELIMITER then 1 + Count(line[2..])
    else Count(line[1..])
  }

  // `\s*""(?:\s|$)`: just Enter.
  predicate EmptyAnswer(answer: string) {
    var rest := LStrip(answer);
    "\"\"" <= rest && (|rest| == 2 || IsSpace(rest[2]))
  }

  // A line that is not indented, a comment or blank opens a stanza, unless it is free text.
  predicate TopLevel(line: string) {
    line != "" && line[0] !in " \t!"
  }

  datatype State = State(parent: string, inText: bool, pending: bool)

  const START := State("", false, false)

  function Entered(s: State, line: string): State {
    var inText := if Count(line) % 2 == 1 then !s.inText else s.inText;
    if !s.inText && TopLevel(line) then State(Strip(line), inText, false) else s.(inText := inText)
  }

  function Masked(out: string, p: Patterns): string
    requires Sound(p)
  {
    match p.command(out)
    case None => out
    case Some(end) =>
      if Blank(out[end..]) || EmptyAnswer(out[end..]) then out else out[..end] + " " + MARK
  }

  function Step(s: State, line: string, p: Patterns): (State, string)
    requires Sound(p)
  {
    var t := Entered(s, line);
    var out := p.redactLine(line, t.parent, s.inText);
    if !StartsWith(t.parent, APPLET) then (t, out)
    else
      var answered := t.pending && p.command(out).Some?;
      (t.(pending := p.prompt(line) || (t.pending && !answered)), if answered then Masked(out, p) else out)
  }

  function StateAt(lines: seq<string>, n: nat, p: Patterns): State
    requires Sound(p) && n <= |lines|
  {
    if n == 0 then START else Step(StateAt(lines, n - 1, p), lines[n - 1], p).0
  }

  // What becomes of line `i`.
  function Out(lines: seq<string>, i: nat, p: Patterns): string
    requires Sound(p) && i < |lines|
  {
    Step(StateAt(lines, i, p), lines[i], p).1
  }

  lemma NextState(lines: seq<string>, n: nat, p: Patterns)
    requires Sound(p) && n < |lines|
    ensures (StateAt(lines, n + 1, p), Out(lines, n, p)) == Step(StateAt(lines, n, p), lines[n], p)
  {
    hide Step;
  }

  lemma StartState(lines: seq<string>, p: Patterns)
    requires Sound(p)
    ensures StateAt(lines, 0, p) == START
  {
  }

  // `_redact_config_lines`
  method RedactConfigLines(lines: seq<string>, p: Patterns) returns (redacted: seq<string>)
    requires Sound(p)
    ensures |redacted| == |lines|
    ensures forall i: nat :: i < |lines| ==> redacted[i] == Out(lines, i, p)
  {
    hide Strip, TopLevel, Count, EmptyAnswer, Blank, StateAt, Out;
    redacted := [];
    assert StateAt(lines, 0, p) == START by { StartState(lines, p); }
    var parent, answerPending, inText := "", false, false;
    for n := 0 to |lines|
      invariant |redacted| == n
      invariant State(parent, inText, answerPending) == StateAt(lines, n, p)
      invariant forall i: nat :: i < n ==> redacted[i] == Out(lines, i, p)
    {
      NextState(lines, n, p);
      var line := lines[n];
      var freeText := inText;
      if Count(line) % 2 == 1 {
        inText := !inText;
      }
      if !freeText && TopLevel(line) {
        parent := Strip(line);
        answerPending := false;
      }
      var out := p.redactLine(line, parent, freeText);
      if StartsWith(parent, APPLET) {
        var command := if answerPending then p.command(out) else None;
        if command.Some? {
          answerPending := false;
          var answer := out[command.value..];
          if !Blank(answer) && !EmptyAnswer(answer) {
            out := out[..command.value] + " " + MARK;
          }
        }
        if p.prompt(line) {
          answerPending := true;
        }
      }
      redacted := redacted + [out];
    }
  }

  // ----- the same, told by position --------------------------------------------------------

  // How many delimiters stand in the first `n` lines.
  function Delimiters(lines: seq<string>, n: nat): nat
    requires n <= |lines|
  {
    if n == 0 then 0 else Delimiters(lines, n - 1) + Count(lines[n - 1])
  }

  predicate FreeText(lines: seq<string>, i: nat)
    requires i < |lines|
  {
    Delimiters(lines, i) % 2 == 1
  }

  predicate OpensStanza(lines: seq<string>, i: nat)
    requires i < |lines|
  {
    !FreeText(lines, i) && TopLevel(lines[i])
  }

  // The line of the stanza that line `i` stands in.
  function Parent(lines: seq<string>, i: nat): string
    requires i < |lines|
  {
    if OpensStanza(lines, i) then Strip(lines[i]) else if i == 0 then "" else Parent(lines, i - 1)
  }

  // The line redacted by itself.
  function Plain(lines: seq<string>, i: nat, p: Patterns): string
    requires i < |lines|
  {
    p.redactLine(lines[i], Parent(lines, i), FreeText(lines, i))
  }

  predicate PromptAt(lines: seq<string>, i: nat, p: Patterns)
    requires i < |lines|
  {
    StartsWith(Parent(lines, i), APPLET) && p.prompt(lines[i])
  }

  predicate CommandAt(lines: seq<string>, i: nat, p: Patterns)
    requires i < |lines|
  {
    p.command(Plain(lines, i, p)).Some?
  }

  // The prompt of line `j` is still open after the first `n` lines: the stanza goes on,
  // and no command has come since.
  ghost predicate Awaits(lines: seq<string>, j: nat, n: nat, p: Patterns)
    requires n <= |lines|
  {
    j < n && PromptAt(lines, j, p)
    && forall k: nat :: j < k < n ==> !OpensStanza(lines, k) && !CommandAt(lines, k, p)
  }

  ghost predicate Waiting(lines: seq<string>, n: nat, p: Patterns)
    requires n <= |lines|
  {
    exists j: nat :: Awaits(lines, j, n, p)
  }

  ghost predicate AnswersPrompt(lines: seq<string>, i: nat, p: Patterns)
    requires i < |lines|
  {
    !OpensStanza(lines, i) && Waiting(lines, i, p)
  }

  lemma {:induction false} StateIsPositional(lines: seq<string>, n: nat, p: Patterns)
    requires Sound(p) && n <= |lines|
    ensures var s := StateAt(lines, n, p);
      && s.inText == (Delimiters(lines, n) % 2 == 1)
      && s.parent == (if n == 0 then "" else Parent(lines, n - 1))
      && (s.pending <==> Waiting(lines, n, p))
  {
    hide Strip, TopLevel, Count, EmptyAnswer, Masked, StateAt, Step, Waiting;
    if n == 0 {
      StartState(lines, p);
      NothingAwaits(lines, p);
    } else {
      StateIsPositional(lines, n - 1, p);
      NextState(lines, n - 1, p);
      StepIsPositional(StateAt(lines, n - 1, p), lines, n - 1, p);
      AwaitsOneMore(lines, n, p);
    }
  }

  lemma NothingAwaits(lines: seq<string>, p: Patterns)
    ensures !Waiting(lines, 0, p)
  {
  }

  lemma StepIsPositional(s: State, lines: seq<string>, k: nat, p: Patterns)
    requires Sound(p) && k < |lines|
    requires s.inText == (Delimiters(lines, k) % 2 == 1)
    requires s.parent == if k == 0 then "" else Parent(lines, k - 1)
    ensures var t := Step(s, lines[k], p).0;
      && t.inText == (Delimiters(lines, k + 1) % 2 == 1)
      && t.parent == Parent(lines, k)
      && (!StartsWith(Parent(lines, k), APPLET) ==> t.pending == (s.pending && !OpensStanza(lines, k)))
      && (StartsWith(Parent(lines, k), APPLET) ==>
            t.pending == (PromptAt(lines, k, p) || (s.pending && !OpensStanza(lines, k) && !CommandAt(lines, k, p))))
  {
    hide Strip, TopLevel, Count, Masked;
    assert Entered(s, lines[k]).parent == Parent(lines, k);
  }

  lemma AwaitsOneMore(lines: seq<string>, n: nat, p: Patterns)
    requires 0 < n <= |lines|
    ensures var (before, after) := (Waiting(lines, n - 1, p), Waiting(lines, n, p));
      && (!StartsWith(Parent(lines, n - 1), APPLET) ==> after == (before && !OpensStanza(lines, n - 1)))
      && (StartsWith(Parent(lines, n - 1), APPLET) ==>
            after == (PromptAt(lines, n - 1, p)
                      || (before && !OpensStanza(lines, n - 1) && !CommandAt(lines, n - 1, p))))
  {
    hide Strip, TopLevel, Count, CommandAt, StartsWith, OpensStanza, Parent;
    var k := n - 1;
    if PromptAt(lines, k, p) { assert Awaits(lines, k, n, p); }
    if Waiting(lines, k, p) && !OpensStanza(lines, k) {
      var j: nat :| Awaits(lines, j, k, p);
      StanzaHolds(lines, j, k, p);
      if !CommandAt(lines, k, p) { assert Awaits(lines, j, n, p); }
    }
    if Waiting(lines, n, p) {
      var j: nat :| Awaits(lines, j, n, p);
      if j < k { assert Awaits(lines, j, k, p); StanzaHolds(lines, j, k, p); }
    }
  }

  lemma StanzaHolds(lines: seq<string>, j: nat, k: nat, p: Patterns)
    requires k < |lines| && Awaits(lines, j, k, p) && !OpensStanza(lines, k)
    ensures StartsWith(Parent(lines, k), APPLET)
  {
    hide Strip, TopLevel, Count, OpensStanza;
    StanzaGoesOn(lines, j, k, p);
  }

  // Until another stanza opens, every line stands in the stanza of the prompt.
  lemma {:induction false} StanzaGoesOn(lines: seq<string>, j: nat, n: nat, p: Patterns)
    requires n <= |lines| && Awaits(lines, j, n, p)
    ensures Parent(lines, n - 1) == Parent(lines, j)
    decreases n
  {
    if j < n - 1 {
      assert !OpensStanza(lines, n - 1);
      StanzaGoesOn(lines, j, n - 1, p);
    }
  }

  // Line `i` loses its argument exactly when a prompt before it in the same applet still
  // waits for an answer; every other line comes out as it does by itself.
  lemma RedactedExactly(lines: seq<string>, i: nat, p: Patterns)
    requires Sound(p) && i < |lines|
    ensures Out(lines, i, p) == if AnswersPrompt(lines, i, p) then Masked(Plain(lines, i, p), p) else Plain(lines, i, p)
  {
    hide Strip, TopLevel, Count, EmptyAnswer, Blank;
    StateIsPositional(lines, i, p);
    var t := Entered(StateAt(lines, i, p), lines[i]);
    assert t.parent == Parent(lines, i);
    assert t.pending <==> AnswersPrompt(lines, i, p);
    if AnswersPrompt(lines, i, p) {
      var j: nat :| Awaits(lines, j, i, p);
      StanzaGoesOn(lines, j, i, p);
    }
  }

  // Whatever stands between a prompt and the next command, the command's argument is gone.
  lemma NextCommandIsMasked(lines: seq<string>, j: nat, i: nat, p: Patterns)
    requires Sound(p) && j < i < |lines| && PromptAt(lines, j, p)
    requires forall k: nat :: j < k < i ==> !OpensStanza(lines, k) && !CommandAt(lines, k, p)
    requires !OpensStanza(lines, i) && CommandAt(lines, i, p)
    ensures var end := p.command(Plain(lines, i, p)).value;
      var answer := Plain(lines, i, p)[end..];
      !Blank(answer) && !EmptyAnswer(answer) ==> Out(lines, i, p) == Plain(lines, i, p)[..end] + " " + MARK
  {
    hide EmptyAnswer, Blank, Parent;
    assert Awaits(lines, j, i, p);
    RedactedExactly(lines, i, p);
  }

  // ----- runs that differ ---------------------------------------------------------------------

  // A line that opens and closes nothing, asks nothing and answers nothing.
  ghost predicate Neutral(s: State, line: string, p: Patterns) {
    && Count(line) % 2 == 0 && (s.inText || !TopLevel(line)) && !p.prompt(line)
    && p.command(p.redactLine(line, s.parent, s.inText)).None?
  }

  lemma NeutralStep(s: State, line: string, p: Patterns)
    requires Sound(p) && Neutral(s, line, p)
    ensures Step(s, line, p).0 == s
  {
    hide Count, TopLevel;
  }

  function Inserted(lines: seq<string>, at: nat, line: string): seq<string>
    requires at <= |lines|
  {
    lines[..at] + [line] + lines[at..]
  }

  // Putting such a line anywhere changes what becomes of no other line.
  lemma {:induction false} NeutralLineChangesNothing(lines: seq<string>, at: nat, line: string, n: nat, p: Patterns)
    requires Sound(p) && at <= |lines| && n <= |lines|
    requires Neutral(StateAt(lines, at, p), line, p)
    ensures StateAt(Inserted(lines, at, line), if n < at then n else n + 1, p) == StateAt(lines, n, p)
    ensures n < |lines| ==> Out(Inserted(lines, at, line), if n < at then n else n + 1, p) == Out(lines, n, p)
    decreases n
  {
    hide Step, Neutral, StateAt, Out;
    var longer := Inserted(lines, at, line);
    PrefixState(lines, longer, if n < at then n else at, p);
    if n < |lines| { NextState(lines, n, p); }
    if n < at {
      assert longer[n] == lines[n];
      NextState(longer, n, p);
    } else {
      NextState(longer, n, p);
      if n == at {
        assert longer[at] == line;
        NeutralStep(StateAt(lines, at, p), line, p);
      } else {
        NeutralLineChangesNothing(lines, at, line, n - 1, p);
        NextState(lines, n - 1, p);
        assert longer[n] == lines[n - 1];
      }
      if n < |lines| {
        assert longer[n + 1] == lines[n];
        NextState(longer, n + 1, p);
      }
    }
  }

  lemma {:induction false} PrefixState(a: seq<string>, b: seq<string>, n: nat, p: Patterns)
    requires Sound(p) && n <= |a| && n <= |b| && forall i :: 0 <= i < n ==> a[i] == b[i]
    ensures StateAt(a, n, p) == StateAt(b, n, p)
  {
    hide Step;
    if n > 0 { PrefixState(a, b, n - 1, p); }
  }

  // Two lines that answer a prompt alike: with the same command, and arguments of their own.
  ghost predicate AnswerAlike(s: State, x: string, y: string, p: Patterns)
    requires Sound(p)
  {
    var outX, outY := p.redactLine(x, s.parent, s.inText), p.redactLine(y, s.parent, s.inText);
    && s.pending && StartsWith(s.parent, APPLET)
    && (s.inText || (!TopLevel(x) && !TopLevel(y)))
    && Count(x) % 2 == Count(y) % 2 && p.prompt(x) == p.prompt(y)
    && p.command(outX).Some? && p.command(outY).Some?
    && var (endX, endY) := (p.command(outX).value, p.command(outY).value);
    && outX[..endX] == outY[..endY]
    && !Blank(outX[endX..]) && !EmptyAnswer(outX[endX..])
    && !Blank(outY[endY..]) && !EmptyAnswer(outY[endY..])
  }

  // The argument of an answer shows nowhere in the redacted configuration.
  lemma {:induction false} AnswerDoesNotShow(lines: seq<string>, at: nat, other: string, n: nat, p: Patterns)
    requires Sound(p) && at < |lines| && n < |lines|
    requires AnswerAlike(StateAt(lines, at, p), lines[at], other, p)
    ensures Out(lines[at := other], n, p) == Out(lines, n, p)
    ensures StateAt(lines[at := other], n, p) == StateAt(lines, n, p)
    decreases n
  {
    hide Step, StateAt, Out, AnswerAlike;
    var changed := lines[at := other];
    NextState(lines, n, p);
    NextState(changed, n, p);
    PrefixState(lines, changed, if n < at then n else at, p);
    AlikeStep(StateAt(lines, at, p), lines[at], other, p);
    if n > at {
      AnswerDoesNotShow(lines, at, other, n - 1, p);
      NextState(lines, n - 1, p);
      NextState(changed, n - 1, p);
    }
  }

  lemma AlikeStep(s: State, x: string, y: string, p: Patterns)
    requires Sound(p) && AnswerAlike(s, x, y, p)
    ensures Step(s, x, p) == Step(s, y, p)
  {
    hide Count, TopLevel, Blank, EmptyAnswer;
  }
}

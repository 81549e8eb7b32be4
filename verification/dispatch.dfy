/** What one iteration of `main` in usfsh.c asks the operating system to do,
    and how the shell session proceeds. The process work itself (fork, exec,
    pipe, dup, wait) is not modelled: an action records the programs, argument
    vectors and file name the C code hands to those calls. */
module Dispatch {

  import opened Wrappers
  import opened LineReader
  import opened Tokenizer
  import opened Classifier

  /** One `execvp` call: the program looked up (None for a null pointer) and
      the argument vector before its null sentinel. */
  datatype Exec = Exec(program: Option<string>, argv: seq<string>)

  /** The effect requested by one dispatched line. */
  datatype Action =
    | Skip                                  // empty line: nothing dispatched
    | NullCommand                           // all-space line: args[0] is never written
    | Quit                                  // exit(0)
    | ChangeDir(target: Option<string>)     // chdir(target)
    | RunSimple(cmd: Exec)
    | RunRedirect(cmd: Exec, file: Option<string>)
    | RunPipe(first: Exec, second: Exec)

  /** `execute_redirect`: the child runs the first token with the tokens
      before `>` as its arguments, and standard output goes to the token
      right after `>`; later tokens are dropped. */
  function RedirectSplit(ts: seq<string>, k: nat): (a: Action)
    requires k < |ts| && ts[k] == RedirectOp
    ensures a.RunRedirect?
    ensures a.cmd.program == Some(ts[0])
    ensures a.cmd.argv + [RedirectOp] == ts[..k + 1]
    ensures k + 1 < |ts| ==> a.file == Some(ts[k + 1]) && ts == a.cmd.argv + [RedirectOp, a.file.value] + ts[k + 2..]
    ensures k + 1 == |ts| ==> a.file == None && ts == a.cmd.argv + [RedirectOp]
  {
    var file := if k + 1 < |ts| then Some(ts[k + 1]) else None;
    assert ts[..k + 1] == ts[..k] + [RedirectOp];
    assert k + 1 < |ts| ==> ts == ts[..k] + [RedirectOp, ts[k + 1]] + ts[k + 2..];
    RunRedirect(Exec(Some(ts[0]), ts[..k]), file)
  }

  /** `execute_piping`: the first child runs the first token with the tokens
      before `|`; the second runs the token after `|` with everything from
      there to the sentinel. */
  function PipeSplit(ts: seq<string>, k: nat): (a: Action)
    requires k < |ts| && ts[k] == PipeOp
    ensures a.RunPipe?
    ensures a.first.program == Some(ts[0])
    ensures a.first.argv == ts[..k] && a.second.argv == ts[k + 1..]
    ensures ts == a.first.argv + [PipeOp] + a.second.argv
    ensures a.second.program == if a.second.argv == [] then None else Some(a.second.argv[0])
  {
    assert ts == ts[..k] + [PipeOp] + ts[k + 1..];
    var right := ts[k + 1..];
    RunPipe(Exec(Some(ts[0]), ts[..k]),
            Exec(if k + 1 < |ts| then Some(ts[k + 1]) else None, right))
  }

  /** `execute_cd`: the directory is HOME when the reader counted one word,
      and args[1] otherwise, which is the sentinel when only one token was
      found. */
  function CdTarget(argv: seq<Option<string>>, words: nat, home: Option<string>): Option<string>
    requires |argv| >= 2
  {
    if words == 1 then home else argv[1]
  }

  /** The cases of `cd` in terms of the line: a bare `cd` goes to HOME, `cd`
      with a further token goes there, and `cd` followed only by spaces (or
      preceded by one) hands the null sentinel to chdir. */
  lemma CdTargetCases(line: string, home: Option<string>)
    requires Tokens(line) != [] && Tokens(line)[0] == CdWord
    ensures var ts, target := Tokens(line), CdTarget(ParseArgs(line), WordCount(line), home);
            && (line == CdWord ==> target == home)
            && (|ts| >= 2 ==> target == Some(ts[1]))
            && (|ts| == 1 && line != CdWord ==> target == None)
  {
  }

  /** The action `main` takes for a line the reader accepted. */
  function Plan(line: string, words: nat, home: Option<string>): (a: Action)
    requires words == WordCount(line)
    ensures a == Skip <==> line == []
    ensures a == NullCommand <==> line != [] && Tokens(line) == []
    ensures a == Quit <==> Tokens(line) != [] && Tokens(line)[0] == ExitWord
    ensures a.ChangeDir? <==> Tokens(line) != [] && Tokens(line)[0] == CdWord
    ensures a.RunPipe? <==> Tokens(line) != [] && Tokens(line)[0] !in {ExitWord, CdWord} && PipeOp in Tokens(line)
    ensures a.RunRedirect? <==> Tokens(line) != [] && Tokens(line)[0] !in {ExitWord, CdWord}
                                && PipeOp !in Tokens(line) && RedirectOp in Tokens(line)
    ensures a.RunSimple? <==> Tokens(line) != [] && Tokens(line)[0] !in {ExitWord, CdWord}
                              && PipeOp !in Tokens(line) && RedirectOp !in Tokens(line)
    ensures a.RunSimple? ==> a.cmd == Exec(Some(Tokens(line)[0]), Tokens(line))
    ensures a.ChangeDir? ==> a.target == if WordCount(line) == 1 then home
                                         else if |Tokens(line)| >= 2 then Some(Tokens(line)[1])
                                         else None
    ensures a.RunPipe? ==> Tokens(line) == a.first.argv + [PipeOp] + a.second.argv && PipeOp !in a.second.argv
    ensures a.RunPipe? ==> a.first.program == Some(Tokens(line)[0])
                           && a.second.program == if a.second.argv == [] then None else Some(a.second.argv[0])
    ensures a.RunRedirect? ==> a.cmd.argv + [RedirectOp] <= Tokens(line)
                               && RedirectOp !in Tokens(line)[|a.cmd.argv| + 1..]
    ensures a.RunRedirect? ==> a.cmd.program == Some(Tokens(line)[0])
                               && a.file == if |a.cmd.argv| + 1 < |Tokens(line)| then Some(Tokens(line)[|a.cmd.argv| + 1])
                                            else None
  {
    if words == 0 then Skip
    else
      var ts := Tokens(line);
      if ts == [] then NullCommand
      else
        match Classify(ts)
        case Exit => Quit
        case Cd => ChangeDir(CdTarget(ParseArgs(line), words, home))
        case Pipe(k) => PipeSplit(ts, k)
        case Redirect(k) => RedirectSplit(ts, k)
        case Simple => RunSimple(Exec(Some(ts[0]), ts))
  }

  /** Extra spaces change only what `cd` does: two non-empty lines with
      the same tokens lead to the same action unless it is a directory change,
      where the word count decides between HOME and args[1]. */
  lemma SpacingMattersOnlyForCd(l1: string, l2: string, home: Option<string>)
    requires l1 != [] && l2 != [] && Tokens(l1) == Tokens(l2)
    ensures var a1, a2 := Plan(l1, WordCount(l1), home), Plan(l2, WordCount(l2), home);
            a1 == a2 || (a1.ChangeDir? && a2.ChangeDir?)
  {
  }

  /** One pass through the loop of `main`: read a line, then plan it. */
  datatype StepResult = Fatal | Next(action: Action, rest: string)

  function Step(input: string, home: Option<string>): (r: StepResult)
    ensures r.Fatal? <==> ReadLine(input).TooLong?
    ensures r.Next? ==> |r.rest| < |input| || (input == [] && r == Next(Skip, []))
    ensures r.Next? && input != [] && input[0] == '\n' ==> r == Next(Skip, input[1..])
  {
    match ReadLine(input)
    case TooLong => Fatal
    case Line(text, words, rest) =>
      Next(Plan(text, words, home), rest)
  }

  /** A line of at most MaxChar characters ended by a newline is planned as
      it stands, and the input after the newline is left for the next pass. */
  lemma StepReadsLine(line: string, rest: string, home: Option<string>)
    requires '\n' !in line && |line| <= MaxChar
    ensures Step(line + "\n" + rest, home) == Next(Plan(line, WordCount(line), home), rest)
  {
    var input := line + "\n" + rest;
    assert input[..|line|] == line;
    assert input[|line| + 1..] == rest;
    ReadLineAt(input, |line|);
  }

  /** The last line of the input, not ended by a newline, is planned as it
      stands when it has at most MaxChar + 1 characters. */
  lemma StepReadsLastLine(line: string, home: Option<string>)
    requires '\n' !in line && |line| <= MaxChar + 1
    ensures Step(line, home) == Next(Plan(line, WordCount(line), home), [])
  {
    assert line[..|line|] == line;
    ReadLineAt(line, |line|);
  }

  /** What the shell does after an action: stop with a status, keep going,
      or (for the all-space line) run into undefined behaviour. The answers
      of chdir and open come from the environment. */
  datatype Status = Running | Exited(code: int) | Undefined

  function After(a: Action, chdirOk: bool, openOk: bool): (st: Status)
    ensures st == Exited(0) <==> a == Quit
    ensures st.Exited? && st.code != 0 <==> (a.ChangeDir? && !chdirOk) || (a.RunRedirect? && !openOk)
    ensures st == Undefined <==> a == NullCommand
    ensures st.Exited? ==> st.code == 0 || st.code == -1
  {
    match a
    case Quit => Exited(0)
    case NullCommand => Undefined
    case ChangeDir(_) => if chdirOk then Running else Exited(-1)
    case RunRedirect(_, _) => if openOk then Running else Exited(-1)
    case _ => Running
  }

  /** How a session ends: with the exit status of `exit` or of a refused
      chdir or open, with the reader's "max characters reached" exit
      (status -1), by running out of input (the C loop then re-prompts
      forever on an empty read), or in undefined behaviour. */
  datatype End = ExitedWith(code: int) | LineTooLong | InputExhausted | UndefinedBehaviour

  datatype Trace = Trace(actions: seq<Action>, end: End)

  /** Whether the operating system refuses the chdir or open that the
      action of line `n` asks for. A null path is always refused, since
      chdir and open fail on it. */
  predicate Refused(a: Action, n: nat, chdirOk: (nat, string) -> bool, openOk: (nat, string) -> bool)
  {
    || (a.ChangeDir? && (a.target.None? || !chdirOk(n, a.target.value)))
    || (a.RunRedirect? && (a.file.None? || !openOk(n, a.file.value)))
  }

  /** The status after the action of line `n`, with the environment's
      answers for the chdir or open it asks for. */
  function Outcome(a: Action, n: nat, chdirOk: (nat, string) -> bool, openOk: (nat, string) -> bool): (st: Status)
    ensures st == Exited(0) <==> a == Quit
    ensures st == Exited(-1) <==> Refused(a, n, chdirOk, openOk)
    ensures st == Undefined <==> a == NullCommand
    ensures st.Exited? ==> st.code == 0 || st.code == -1
  {
    After(a, a.ChangeDir? ==> a.target.Some? && chdirOk(n, a.target.value),
          a.RunRedirect? ==> a.file.Some? && openOk(n, a.file.value))
  }

  /** The last action of a trace whose first line is numbered `n` was refused. */
  predicate LastRefused(t: Trace, n: nat, chdirOk: (nat, string) -> bool, openOk: (nat, string) -> bool)
  {
    t.actions != [] && Refused(t.actions[|t.actions| - 1], n + |t.actions| - 1, chdirOk, openOk)
  }

  /** A line that let the shell go on, followed by the rest of the session. */
  function Then(a: Action, t: Trace): (r: Trace)
    requires a != Quit && a != NullCommand
    requires forall i :: 0 <= i < |t.actions| - 1 ==> t.actions[i] != Quit && t.actions[i] != NullCommand
    ensures r.end == t.end && |r.actions| == |t.actions| + 1 && r.actions[0] == a
    ensures t.actions != [] ==> r.actions[|r.actions| - 1] == t.actions[|t.actions| - 1]
    ensures forall i :: 0 <= i < |r.actions| - 1 ==> r.actions[i] != Quit && r.actions[i] != NullCommand
    ensures Quit in r.actions <==> Quit in t.actions
    ensures NullCommand in r.actions <==> NullCommand in t.actions
  {
    Trace([a] + t.actions, t.end)
  }

  /** Prefixing an action that was not refused keeps "no refusal before
      the last action" and the line number of the last action. */
  lemma ThenRefusals(a: Action, t: Trace, n: nat, chdirOk: (nat, string) -> bool, openOk: (nat, string) -> bool)
    requires a != Quit && a != NullCommand && !Refused(a, n, chdirOk, openOk)
    requires forall i :: 0 <= i < |t.actions| - 1 ==> t.actions[i] != Quit && t.actions[i] != NullCommand
    requires forall i :: 0 <= i < |t.actions| - 1 ==> !Refused(t.actions[i], n + 1 + i, chdirOk, openOk)
    ensures var r := Then(a, t);
            && (forall i :: 0 <= i < |r.actions| - 1 ==> !Refused(r.actions[i], n + i, chdirOk, openOk))
            && (LastRefused(r, n, chdirOk, openOk) <==> LastRefused(t, n + 1, chdirOk, openOk))
  {
    var r := Then(a, t);
    forall i | 0 <= i < |r.actions| - 1
      ensures !Refused(r.actions[i], n + i, chdirOk, openOk)
    {
      if i > 0 {
        assert r.actions[i] == t.actions[i - 1];
      }
    }
  }

  /** The loop of `main` over the whole input. `chdirOk(n, d)` and
      `openOk(n, f)` say whether chdir of d, or open of f, succeeds when
      the n-th line is dispatched; line numbers start at `n`. Dispatched
      programs are taken to read nothing from the shared standard input,
      so the next read starts right after the line. */
  function Session(input: string, home: Option<string>,
                   chdirOk: (nat, string) -> bool,
                   openOk: (nat, string) -> bool, n: nat): (t: Trace)
    ensures forall i :: 0 <= i < |t.actions| - 1 ==> t.actions[i] != Quit && t.actions[i] != NullCommand
    ensures forall i :: 0 <= i < |t.actions| - 1 ==> !Refused(t.actions[i], n + i, chdirOk, openOk)
    ensures t.end == ExitedWith(0) <==> t.actions != [] && t.actions[|t.actions| - 1] == Quit
    ensures t.end == UndefinedBehaviour <==> t.actions != [] && t.actions[|t.actions| - 1] == NullCommand
    ensures t.end == InputExhausted ==> Quit !in t.actions && NullCommand !in t.actions
    ensures t.actions == [] <==> input == [] || ReadLine(input).TooLong?
    ensures t.actions == [] && input != [] ==> t.end == LineTooLong
    ensures t.end.ExitedWith? ==> t.end.code == 0 || t.end.code == -1
    decreases |input|
  {
    if input == [] then Trace([], InputExhausted)
    else
      var r := Step(input, home);
      if r.Fatal? then Trace([], LineTooLong)
      else
        var a := r.action;
        var st := Outcome(a, n, chdirOk, openOk);
        if st.Exited? then Trace([a], ExitedWith(st.code))
        else if st.Undefined? then Trace([a], UndefinedBehaviour)
        else
          var t' := Session(r.rest, home, chdirOk, openOk, n + 1);
          ThenRefusals(a, t', n, chdirOk, openOk);
          Then(a, t')
  }

  /** The first line of a session: its plan is the first action; a refused
      chdir or open ends the session there with status -1, and any other
      action except `exit` and the all-space line is followed by the
      session over the rest of the input, one line number later. */
  lemma SessionFirstLine(line: string, rest: string, home: Option<string>,
                         chdirOk: (nat, string) -> bool, openOk: (nat, string) -> bool, n: nat)
    requires '\n' !in line && |line| <= MaxChar
    ensures var a := Plan(line, WordCount(line), home);
            var t := Session(line + "\n" + rest, home, chdirOk, openOk, n);
            var t' := Session(rest, home, chdirOk, openOk, n + 1);
            && t.actions != [] && t.actions[0] == a
            && (a == Quit ==> t == Trace([Quit], ExitedWith(0)))
            && (Refused(a, n, chdirOk, openOk) ==> t == Trace([a], ExitedWith(-1)))
            && (a != Quit && a != NullCommand && !Refused(a, n, chdirOk, openOk) ==>
                  t.actions[1..] == t'.actions && t.end == t'.end)
  {
    StepReadsLine(line, rest, home);
  }

  /** A session over no input ends at once because the input ran out, and
      one whose first read is too long ends at once with the reader's
      fatal exit. */
  lemma SessionStops(input: string, home: Option<string>,
                     chdirOk: (nat, string) -> bool, openOk: (nat, string) -> bool, n: nat)
    ensures input == [] ==> Session(input, home, chdirOk, openOk, n) == Trace([], InputExhausted)
    ensures ReadLine(input).TooLong? ==> Session(input, home, chdirOk, openOk, n) == Trace([], LineTooLong)
  {
  }

  /** The last line of the input, not ended by a newline: its plan is the
      only action, and when the shell goes on after it the session ends
      because the input ran out. */
  lemma SessionLastLine(line: string, home: Option<string>,
                        chdirOk: (nat, string) -> bool, openOk: (nat, string) -> bool, n: nat)
    requires '\n' !in line && 0 < |line| <= MaxChar + 1
    ensures var a := Plan(line, WordCount(line), home);
            var t := Session(line, home, chdirOk, openOk, n);
            && t.actions == [a]
            && (Outcome(a, n, chdirOk, openOk).Running? ==> t.end == InputExhausted)
  {
    StepReadsLastLine(line, home);
  }

  /** A session ends with status -1 exactly when the chdir or open of its
      last line was refused. */
  lemma {:induction false} SessionFailsOnRefusal(input: string, home: Option<string>,
                                                 chdirOk: (nat, string) -> bool,
                                                 openOk: (nat, string) -> bool, n: nat)
    ensures var t := Session(input, home, chdirOk, openOk, n);
            t.end == ExitedWith(-1) <==> LastRefused(t, n, chdirOk, openOk)
    decreases |input|
  {
    var t := Session(input, home, chdirOk, openOk, n);
    if input == [] {
      assert t.actions == [];
      assert t.end == InputExhausted;
    } else {
      var r := Step(input, home);
      if r.Fatal? {
        assert t == Trace([], LineTooLong);
      } else {
        var a := r.action;
        var st := Outcome(a, n, chdirOk, openOk);
        if st.Running? {
          var t' := Session(r.rest, home, chdirOk, openOk, n + 1);
          assert t == Then(a, t');
          SessionFailsOnRefusal(r.rest, home, chdirOk, openOk, n + 1);
          ThenRefusals(a, t', n, chdirOk, openOk);
        } else if st.Exited? {
          assert t == Trace([a], ExitedWith(st.code));
          assert t.end == ExitedWith(-1) <==> Refused(a, n, chdirOk, openOk);
        } else {
          assert t == Trace([a], UndefinedBehaviour);
          assert !Refused(a, n, chdirOk, openOk);
        }
      }
    }
  }
}

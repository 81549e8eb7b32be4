/** Command classification in usfsh.c: `is_exit`, `is_cd`,
    `is_pipe_redirection`, `is_file_redirection` and the if-chain in `main`
    that tries them in that order. */
module Classifier {

  import opened Wrappers

  const ExitWord := "exit"
  const CdWord := "cd"
  const PipeOp := "|"
  const RedirectOp := ">"

  /** The command forms, with the split position for the two operator forms. */
  datatype Command = Exit | Cd | Pipe(at: nat) | Redirect(at: nat) | Simple

  /** Position of the last token equal to `op`, if any. */
  function LastIndexOf(ts: seq<string>, op: string): (r: Option<nat>)
    ensures r.None? <==> op !in ts
    ensures r.Some? ==> r.value < |ts| && ts[r.value] == op
    ensures r.Some? ==> forall j :: r.value < j < |ts| ==> ts[j] != op
  {
    if |ts| == 0 then None
    else if ts[|ts| - 1] == op then Some(|ts| - 1)
    else
      assert ts == ts[..|ts| - 1] + [ts[|ts| - 1]];
      LastIndexOf(ts[..|ts| - 1], op)
  }

  /** The scan loop shared by `is_pipe_redirection` and
      `is_file_redirection`: every matching token overwrites the position,
      so the last one wins, and the position is left alone when nothing
      matches (`main` keeps it across loop iterations). */
  method ScanOperator(ts: seq<string>, op: string, pos: int) returns (found: bool, posFound: int)
    ensures found <==> op in ts
    ensures found ==> 0 <= posFound < |ts| && ts[posFound] == op
    ensures found ==> forall j :: posFound < j < |ts| ==> ts[j] != op
    ensures !found ==> posFound == pos
    ensures found ==> LastIndexOf(ts, op) == Some(posFound)
  {
    found := false;
    posFound := pos;
    var i := 0;
    while i < |ts|
      invariant 0 <= i <= |ts|
      invariant found <==> op in ts[..i]
      invariant found ==> 0 <= posFound < i && ts[posFound] == op
      invariant found ==> forall j :: posFound < j < i ==> ts[j] != op
      invariant !found ==> posFound == pos
    {
      if ts[i] == op {
        posFound := i;
        found := true;
      }
      assert ts[..i + 1] == ts[..i] + [ts[i]];
      i := i + 1;
    }
    assert ts[..i] == ts;
    if found {
      var k := LastIndexOf(ts, op).value;
      assert k <= posFound;
    }
  }

  /** The classification `main` performs on a non-empty token list: first
      token `exit`, then first token `cd`, then any `|`, then any `>`,
      otherwise a simple command; each operator splits at its last
      occurrence. */
  function Classify(ts: seq<string>): (c: Command)
    requires |ts| > 0
    ensures c == Exit <==> ts[0] == ExitWord
    ensures c == Cd <==> ts[0] == CdWord
    ensures c.Pipe? <==> ts[0] != ExitWord && ts[0] != CdWord && PipeOp in ts
    ensures c.Redirect? <==> ts[0] != ExitWord && ts[0] != CdWord && PipeOp !in ts && RedirectOp in ts
    ensures c == Simple <==> ts[0] !in {ExitWord, CdWord} && PipeOp !in ts && RedirectOp !in ts
    ensures c.Pipe? ==> c.at < |ts| && ts[c.at] == PipeOp && PipeOp !in ts[c.at + 1..]
    ensures c.Redirect? ==> c.at < |ts| && ts[c.at] == RedirectOp && RedirectOp !in ts[c.at + 1..]
  {
    if ts[0] == ExitWord then Exit
    else if ts[0] == CdWord then Cd
    else match LastIndexOf(ts, PipeOp)
      case Some(k) => Pipe(k)
      case None =>
        match LastIndexOf(ts, RedirectOp)
        case Some(k) => Redirect(k)
        case None => Simple
  }

  /** The if-chain of `main`, calling the scans in order and threading
      `pos_found` through them. A later scan runs only when every earlier
      test failed. */
  method IfChain(ts: seq<string>, pos: int) returns (c: Command, posFound: int)
    requires |ts| > 0
    ensures c == Classify(ts)
    ensures c.Pipe? || c.Redirect? ==> posFound == c.at
    ensures c.Exit? || c.Cd? || c.Simple? ==> posFound == pos
  {
    posFound := pos;
    if ts[0] == ExitWord {
      c := Exit;
    } else if ts[0] == CdWord {
      c := Cd;
    } else {
      var isPipe;
      isPipe, posFound := ScanOperator(ts, PipeOp, posFound);
      if isPipe {
        c := Pipe(posFound);
      } else {
        var isRedirect;
        isRedirect, posFound := ScanOperator(ts, RedirectOp, posFound);
        if isRedirect {
          c := Redirect(posFound);
        } else {
          c := Simple;
        }
      }
    }
  }

  /** A line holding both operators is a pipeline whichever comes first,
      and the redirection token then stays inside one of the two stages. */
  lemma PipeBeatsRedirect(ts: seq<string>, i: nat)
    requires |ts| > 0 && ts[0] != ExitWord && ts[0] != CdWord
    requires PipeOp in ts
    requires i < |ts| && ts[i] == RedirectOp
    ensures Classify(ts).Pipe?
    ensures i != Classify(ts).at
  {
  }
}

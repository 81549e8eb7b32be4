/** The tokenizer of the shell (`parse_args` in usfsh.c): `strtok` with the
    single delimiter ' ', as a pure function of the stored line. */
module Tokenizer {

  import opened Wrappers

  /** What `strtok` can return: a non-empty run of non-space characters. */
  predicate IsToken(t: string)
  {
    |t| > 0 && ' ' !in t
  }

  /** Length of the leading run of non-space characters of `s`. */
  function WordEnd(s: string): (n: nat)
    ensures n <= |s|
    ensures forall j :: 0 <= j < n ==> s[j] != ' '
    ensures n < |s| ==> s[n] == ' '
  {
    if |s| == 0 || s[0] == ' ' then 0 else 1 + WordEnd(s[1..])
  }

  /** The tokens `strtok` returns for `line`, in order: runs of spaces
      separate tokens and never yield an empty one. */
  function Tokens(line: string): (ts: seq<string>)
    ensures forall i :: 0 <= i < |ts| ==> IsToken(ts[i])
    ensures ts == [] <==> forall j :: 0 <= j < |line| ==> line[j] == ' '
    decreases |line|
  {
    if |line| == 0 then []
    else if line[0] == ' ' then Tokens(line[1..])
    else
      var n := WordEnd(line);
      [line[..n]] + Tokens(line[n..])
  }

  /** Tokens joined with one space between neighbours. */
  function Join(ts: seq<string>): string
  {
    if |ts| == 0 then ""
    else if |ts| == 1 then ts[0]
    else ts[0] + " " + Join(ts[1..])
  }

  /** Character-by-character normalisation of a line: drop leading and
      trailing spaces and squeeze every inner run of spaces to one.
      `started` records that a non-space character was emitted, `pending`
      that a space was seen since the last one. */
  function Squeeze(s: string, started: bool, pending: bool): string
    decreases |s|
  {
    if |s| == 0 then ""
    else if s[0] == ' ' then Squeeze(s[1..], started, started)
    else (if pending then " " else "") + [s[0]] + Squeeze(s[1..], true, false)
  }

  function Collapse(line: string): string
  {
    Squeeze(line, false, false)
  }

  /** The slots `parse_args` writes, from index 0: the tokens, then the
      null sentinel. When the first `strtok` call already finds no token,
      both of its writes are skipped and nothing at all is written, so
      `args[0]` keeps whatever the stack held. */
  function ParseArgs(line: string): (argv: seq<Option<string>>)
    ensures argv == [] <==> Tokens(line) == []
    ensures argv != [] ==> |argv| == |Tokens(line)| + 1 && argv[|argv| - 1] == None
    ensures forall i :: 0 <= i < |argv| - 1 ==> argv[i].Some? && IsToken(argv[i].value)
    ensures forall i :: 0 <= i < |argv| - 1 ==> argv[i] == Some(Tokens(line)[i])
  {
    var ts := Tokens(line);
    if ts == [] then [] else WithSentinel(ts)
  }

  /** The tokens as non-null pointers, then the null sentinel. */
  function WithSentinel(ts: seq<string>): (argv: seq<Option<string>>)
    ensures |argv| == |ts| + 1
    ensures argv[|ts|] == None
    ensures forall i :: 0 <= i < |ts| ==> argv[i] == Some(ts[i])
  {
    if |ts| == 0 then [None] else [Some(ts[0])] + WithSentinel(ts[1..])
  }

  // ---------------------------------------------------------------------
  // Tokenizing and joining

  /** A spaceless prefix followed by a space (or nothing) is the first word. */
  lemma {:induction false} WordEndOfPrefix(w: string, t: string)
    requires ' ' !in w
    requires t == [] || t[0] == ' '
    ensures WordEnd(w + t) == |w|
  {
    if |w| > 0 {
      assert (w + t)[1..] == w[1..] + t;
      WordEndOfPrefix(w[1..], t);
    }
  }

  /** Tokenizing a line made by joining tokens gives those tokens back. */
  lemma {:induction false} TokensOfJoin(ts: seq<string>)
    requires forall i :: 0 <= i < |ts| ==> IsToken(ts[i])
    ensures Tokens(Join(ts)) == ts
  {
    if |ts| == 1 {
      WordEndOfPrefix(ts[0], "");
      assert ts[0][..|ts[0]|] == ts[0];
    } else if |ts| > 1 {
      TokensOfWordSpace(ts[0], Join(ts[1..]));
      TokensOfJoin(ts[1..]);
      assert ts == [ts[0]] + ts[1..];
    }
  }

  /** A token, a space and a rest: the token comes first, then the tokens of
      the rest. */
  lemma TokensOfWordSpace(w: string, j: string)
    requires IsToken(w)
    ensures Tokens(w + " " + j) == [w] + Tokens(j)
  {
    var s := w + " " + j;
    WordEndOfPrefix(w, " " + j);
    assert s == w + (" " + j);
    assert s[..|w|] == w;
    assert s[|w|..] == " " + j;
    assert (" " + j)[1..] == j;
  }

  /** A spaceless non-empty word passes through Squeeze unchanged, with the
      pending separator (if any) emitted before it. */
  lemma {:induction false} SqueezeWord(w: string, t: string, started: bool, pending: bool)
    requires IsToken(w)
    ensures Squeeze(w + t, started, pending)
         == (if pending then " " else "") + w + Squeeze(t, true, false)
    decreases |w|
  {
    var s := w + t;
    var sep := if pending then " " else "";
    assert Squeeze(s, started, pending) == sep + [w[0]] + Squeeze(w[1..] + t, true, false) by {
      assert s[0] == w[0] && s[1..] == w[1..] + t;
    }
    if |w| > 1 {
      SqueezeWord(w[1..], t, true, false);
      ConcatFirst(sep, w, Squeeze(t, true, false));
    } else {
      assert w[1..] + t == t && [w[0]] == w;
    }
  }

  lemma ConcatFirst(sep: string, w: string, y: string)
    requires |w| > 0
    ensures sep + [w[0]] + (w[1..] + y) == sep + w + y
  {
  }

  /** Squeeze in the "nothing owed" or "separator owed" state emits exactly
      the joined tokens, preceded by the owed separator when there are any. */
  lemma {:induction false} SqueezeIsJoin(s: string, b: bool)
    ensures Squeeze(s, b, b) == if Tokens(s) == [] then "" else (if b then " " else "") + Join(Tokens(s))
    decreases |s|, 1
  {
    if |s| == 0 {
    } else if s[0] == ' ' {
      assert Squeeze(s, b, b) == Squeeze(s[1..], b, b);
      assert Tokens(s) == Tokens(s[1..]);
      SqueezeIsJoin(s[1..], b);
    } else {
      SqueezeIsJoinAtWord(s, b);
    }
  }

  /** The case of SqueezeIsJoin where the line starts with a word. */
  lemma {:induction false} SqueezeIsJoinAtWord(s: string, b: bool)
    requires |s| > 0 && s[0] != ' '
    ensures Squeeze(s, b, b) == (if b then " " else "") + Join(Tokens(s))
    decreases |s|, 0
  {
    if WordEnd(s) == |s| {
      WordAtEnd(s, b);
    } else {
      var n := WordEnd(s);
      var u := s[n + 1..];
      WordThenSpace(s, b);
      SqueezeIsJoin(u, true);
      JoinAfterWord(Squeeze(s, b, b), if b then " " else "", s[..n], Tokens(u), Squeeze(u, true, true));
    }
  }

  /** The string algebra closing SqueezeIsJoinAtWord. */
  lemma JoinAfterWord(x: string, sep: string, w: string, ts: seq<string>, y: string)
    requires x == sep + w + y
    requires y == if ts == [] then "" else " " + Join(ts)
    ensures x == sep + Join([w] + ts)
  {
  }

  /** A line that is one word: one token, and Squeeze emits the word. */
  lemma WordAtEnd(s: string, b: bool)
    requires |s| > 0 && s[0] != ' ' && WordEnd(s) == |s|
    ensures Tokens(s) == [s]
    ensures Squeeze(s, b, b) == (if b then " " else "") + Join(Tokens(s))
  {
    assert s[..|s|] == s;
    assert s == s + "";
    SqueezeWord(s, "", b, b);
  }

  /** A line that is a word, a space and a rest: the word is the first
      token, and Squeeze emits it and then owes a separator. */
  lemma WordThenSpace(s: string, b: bool)
    requires |s| > 0 && s[0] != ' ' && WordEnd(s) < |s|
    ensures var n := WordEnd(s);
            && Tokens(s) == [s[..n]] + Tokens(s[n + 1..])
            && Squeeze(s, b, b) == (if b then " " else "") + s[..n] + Squeeze(s[n + 1..], true, true)
  {
    var n := WordEnd(s);
    var w, t := s[..n], s[n..];
    assert s == w + t;
    assert t[0] == ' ' && t[1..] == s[n + 1..];
    assert Tokens(t) == Tokens(s[n + 1..]);
    SqueezeWord(w, t, b, b);
  }

  /** Joining the tokens with single spaces gives the line with its leading
      and trailing spaces dropped and its inner runs of spaces collapsed. */
  lemma JoinOfTokens(line: string)
    ensures Join(Tokens(line)) == Collapse(line)
  {
    SqueezeIsJoin(line, false);
  }

  /** Collapsing a line does not change how it tokenizes, and collapsing
      twice is the same as collapsing once. */
  lemma CollapseKeepsTokens(line: string)
    ensures Tokens(Collapse(line)) == Tokens(line)
    ensures Collapse(Collapse(line)) == Collapse(line)
  {
    JoinOfTokens(line);
    TokensOfJoin(Tokens(line));
    JoinOfTokens(Collapse(line));
  }
}

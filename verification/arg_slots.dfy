/** How the reader's word count relates to the tokenizer's output. `main` in
    usfsh.c sizes the argument array by the word count, and `parse_args`
    writes one slot per token plus the null sentinel. */
module ArgSlots {

  import opened LineReader
  import opened Tokenizer

  /** No leading space, no trailing space, no two spaces in a row. */
  predicate WellSpaced(s: string)
  {
    |s| == 0 ||
    (s[0] != ' ' && s[|s| - 1] != ' ' &&
     forall i :: 0 <= i < |s| - 1 ==> !(s[i] == ' ' && s[i + 1] == ' '))
  }

  lemma CountSpacesAppend(a: string, b: string)
    ensures CountSpaces(a + b) == CountSpaces(a) + CountSpaces(b)
  {
  }

  /** A line that starts with a space is not well spaced, and a word followed
      by a space and a rest is well spaced exactly when the rest is
      non-empty and well spaced. */
  lemma WellSpacedAfterWord(w: string, u: string)
    requires IsToken(w)
    ensures WellSpaced(w + " " + u) <==> (u != [] && WellSpaced(u))
  {
    var s := w + " " + u;
    assert s[|w|] == ' ';
    if u != [] && WellSpaced(u) {
      forall i | 0 <= i < |s| - 1
        ensures !(s[i] == ' ' && s[i + 1] == ' ')
      {
        if i < |w| {
          assert s[i] == w[i];
        } else if i > |w| {
          assert s[i] == u[i - |w| - 1] && s[i + 1] == u[i - |w|];
        }
      }
    }
    if WellSpaced(s) && u != [] {
      assert u[0] == s[|w| + 1];
      assert u[|u| - 1] == s[|s| - 1];
      forall i | 0 <= i < |u| - 1
        ensures !(u[i] == ' ' && u[i + 1] == ' ')
      {
        assert u[i] == s[|w| + 1 + i] && u[i + 1] == s[|w| + 2 + i];
      }
    }
  }

  /** The word count is never below the number of tokens, and it equals
      it exactly when the line is well spaced. */
  lemma {:induction false} TokensVersusWords(s: string)
    ensures |Tokens(s)| <= WordCount(s)
    ensures |Tokens(s)| == WordCount(s) <==> WellSpaced(s)
    decreases |s|
  {
    if |s| == 0 {
    } else if s[0] == ' ' {
      assert s == [' '] + s[1..];
      CountSpacesAppend([' '], s[1..]);
      TokensVersusWords(s[1..]);
    } else {
      var n := WordEnd(s);
      var w := s[..n];
      assert ' ' !in w;
      assert CountSpaces(w) == 0;
      if n == |s| {
        assert s == w;
        assert WellSpaced(s);
      } else {
        var u := s[n + 1..];
        assert s == w + " " + u;
        CountSpacesAppend(w, " " + u);
        CountSpacesAppend(" ", u);
        assert s[n..][1..] == u;
        assert Tokens(s) == [w] + Tokens(u);
        WellSpacedAfterWord(w, u);
        TokensVersusWords(u);
      }
    }
  }

  /** Only an empty line has word count 0; for any other line `main`
      declares one slot per word, and the sentinel that `parse_args` writes
      at index |tokens| lands outside those slots exactly when the line is
      well spaced. */
  lemma SentinelOutsideArgs(line: string)
    ensures WordCount(line) == 0 <==> line == []
    ensures line != [] ==> (|Tokens(line)| >= WordCount(line) <==> WellSpaced(line))
  {
    TokensVersusWords(line);
  }

  // -----------------------------------------------------------------------
  // Capacity of the argument array

  /** An argument array one slot longer than the word count always holds
      the tokens and the sentinel. */
  lemma ArgvFits(line: string)
    ensures |ParseArgs(line)| <= WordCount(line) + 1
  {
    TokensVersusWords(line);
  }

  /** For the line "ls" the reader counts one word, `main` declares one
      slot, and `parse_args` writes its sentinel at index 1. */
  lemma ArgsOverrunExample()
    ensures WordCount("ls") == 1
    ensures |ParseArgs("ls")| - 1 == WordCount("ls")
  {
  }
}

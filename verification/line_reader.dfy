/** The line reader of the shell (`read_user_input` in usfsh.c), as a pure
    function of the characters still waiting on standard input. */
module LineReader {

  /** MAX_CHAR in usfsh.c. */
  const MaxChar: nat := 255

  /** Outcome of reading one line: either the fatal "max characters reached"
      exit, or the stored line, the word count the reader returns, and the
      input left unread. */
  datatype ReadResult =
    | TooLong
    | Line(text: string, words: nat, rest: string)

  /** Number of space characters in `s`. */
  function CountSpaces(s: string): nat
  {
    multiset(s)[' ']
  }

  /** The count `read_user_input` returns for a stored line: one per space,
      plus one more when anything was stored. */
  function WordCount(line: string): nat
  {
    CountSpaces(line) + if |line| == 0 then 0 else 1
  }

  /** Index of the first newline in `s`, or |s| when there is none. */
  function NewlineAt(s: string): (k: nat)
    ensures k <= |s|
    ensures forall j :: 0 <= j < k ==> s[j] != '\n'
    ensures k < |s| ==> s[k] == '\n'
  {
    if |s| == 0 then 0
    else if s[0] == '\n' then 0
    else 1 + NewlineAt(s[1..])
  }

  /** Reference definition of one call of the reader: the line is everything
      before the first newline; the call is fatal when it would read a
      character at position MaxChar + 1 or later. */
  function ReadLine(input: string): (r: ReadResult)
    ensures r.TooLong? <==> |input| > MaxChar + 1 && '\n' !in input[..MaxChar + 1]
    ensures r.Line? ==> '\n' !in r.text && |r.text| <= MaxChar + 1 && |r.text| <= |input|
    ensures r.Line? && |r.text| < |input| ==> input == r.text + "\n" + r.rest
    ensures r.Line? && |r.text| == |input| ==> input == r.text && r.rest == []
    ensures r.Line? ==> (r.words == 0 <==> r.text == [])
  {
    var k := NewlineAt(input);
    FatalBound(input);
    if (k < |input| && k > MaxChar) || (k == |input| && k > MaxChar + 1) then
      TooLong
    else if k < |input| then
      var text, rest := input[..k], input[k + 1..];
      assert input == text + "\n" + rest;
      Line(text, WordCount(text), rest)
    else
      Line(input, WordCount(input), [])
  }

  /** The two ways of describing the fatal case agree: the reader reaches
      position MaxChar + 1 exactly when the first MaxChar + 1 characters hold no
      newline and there is a further character to read. */
  lemma FatalBound(input: string)
    ensures var k := NewlineAt(input);
            ((k < |input| && k > MaxChar) || (k == |input| && k > MaxChar + 1))
            <==> (|input| > MaxChar + 1 && '\n' !in input[..MaxChar + 1])
  {
  }

  /** A newline at position i with none before it is the first newline. */
  lemma NewlineAtIs(input: string, i: nat)
    requires i <= |input|
    requires '\n' !in input[..i]
    requires i < |input| ==> input[i] == '\n'
    ensures NewlineAt(input) == i
  {
  }

  /** The character loop of `read_user_input`, one `read` at a time: the bound
      is checked before the character is looked at, spaces are counted as they
      arrive, and the newline ends the line without being stored. */
  method ReadUserInput(input: string) returns (r: ReadResult)
    ensures r == ReadLine(input)
    ensures r.Line? ==> r.words == CountSpaces(r.text) + (if r.text == [] then 0 else 1)
  {
    var i := 0;          // characters stored in the line buffer
    var pos := 0;        // characters consumed from the input
    var numWords := 0;
    var stored: string := [];
    var sawNewline := false;
    while pos < |input| && !sawNewline
      invariant 0 <= i <= pos <= |input|
      invariant i <= MaxChar + 1
      invariant stored == input[..i]
      invariant '\n' !in stored
      invariant !sawNewline ==> pos == i
      invariant sawNewline ==> pos == i + 1 && input[i] == '\n' && i <= MaxChar
      invariant numWords == CountSpaces(stored)
    {
      var c := input[pos];
      pos := pos + 1;
      if i > MaxChar {
        assert input[..MaxChar + 1] == stored;
        FatalBound(input);
        return TooLong;
      }
      if c == ' ' {
        numWords := numWords + 1;
      }
      if c == '\n' {
        sawNewline := true;
      } else {
        assert input[..i + 1] == stored + [c];
        stored := stored + [c];
        i := i + 1;
      }
    }
    if i != 0 {
      numWords := numWords + 1;
    }
    ReadLineAt(input, i);
    r := Line(stored, numWords, input[pos..]);
  }

  /** A line of at most MaxChar + 1 characters ended by the input, or of at
      most MaxChar characters ended by a newline, is what ReadLine returns. */
  lemma ReadLineAt(input: string, i: nat)
    requires i <= |input| && '\n' !in input[..i]
    requires i < |input| ==> input[i] == '\n' && i <= MaxChar
    requires i == |input| ==> i <= MaxChar + 1
    ensures ReadLine(input) == Line(input[..i], WordCount(input[..i]),
                                    if i < |input| then input[i + 1..] else [])
  {
    NewlineAtIs(input, i);
    if i == |input| {
      assert input[..i] == input;
    }
  }

  /** MaxChar characters followed by a newline form the longest line that
      ends in a newline and is accepted; the newline is not stored. */
  lemma LongestLineAccepted(line: string, rest: string)
    requires |line| == MaxChar && '\n' !in line
    ensures ReadLine(line + "\n" + rest) == Line(line, WordCount(line), rest)
  {
    var input := line + "\n" + rest;
    assert input[..MaxChar] == line;
    NewlineAtIs(input, MaxChar);
    assert input[MaxChar + 1..] == rest;
  }

  /** Once MaxChar + 1 characters are stored, reading any further character,
      newline or not, is fatal. */
  lemma OverlongLineFatal(line: string, c: char, rest: string)
    requires |line| == MaxChar + 1 && '\n' !in line
    ensures ReadLine(line + [c] + rest).TooLong?
  {
  }

  /** Input that ends after MaxChar + 1 characters without a newline is
      still accepted: the bound is only checked when another character
      arrives. */
  lemma UnterminatedLongestLineAccepted(line: string)
    requires |line| == MaxChar + 1 && '\n' !in line
    ensures ReadLine(line) == Line(line, WordCount(line), [])
  {
  }

  // -----------------------------------------------------------------------
  // Capacity of the line buffer

  /** `main` declares the line buffer with MaxChar slots. */
  const DeclaredLineSlots: nat := MaxChar

  /** Slots one call of the reader writes, counted from index 0: each stored
      character, plus the terminator written in place of a newline. A fatal
      call has stored MaxChar + 1 characters before it stops. */
  function SlotsWritten(input: string): nat
  {
    match ReadLine(input)
    case TooLong => MaxChar + 1
    case Line(text, _, _) => |text| + if |text| < |input| then 1 else 0
  }

  /** The reader never writes beyond index MaxChar, so MaxChar + 1 slots
      always suffice. */
  lemma LineBufferFits(input: string)
    ensures SlotsWritten(input) <= MaxChar + 1
  {
  }

  /** The longest accepted line ending in a newline makes the reader write
      its terminator at index MaxChar, one past the declared buffer. */
  lemma LineBufferOverrun()
    ensures var input := seq(MaxChar, _ => 'a') + "\n";
            SlotsWritten(input) == DeclaredLineSlots + 1
  {
  }
}

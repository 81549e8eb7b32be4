# usfsh / usfls front end in Dafny

A Dafny model of the pure front half of the `usfsh` teaching shell, plus the
entry filter of its companion `usfls` directory lister.

For the shell, the model covers:

- the line reader (`read_user_input`), as a function of the characters still
  waiting on standard input;
- the tokenizer (`parse_args`, which uses `strtok` with the delimiter `" "`);
- the command tests `is_exit`, `is_cd`, `is_pipe_redirection` and
  `is_file_redirection`, and the if-chain in `main` that tries them in order;
- the argument-vector and file-name split done by `execute_redirect` and
  `execute_piping`, and the directory choice in `execute_cd`;
- the loop of `main`, as a trace of the actions it asks the operating system
  to perform.

For the lister, the model covers the `-a` flag, the hidden-name test, and the
order-preserving filter over the names the directory scan yields.

Modules (one file each):

- `Wrappers` (`wrappers.dfy`): `Option`, used for every pointer that may be
  null.
- `LineReader` (`line_reader.dfy`): `ReadLine` is the reference definition.
  `ReadUserInput` is the C character loop, proved equal to it. Also holds the
  length-bound lemmas and the line-buffer capacity facts.
- `Tokenizer` (`tokenizer.dfy`): `Tokens`, `Join`, the character-level
  normalisation `Collapse`, and the argument array with its null sentinel
  (`ParseArgs`).
- `ArgSlots` (`arg_slots.dfy`): how the reader's word count relates to the
  number of tokens, and the capacity of the argument array.
- `Classifier` (`classifier.dfy`): the `Command` datatype
  `Exit | Cd | Pipe(at) | Redirect(at) | Simple`, the operator scan, and the
  classification.
- `Dispatch` (`dispatch.dfy`): the action a line leads to (`Plan`), one pass
  of the loop (`Step`), and a whole session (`Session`).
- `Lister` (`lister.dfy`): `usfls.c`.

Operating-system effects are inputs to the model:

- what `read` delivers is the input string, one `char` per byte read;
- `getenv("HOME")` is an `Option<string>`;
- whether `chdir` and `open` succeed is decided by caller-supplied functions
  of the line number and the path; a null path (an unset HOME, `cd ` with a
  trailing space, or `>` as the last token) is always refused, since both
  calls fail on it;
- whether `opendir` succeeds is a boolean;
- what `readdir` yields is a sequence of names.

Three behaviours of the code are easy to misread, and the model keeps them
as written:

- An operator splits at its **last** occurrence, not its first:
  `is_pipe_redirection` and `is_file_redirection` overwrite `pos_found` on
  every match. For `a | b | c`, the first stage runs `a` with the arguments
  `a | b`, and the second stage runs `c`.
- `cd` chooses HOME by the reader's word count, not by the token count. So
  `cd ` (with a trailing space) and ` cd` pass the null sentinel to `chdir`
  (`CdTargetCases`). Among non-empty lines, this is the only place where
  extra spaces change the action (`SpacingMattersOnlyForCd`). The empty line
  dispatches nothing, while a line of spaces is the all-space case.
- At end of input, the reader returns a count of 0 on every call, and the
  loop re-prompts forever. The model ends the session there with
  `InputExhausted`.

## Model

| member | source | states |
|---|---|---|
| LineReader.NewlineAt | usfsh.c:300-313 | the position where the reader's loop stops: no newline before it, and a newline at it unless the input ran out |
| LineReader.ReadLine | usfsh.c:292-323 | a read is fatal exactly when more than MaxChar + 1 characters arrive with no newline among the first MaxChar + 1; otherwise the stored line holds no newline and at most MaxChar + 1 characters; the input is the line, the newline (if any) and the unread rest; the word count is 0 exactly for an empty line |
| LineReader.ReadUserInput | usfsh.c:292-323 | the character-at-a-time loop (bound checked before the character is examined, spaces counted as read, newline replaced by the terminator) computes exactly ReadLine, and its count is the spaces in the stored line plus one if anything was stored |
| LineReader.FatalBound | usfsh.c:300-305 | the loop reaches its fatal check with i > MaxChar exactly when the first MaxChar + 1 characters hold no newline and another character follows |
| LineReader.LongestLineAccepted | usfsh.c:300-316 | a 255-character line followed by a newline is accepted; the newline is not stored, and the rest of the input is left unread |
| LineReader.OverlongLineFatal | usfsh.c:300-305 | after 256 stored characters, any further character, newline or not, is fatal |
| LineReader.UnterminatedLongestLineAccepted | usfsh.c:300-322 | 256 characters and then end of input are accepted, because the bound is only checked when another character arrives |
| LineReader.LineBufferFits | usfsh.c:300-316 | one call never writes the line buffer past index MaxChar, so MaxChar + 1 slots suffice |
| LineReader.LineBufferOverrun | usfsh.c:329 | a 255-character line and a newline make the reader write its terminator one slot past the MaxChar-slot buffer declared in `main` |
| Tokenizer.WordEnd | usfsh.c:268-280 | the length of the token `strtok` cuts at the front of the line: no space inside it, and a space or the end right after it |
| Tokenizer.Tokens | usfsh.c:265-281 | every token is non-empty and has no space in it; there are no tokens exactly when the line is all spaces |
| Tokenizer.ParseArgs | usfsh.c:265-281 | when the line has a token, the slots written hold the tokens in order, each non-empty and spaceless, followed by exactly one null sentinel at the index equal to the token count; when it has none, the first `strtok` call returns null and nothing is written |
| Tokenizer.TokensOfJoin | usfsh.c:265-281 | tokenizing the single-space join of a list of tokens gives that list back |
| Tokenizer.JoinOfTokens | usfsh.c:265-281 | joining the tokens with single spaces gives the line with leading and trailing spaces dropped and inner runs of spaces squeezed to one |
| Tokenizer.CollapseKeepsTokens | usfsh.c:265-281 | collapsing spaces does not change the tokens, and collapsing is idempotent |
| ArgSlots.TokensVersusWords | usfsh.c:306-320 | the reader's word count is never below the token count, and equals it exactly when the line has no leading, trailing or doubled space |
| ArgSlots.SentinelOutsideArgs | usfsh.c:335-340 | the count is 0 only for the empty line; for any other line, the sentinel written at the index equal to the token count lies outside the num_args slots of `args` exactly when the line is well spaced |
| ArgSlots.ArgvFits | usfsh.c:338-340 | an argument array of num_args + 1 slots always holds the tokens and the sentinel |
| ArgSlots.ArgsOverrunExample | usfsh.c:279 | for the line `ls`, num_args is 1 and the sentinel is written at index 1 |
| Classifier.LastIndexOf | usfsh.c:78-83 | the position of the last token equal to the operator, if any: it holds the operator and no later token does, and there is none exactly when no token is the operator |
| Classifier.ScanOperator | usfsh.c:73-106 | the scan returns true iff some token equals the operator; then the position is that of the last such token, and otherwise the position passed in is returned unchanged |
| Classifier.Classify | usfsh.c:40-106 | Exit iff the first token is `exit`; Cd iff it is `cd`; otherwise Pipe iff some token is the pipe token, then Redirect iff some token is `>`, else Simple; the split index holds the operator and no later token does |
| Classifier.IfChain | usfsh.c:342-356 | calling the tests in `main`'s order, with `pos_found` threaded through, yields Classify; `pos_found` is the split index for the operator forms and unchanged otherwise |
| Classifier.PipeBeatsRedirect | usfsh.c:348-353 | when a line has both the pipe token and `>`, it is a pipeline whichever comes first, and the `>` is not the split point |
| Dispatch.RedirectSplit | usfsh.c:144-162 | the child runs the first token with the tokens before `>` as arguments; the output file is the token right after `>` (null when `>` is last), and later tokens are dropped |
| Dispatch.PipeSplit | usfsh.c:189-219 | the first stage's arguments are the tokens before the split position and the second stage's are those after it, so the tokens are the first stage's arguments, the pipe token and the second stage's arguments; the first stage runs the first token, and the second runs the first token after the pipe token (null if there is none) |
| Dispatch.CdTargetCases | usfsh.c:118-123 | a bare `cd` goes to HOME; `cd` with a second token goes there; `cd` with only extra spaces passes the null sentinel |
| Dispatch.SpacingMattersOnlyForCd | usfsh.c:118-123 | two non-empty lines with the same tokens lead to the same action, unless both are directory changes, where the word count picks the target |
| Dispatch.Plan | usfsh.c:335-356 | an empty line dispatches nothing; an all-space line reaches the tests with an uninitialised `args[0]`; otherwise the action is Quit, ChangeDir, RunPipe, RunRedirect or RunSimple exactly under the classification's conditions; `cd` goes to HOME when the reader counted one word, else to the second token, or to the null sentinel when there is none; a pipeline's stages run the first token and the first token after its last pipe token, and the second stage holds no pipe token; a redirection runs the first token with the tokens before its last `>`, writes to the token right after it (null when `>` is last), and ignores everything after that file |
| Dispatch.Step | usfsh.c:331-358 | one pass of the loop is fatal exactly when the read is; otherwise it consumes input, except on empty input, where it reads an empty line and dispatches nothing |
| Dispatch.StepReadsLine | usfsh.c:331-356 | a line of at most 255 characters ended by a newline is planned as it stands, with its word count, and the input after the newline is left for the next pass |
| Dispatch.StepReadsLastLine | usfsh.c:331-356 | a last line of at most 256 characters, not ended by a newline, is planned as it stands and leaves nothing unread |
| Dispatch.After | usfsh.c:125-128 | the shell exits with 0 exactly on `exit`, and with a non-zero status exactly when chdir fails for `cd` or open fails for a redirection |
| Dispatch.Outcome | usfsh.c:118-154 | with the environment's answers for line n, the shell exits with 0 exactly on `exit` and with -1 exactly when the chdir or open of the line is refused, a null path always being refused; the all-space line is undefined behaviour |
| Dispatch.Session | usfsh.c:331-362 | no action follows `exit`, the all-space line or a refused chdir or open; the session ends with status 0 exactly when its last action is `exit`, and in undefined behaviour exactly when its last action is the all-space line; it has no action exactly when the input is empty or the first read is fatal, and then ends by exhausted input or the reader's fatal exit; every exit status is 0 or -1 |
| Dispatch.SessionFirstLine | usfsh.c:331-358 | the plan of the first line is the first action; `exit` ends the session with status 0, a refused chdir or open ends it with -1, and after any other action (except the all-space line) the session goes on with the rest of the input as the next line, the dispatched program having read none of it |
| Dispatch.SessionFailsOnRefusal | usfsh.c:118-154 | a session ends with `ExitedWith(-1)` exactly when the chdir or open of its last line was refused; the reader's own exit(-1) is the separate end `LineTooLong` |
| Dispatch.SessionStops | usfsh.c:300-322 | with no input left, the session ends at once by exhausted input; when the first read is too long, it ends at once with the reader's fatal exit |
| Dispatch.SessionLastLine | usfsh.c:300-356 | a last line of 1 to 256 characters with no newline is planned as it stands and is the only action; when the shell goes on after it, the session ends because the input ran out |
| Lister.ListAll | usfls.c:19-23 | the "show all" flag is on exactly when the only argument is `-a` |
| Lister.Shown | usfls.c:31-41 | the printed names are scan entries, there are no more of them than entries, and without the flag none is hidden |
| Lister.ShownCounts | usfls.c:31-41 | each name is printed as often as the scan yields it if it is shown, and never if it is hidden (first character `.` without `-a`) |
| Lister.ShownAppend | usfls.c:31-41 | listing a scan split in two gives the two listings one after the other: scan order is kept, and nothing is sorted |
| Lister.ShownAll | usfls.c:33-34 | with `-a` every scanned name is printed, in scan order |
| Lister.Run | usfls.c:19-41 | a directory that cannot be opened prints no names; otherwise `-a` alone prints every entry in scan order, and any other argument list prints only non-hidden names; each name is printed as often as the scan yields it when it is shown, and never when it is hidden |
| Lister.ExitCode | usfls.c:25-29 | the status is 0 exactly when the directory was opened, and -1 when it could not be |

## Left out

- Process plumbing: the `fork`, `execvp`, `pipe`, `dup`, `close` and `wait` sequences in `execute_cmd`, `execute_redirect` and `execute_piping`. This is operating-system work with concurrent children. The model records only the program, argument vector and file name each call receives.
- Failure of `fork` in `execute_cmd` (fatal to the shell), and the exit statuses of failing children (`-1` for the simple and redirected child, `0` for the pipeline children). These happen inside the operating system or inside a child.
- The prompt `"$ "` and all diagnostic messages.
- `strtok`'s hidden static state. Tokenizing is a pure function of the line.
- `reset_commandLine`. It only refills the buffer with spaces, and its loop writes index MAX_CHAR of a MAX_CHAR-slot buffer.
- NUL characters inside a line. In C they end the string that `strtok` sees; the model tokenizes the whole stored line.
- A final line that ends at end of input without a newline. C leaves it unterminated in the buffer. The model treats it as a complete line.
- The C memory faults themselves: `strcmp` on the uninitialised `args[0]` for an all-space line, and the undersized `args`, `file_args`, `pipe_args` and `commandline` arrays. The model uses sequences. The all-space line is the `NullCommand` action, whose outcome is `Undefined`. The array capacities are stated as lemmas.
- The copy loops at usfsh.c:145-149 and usfsh.c:190-194. They write k + 1 pointers and then the sentinel into a k-slot array. The model gives the argument vector as the sequence of the k tokens before the operator.
- Dispatch.Session: dispatched programs are taken to read nothing from the standard input they inherit from the shell. In C a child such as `cat` can consume lines the shell has not read yet, and the next read then starts after them; the model hands the whole unread rest to the next read. What a child reads depends on the program run, which is outside the shell.
- Dispatch.Session: the chdir and open answers are caller-supplied functions of the line number and path. They do not model the working directory that a successful `cd` changes.
- LineReader.ReadLine: one `char` of the input stands for one byte. A multi-byte character must be given as its bytes, one `char` each, for the bound of 256 to count bytes as the C code does.
- Session at end of input: the C loop re-prompts forever; the model stops with `InputExhausted`.
- The `-a` test in `usfls.c` compares `argv[1]` only when `argc == 2`. The model takes the argument list after the program name.

## Findings

| source | as written | input that shows it | evidently intended | confidence | as-written member | corrected member |
|---|---|---|---|---|---|---|
| usfsh.c:338-340 | `char* args[num_args]` has one slot per counted word, and `parse_args` writes the null sentinel at the index equal to the token count | `ls`: one word, one slot, sentinel written at index 1 | room for the tokens and the sentinel, num_args + 1 slots | high, not executed | ArgSlots.ArgsOverrunExample | ArgSlots.ArgvFits |
| usfsh.c:329 | `char commandline[MAX_CHAR]` has 255 slots, but the reader stores the terminator at index i, which can be 255 | 255 characters then a newline: terminator written at index 255 | a buffer of MAX_CHAR + 1 slots | high, not executed | LineReader.LineBufferOverrun | LineReader.LineBufferFits |

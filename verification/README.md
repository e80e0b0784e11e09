# parser.c in Dafny

A model of the script interpreter in `parser.c` of a small C graphics engine. It covers two
pieces:

- `parse_args`, the tokenizer. It cuts a line with `strsep` at every delimiter character,
  drops the empty pieces and stores the others, in order, in a 256-slot array that
  `calloc` filled with NULL.
- the command loop of `parse_file`. It reads a script line by line. Each line loses its
  last character and is compared with the keywords `line`, `ident`, `scale`, `move`,
  `rotate`, `apply`, `display`, `save` and `quit`. Five of them read one more line as
  their parameter line. The loop updates a transform matrix and an edge matrix, hands the
  edges to the screen, and stops at end of input or at `quit`.

Matrices, numbers and the screen stay abstract. `Geometry.Primitives` is a record of
function values standing for `atof`, the matrix constructors, `matrix_mult` and
`add_edge`. Every property below holds for every choice of these functions.

Files:

- `tokenizer.dfy` (module `Tokenizer`): `StrSep`, `Tokens`, `ParseArgs` and the loop
  `ParseArgsLoop`. `Squeeze` is a character-level reference: it trims delimiters at both
  ends and turns every inner run of delimiters into one separator. `Join` joins tokens.
- `geometry.dfy` (module `Geometry`): the abstract primitives, the render log and the
  interpreter state `(transform, edges, renders, halted)`.
- `interpreter.dfy` (module `Interpreter`): one round of the loop (`Step`) and the loop
  (`Run`). Their input is the sequence of strings the `fgets` calls return.
- `commands.dfy` (module `Commands`): a second description of the same behaviour,
  sharing `Strip`, `FetchArgument` and `ParseArgs`, that separates parsing from execution.
  A parser (`ParseCommand`, `Parse`) turns lines into tagged commands. An
  executor (`Exec`, `ExecAll`) runs them.
- `properties.dfy` (module `Properties`): the loop equals parse-then-execute, the effect
  of each keyword, end-of-input behaviour, and transform composition.
- `scenarios.dfy` (module `Scenarios`): whole scripts with their outcome worked out.

Paths on which the C code has no defined behaviour end in `Interpreter.Faulted`:

- `EmptyRead`: `line[strlen(line)-1]` on a read whose C string is empty (parser.c:101).
- `MissingArgument`: `atof` of a NULL slot, when a parameter line has too few tokens
  (parser.c:113, 134, 152, 169).
- `BadAxis`: the rotate matrix is used uninitialised after `BAD AXIS` (parser.c:181-185).

Where the code and its header comment disagree, the model follows the code:

- The rotate angle reaches `make_rotX/Y/Z` as `atof` returned it. This file converts no
  degrees to radians (parser.c:169-180).
- `scale` takes all three factors from the first token (parser.c:134).
- `display` clears the screen and draws the edges; it never calls a routine that shows the
  screen (parser.c:197-200).

Other behaviour of the code the model keeps:

- A bad rotate axis is not skipped. The C code prints `BAD AXIS` and then multiplies an
  uninitialised pointer into the transform (parser.c:181-185).
- The argument `fgets` is unchecked (parser.c:106, 127, 145, 163, 205). At end of input
  `fgets` returns NULL and, by section 7.21.7.2 of the C11 standard, leaves the buffer
  alone. So the buffer still holds the stripped keyword, and the next strip removes one
  more character. `scale` on the last line scales by `atof("scal")`. `save` on the last
  line saves under `"sav"`. `line`, `move` and `rotate` get one token and fault with
  `MissingArgument`.

## Model

| member | source | states |
|---|---|---|
| Tokenizer.WordLength | parser.c:27 | the scan strsep makes stops at the first delimiter: the prefix it covers holds no delimiter, and the character after it is one |
| Tokenizer.StrSep | parser.c:27 | one strsep call returns a delimiter-free token; if the line goes NULL the token is the whole line, otherwise line = token + delimiter + rest |
| Tokenizer.StrSepWord | parser.c:27 | strsep on word + delimiter + rest returns the word and resumes right after the delimiter |
| Tokenizer.StrSepLast | parser.c:27 | strsep on a delimiter-free line returns all of it and sets the line to NULL |
| Tokenizer.Tokens | parser.c:26-31 | every kept token is non-empty and contains no delimiter character |
| Tokenizer.ParseArgs | parser.c:20-35 | the array has 256 slots; slot i is non-NULL exactly when the line has more than i tokens |
| Tokenizer.ParseArgsLoop | parser.c:20-35 | the strsep loop stores token i in slot i for the first 256 tokens and leaves every later slot NULL; an empty line gives an all-NULL array; the result equals ParseArgs |
| Tokenizer.TokensSplit | parser.c:26-31 | cutting a line at a delimiter splits its token list at the same point, so tokens keep their left-to-right order |
| Tokenizer.TokensCons | parser.c:26-31 | a delimiter-free piece and the delimiter after it contribute that piece, if non-empty, ahead of the tokens of the rest |
| Tokenizer.TokensOfWord | parser.c:26-31 | a non-empty word without delimiters is exactly one token |
| Tokenizer.JoinTokens | parser.c:26-31 | the tokens joined with a separator equal the line with leading and trailing delimiters removed and inner delimiter runs collapsed to one separator (the Squeeze reference) |
| Tokenizer.ParseArgsRoundTrip | parser.c:21-31 | when at most 256 tokens exist, the non-NULL slots joined with a separator equal the squeezed line |
| Tokenizer.TokensOfJoin | parser.c:26-31 | non-empty delimiter-free words joined with a delimiter tokenize back to the same words |
| Interpreter.Strip | parser.c:101 | overwriting the last character with NUL leaves exactly the read minus its final character, one shorter |
| Interpreter.FetchArgument | parser.c:106 | the argument fgets consumes the next line when there is one; at end of input it consumes nothing and the buffer keeps the stripped keyword |
| Interpreter.Step | parser.c:101-224 | one round consumes at least one line, only appends to the render log, fails on an empty read, and halts exactly when the stripped line is `quit` |
| Interpreter.Run | parser.c:100-225 | once halted nothing changes; a finished run only appends to the render log |
| Commands.ParseCommand | parser.c:101-224 | an empty read faults, and otherwise only the five keywords with a parameter line can fault; a parsed command carries the stripped line as its keyword, is Unknown exactly for a non-keyword, and consumes one line, or two for a keyword that takes a parameter line when one follows |
| Commands.ParseArguments | parser.c:105-214 | argument parsing keeps the keyword and the remaining lines; line faults exactly when slot 5 is NULL, scale when slot 0 is, move when slot 2 is, rotate when slot 1 is or the axis in slot 0 is not x, y or z; save never faults and saves under slot 0 |
| Commands.Parse | parser.c:100-225 | a script never yields more commands than it has lines |
| Commands.Exec | parser.c:105-224 | a command halts exactly when it is quit; only ident, scale, move and rotate change the transform; only line and apply change the edges; only display and save log a render, of the current edges |
| Commands.ExecAll | parser.c:100-219 | a halted state is left alone; the transform and edges change only if some command sets them; the run halts exactly when some command is quit |
| Properties.StepMatchesParse | parser.c:101-224 | one round of the loop is one parsed command executed, and a fault in the round is the parser's fault |
| Properties.RunMatchesParse | parser.c:100-225 | the whole loop equals parsing the script and executing the commands, stopping at the first fault unless quit came first |
| Properties.RunConsumes | parser.c:105-224 | after a well-defined command the loop continues two lines on for a keyword with a parameter line and one line on otherwise, so the line after ident, apply, display or an unknown word is read as a command |
| Properties.RunLine | parser.c:105-118 | line appends one edge whose six coordinates are atof of the first six tokens in order, changes nothing else, and faults with fewer than six tokens |
| Properties.RunIdent | parser.c:121-123 | ident sets the transform to the identity and reads no parameter line |
| Properties.RunScale | parser.c:126-141 | scale composes make_scale(k, k, k) with k from the first token on the left of the transform, leaves the edges, and faults without a token |
| Properties.RunMove | parser.c:144-159 | move composes make_translate of the first three tokens on the left of the transform, and faults with fewer than three tokens |
| Properties.RunRotate | parser.c:162-189 | rotate picks make_rotX, Y or Z by the first token, with the second token's value as the angle; fewer than two tokens or any other axis fault |
| Properties.RunApply | parser.c:192-194 | apply sets edges to mult(transform, edges) and keeps the transform |
| Properties.RunDisplay | parser.c:197-200 | display logs a draw of the current edges and changes neither matrix |
| Properties.RunSave | parser.c:203-214 | save reads a parameter line, logs a save of the current edges under the first token (None when there is none), and changes neither matrix |
| Properties.RunUnknown | parser.c:222-224 | an unknown keyword changes nothing and reads no parameter line |
| Properties.RunQuit | parser.c:217-219 | quit ends the run: no later line has any effect, whatever it holds |
| Properties.RunScaleAtEndOfInput | parser.c:126-137 | scale on the last line scales by atof("scal"), read from the stale buffer |
| Properties.RunSaveAtEndOfInput | parser.c:203-213 | save on the last line saves under "sav", read from the stale buffer |
| Properties.RunOthersAtEndOfInput | parser.c:106-113 | line, move and rotate on the last line see a single token and fault on a NULL slot |
| Properties.TransformIsComposition | parser.c:126-189 | a run of scale, move and rotate leaves the product of their matrices, each newer one on the left, and keeps the edges |
| Properties.IdentResets | parser.c:121-159 | after ident the transform is the composition of the later matrices onto the identity, whatever came before |
| Properties.RunKeepsTransform | parser.c:100-225 | a script with no ident, scale, move or rotate line leaves the transform unchanged |
| Properties.ExecAllSplit | parser.c:100-225 | running two command lists one after the other is running their concatenation |
| Scenarios.ParameterLine | parser.c:26-31 | a parameter line written as words separated by single blanks tokenizes to those words |
| Scenarios.ScaleThenApply | parser.c:100-225 | the script ident; scale 2 2 2; line 1 0 0 0 1 0; apply; quit ends with the scaled transform, the scaled edge, no render and the process halted |
| Scenarios.ScaleByTwo | parser.c:126-141 | the lines `scale` and `2 2 2` compose make_scale(atof("2"), atof("2"), atof("2")) onto the transform, whatever lines follow |
| Scenarios.UnitEdge | parser.c:105-118 | the lines `line` and `1 0 0 0 1 0` append the edge (1,0,0)-(0,1,0), whatever lines follow |
| Scenarios.QuitCommand | parser.c:217-219 | the line `quit` ends the run at once, whatever lines follow |
| Scenarios.RotateBadAxis | parser.c:162-185 | rotate with axis `w` has no defined behaviour |
| Scenarios.QuitStopsPending | parser.c:217-219 | quit followed by ident and apply finishes with only the halt applied |

## Left out

- Opening the file or choosing stdin (parser.c:93-96): the model starts from the lines
  already read.
- `fgets` buffering (parser.c:100): each element of the input is what one `fgets` call
  returns. Splitting lines longer than 254 characters is not modelled. Embedded NUL bytes
  are not modelled; every read is treated as a C string. Each `char` of a read stands for
  one byte of the `fgets` buffer: `Strip` removes one byte, so a multi-byte character
  written as several `char`s loses only its last byte, as in C.
- Matrix arithmetic and the matrix constructors (`matrix_mult`, `make_scale`,
  `make_translate`, `make_rotX/Y/Z`, `ident`, `add_edge`): they live in other files and
  work on doubles, so they are abstract functions. `matrix_mult(a, b)` overwriting `b` is
  modelled as `b := mult(a, b)`.
- `atof` and all floating-point values: abstract.
- Screen output (`clear_screen`, `draw_lines`, `save_extension`, the color setup,
  parser.c:86-91): these are sinks. `display` and `save` append a `Drawn` or `Saved` entry
  carrying the edges, plus the name slot for save. The `clear_screen` at the start of
  `parse_file` and the clears inside `display` and `save` are not logged. What
  `save_extension` does with a NULL name is not part of this model.
- Memory management (`calloc`, `free`). Here the model departs from the code in one
  place: `scale` allocates its factors buffer as `calloc(3, sizeof(double) == 0)`, which
  asks for zero bytes, and then writes three doubles into it (parser.c:131-134). The model
  treats the buffer as three doubles, not as an out-of-bounds write.
- Diagnostic `printf` output (`BAD AXIS`, `NOT A PROPER COMMAND`).
- `exit(0)` is the `halted` flag of the state.
- Behaviour after undefined behaviour: such a run ends in `Faulted` and nothing after the
  fault is modelled.
- Interpreter.Run: its contract states only that a halted state is kept and that the
  render log grows. What it computes is stated by Properties.RunMatchesParse and the
  per-keyword lemmas.
- Commands.Parse: its contract states only the bound on the number of commands. What it
  parses is stated through Commands.ParseCommand and Properties.RunMatchesParse.

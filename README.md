# alisahin interpreter in Dafny

This project models the interpreter of the esoteric tape language "alisahin"
(`deneme/alisahin.c`). It proves properties of that model.

The language has these parts:

- **Tape.** A tape of 30000 `char` cells and a data pointer.
- **Primitive tokens.** There are eight:
  - `ali` and `sahin` move the pointer;
  - `kas` and `tek` add or subtract 1 modulo 256;
  - `kasistan` writes the cell;
  - `alisah` reads an integer and adds it to the cell;
  - `tekkas` and `alisahin` abandon the rest of the line when the cell is zero, or not zero.
- **Named functions.** A table holds at most 100 functions, each with at most 1000 recorded lines.
  - A function token replays the recorded lines of its function.
  - A line containing `sudo` arms a privilege flag.
  - A function defined while the flag is armed cannot be redefined without it.
- **Driver.** `parse_file` routes each line of a file in this order: comment, `sudo`, `nejatjobs` header, `}`, body line of the open function, `unibrow` import, statement.

The project has two layers:

- **Specification functions.** These are pure functions over values:
  - `Text`: what `strtok` and `strstr` compute;
  - `Tape`: the machine and the primitives;
  - `Table`: the function table;
  - `Exec`: `execute_line` and `execute_function`;
  - `Driver`: `parse_file`;
  - `Scenarios`: whole programs.

  Lemmas state the source's promises about these functions.
- **Class `Interpreter.Interpreter`.** It holds the C globals: the `memory` and `functions` arrays, `pointer`, `function_count` and `sudo_mode`. Its methods update that state in place, with the loops of the C code. Each method is proved to reach exactly the state the specification function computes, or to report the error that function predicts.

The process exit done by `error()` is modelled as an `Err` result. `Base.Error` lists the messages.

Console output is the byte sequence `output`. Console input is a function `input: nat -> int` read from position `consumed`. The file system is a map from file names to their lines. `fuel` bounds how deeply function calls and imports nest. Running out of it (`OutOfFuel`) stands for exhausting the C call stack.

The model follows the code in these cases:

- Words are separated by the space character only, so a tab stays inside a word.
- A line made only of spaces is not skipped. Outside a function body it runs as a statement with no tokens; inside one it is recorded as a command.
- `add_function` checks the capacity before it searches for the name. So a full table also refuses to redefine an existing name.
- A header takes the function name from offset 10 of the line, wherever `nejatjobs` stands in it. An import takes the file name from offset 8.
- After any header, including one that redefines an earlier entry, the open function is the last table entry.
- A `sudo` line inside a function body is not recorded. It only arms the flag.
- Cells are `char`. `(memory[pointer] - 1) % 256` on a zero cell computes -1, and storing -1 gives the bit pattern 0xFF. `Tape.CellUpdateWraps` proves that the stored bits always equal the old bits plus the addend, modulo 256. So decrementing 0 gives 255, and no cell is ever negative.

## Model

| member | source | states |
|---|---|---|
| Text.WordEnd | deneme/alisahin.c:95-98 | the word starting at the front ends at the first space, or at the end of the text |
| Text.TokenizeWords | deneme/alisahin.c:95-99 | every token `strtok(.., " ")` returns is non-empty and contains no space |
| Text.SkipSpace | deneme/alisahin.c:95-99 | a space before the next word is skipped |
| Text.WordAt | deneme/alisahin.c:95-99 | a maximal run of non-space characters is the next token, and tokenising continues after it |
| Text.TokenizeWord | deneme/alisahin.c:95-99 | a single word tokenises to itself |
| Text.TokenizeConcat | deneme/alisahin.c:95-99 | tokenising two texts joined by a space gives the tokens of the first, then those of the second |
| Text.TokenizeJoin | deneme/alisahin.c:95-99 | words joined by single spaces tokenise back to the same words (round trip) |
| Text.Tokenize | deneme/alisahin.c:95-99 | no contract; characterised by `Text.TokenizeWords`, `Text.WordAt`, `Text.TokenizeConcat` and `Text.TokenizeJoin` |
| Text.FirstToken | deneme/alisahin.c:175-178 | the name `strtok` returns after a keyword: `None` exactly when the rest holds no word, otherwise its first word |
| Text.Contains | deneme/alisahin.c:172-186 | `strstr` finds the keyword exactly when it occurs at some position of the line |
| Tape.CellUpdate | deneme/alisahin.c:112-121 | no contract; characterised by `Tape.CellUpdateWraps` |
| Tape.CellUpdateWraps | deneme/alisahin.c:112-121 | `(cell + d) % 256` computed on a signed `char` with C's truncating `%` stores the bits `(cell + d) mod 256` |
| Tape.Initial | deneme/alisahin.c:32-37 | the start machine has 30000 zero cells, pointer 0, no output and no input read |
| Tape.MoveRight | deneme/alisahin.c:102-106 | no contract; characterised by `Tape.MoveRightSpec` |
| Tape.MoveLeft | deneme/alisahin.c:107-111 | no contract; characterised by `Tape.MoveLeftSpec` and `Tape.MoveRightThenLeft` |
| Tape.MoveRightSpec | deneme/alisahin.c:102-106 | `ali` fails exactly on the last cell; otherwise it moves one cell right and changes nothing else |
| Tape.MoveLeftSpec | deneme/alisahin.c:107-111 | `sahin` fails exactly on cell 0; otherwise it moves one cell left and changes nothing else |
| Tape.MoveRightThenLeft | deneme/alisahin.c:102-111 | a successful `ali` is undone by `sahin` |
| Tape.AddToCell | deneme/alisahin.c:112-115 | no contract; characterised by `Tape.CellOpsSpec`, `Tape.CellUpdateWraps` and `Tape.IncrementDecrementRoundTrip` |
| Tape.Emit | deneme/alisahin.c:116-117 | no contract; characterised by `Tape.Step` (`kasistan` appends the current cell to the output and changes nothing else) |
| Tape.ReadAdd | deneme/alisahin.c:118-121 | no contract; characterised by `Tape.CellOpsSpec` |
| Tape.CellOpsSpec | deneme/alisahin.c:112-121 | `kas`, `tek` and `alisah` change only the current cell, to old+1, old-1 and old+input modulo 256; `alisah` reads exactly one integer |
| Tape.IncThenDec | deneme/alisahin.c:112-115 | an increment followed by a decrement restores any cell value |
| Tape.DecThenInc | deneme/alisahin.c:112-115 | a decrement followed by an increment restores any cell value, 0 included |
| Tape.IncrementDecrementRoundTrip | deneme/alisahin.c:112-115 | `kas` then `tek`, or `tek` then `kas`, gives back the same machine |
| Tape.ParsePrimitive | deneme/alisahin.c:101-129 | a token is classified as a primitive exactly when it is that primitive's name |
| Tape.ParseName | deneme/alisahin.c:101-129 | each primitive's name is classified as that primitive (round trip) |
| Tape.Step | deneme/alisahin.c:101-129 | one primitive fails exactly at the tape ends; it ends the line exactly for `tekkas` on 0 and `alisahin` on non-zero, and then changes nothing; only `kasistan` writes: it appends the current cell to the output and leaves tape, pointer and input position as they were |
| Table.Find | deneme/alisahin.c:72-79 | `get_function` returns the first entry with the name, or none when no entry has it |
| Table.Lookup | deneme/alisahin.c:72-79 | no contract; characterised by `Table.Find` and `Table.LookupWithout` |
| Table.FindUnique | deneme/alisahin.c:72-79 | with unique names, looking up entry i's name finds entry i |
| Table.AddFunction | deneme/alisahin.c:43-70 | no contract; characterised by `Table.FullTableRefuses`, `Table.RedefineRule`, `Table.NewNameAppended` and `Table.AddFunctionKeepsValid` |
| Table.FullTableRefuses | deneme/alisahin.c:44-46 | a table of 100 entries refuses every definition, including a redefinition |
| Table.RedefineRule | deneme/alisahin.c:48-63 | a redefinition succeeds exactly when the new definition is sudo or the old one is not; on success it empties that entry, sets its flag and leaves the other entries; on failure the error is the sudo override |
| Table.NewNameAppended | deneme/alisahin.c:66-69 | a new name is appended as an empty function with the current flag |
| Table.AddFunctionKeepsValid | deneme/alisahin.c:43-70 | `add_function` keeps at most 100 entries, unique names and bodies of at most 1000 lines, and afterwards the name is defined with an empty body |
| Table.AddCommand | deneme/alisahin.c:81-86 | no contract; characterised by `Table.AddCommandAppends` |
| Table.AddCommandAppends | deneme/alisahin.c:81-86 | appending fails exactly at 1000 commands; otherwise the new command is last and the name, flag and earlier commands are unchanged |
| Table.LookupWithout | deneme/alisahin.c:72-79 | removing the entries with one name changes no lookup of another name |
| Exec.RunToken | deneme/alisahin.c:101-134 | a successful token leaves the pointer on the tape |
| Exec.RunTokens | deneme/alisahin.c:101-135 | a successful run of tokens leaves the pointer on the tape |
| Exec.ExecLine | deneme/alisahin.c:90-138 | a successful line leaves the pointer on the tape |
| Exec.ExecFunction | deneme/alisahin.c:140-149 | a successful call leaves the pointer on the tape |
| Exec.ExecBody | deneme/alisahin.c:146-148 | a successful body leaves the pointer on the tape |
| Exec.RunTokensAppend | deneme/alisahin.c:101-135 | tokens run strictly left to right: `a + b` runs `a`, then `b` from where `a` stopped, unless `a` failed or cut the line short |
| Exec.LineSplits | deneme/alisahin.c:95-135 | a line split at a space runs as its first part, then its second part; after an early exit of the first part the second part has no effect |
| Exec.ConditionalExit | deneme/alisahin.c:122-129 | `tekkas` on 0 and `alisahin` on non-zero end the line with the machine unchanged; otherwise the line goes on unchanged |
| Exec.UnknownTokenFails | deneme/alisahin.c:130-134 | a token that is neither a primitive nor a defined name fails the line before any later token runs |
| Exec.UndefinedFunctionFails | deneme/alisahin.c:140-144 | `execute_function` on a name no table entry has fails with the function-not-defined error (unreachable from `execute_line`, which looks the name up first) |
| Exec.InvokeReplaysBody | deneme/alisahin.c:130-149 | a function token runs the recorded lines in order one level deeper, then the rest of the line |
| Exec.ExecBodyAppend | deneme/alisahin.c:146-148 | lines `a + b` run as `a`, then `b` from where `a` ended |
| Exec.ShadowedRunToken | deneme/alisahin.c:101-134 | primitives are tried before function names, so a function named like a primitive never affects a token |
| Exec.ShadowedRunTokens | deneme/alisahin.c:101-135 | the same for a run of tokens |
| Exec.ShadowedExecLine | deneme/alisahin.c:90-138 | the same for a line |
| Exec.ShadowedExecFunction | deneme/alisahin.c:140-149 | the same for a call of another function |
| Exec.ShadowedExecBody | deneme/alisahin.c:146-148 | the same for a function body |
| Driver.Start | deneme/alisahin.c:18-37 | the globals start with an empty table, `sudo_mode` false and the zeroed tape |
| Driver.Resolve | deneme/alisahin.c:152-161 | no contract; characterised by `Driver.FileResolution` |
| Driver.IsComment | deneme/alisahin.c:167-170 | no contract; characterised by `Driver.CommentSkipped` |
| Driver.ParseLine | deneme/alisahin.c:166-195 | routing a line keeps the tape and the table within bounds, and the open function is an existing entry |
| Driver.ParseLines | deneme/alisahin.c:166-195 | the same for all the lines of a file |
| Driver.ParseFile | deneme/alisahin.c:151-198 | parsing a file keeps the tape and the table within bounds |
| Driver.Run | deneme/alisahin.c:206-208 | a run from the start state on one file keeps the tape and the table within bounds |
| Driver.ParseLinesFirst | deneme/alisahin.c:166-195 | the first line of a file is routed first, and the rest from the state it leaves |
| Driver.ParseLinesAppend | deneme/alisahin.c:166-195 | lines `a + b` are parsed as `a`, then `b` from the state and open function `a` left |
| Driver.CommentSkipped | deneme/alisahin.c:167-170 | empty lines and lines starting with `;` change nothing |
| Driver.SudoLineOnlyArms | deneme/alisahin.c:172-173 | a line containing `sudo` only arms the flag, even inside a body |
| Driver.CloseClears | deneme/alisahin.c:181-183 | `}` closes the open function and clears `sudo_mode` |
| Driver.OpenBodyRecords | deneme/alisahin.c:184-185 | while a function is open, every other line, `unibrow` lines included, is appended to it and not executed; this fails exactly at 1000 commands |
| Driver.HeaderDefines | deneme/alisahin.c:174-180 | a header with no word after offset 10 is invalid; otherwise it defines that word with the current flag, and the open function becomes the last entry |
| Driver.OverrideOpensLastEntry | deneme/alisahin.c:174-185 | redefining an entry that is not the last leaves it empty, and the next body line goes to the last entry |
| Driver.ImportRunsFirst | deneme/alisahin.c:186-191 | with no word from offset 8 an import line fails with the invalid-import error; otherwise it parses the whole imported file, sharing tape, table and flag, before the next line of the importing file |
| Driver.StatementExecuted | deneme/alisahin.c:192-194 | with no function open, any other line is executed on the tape, and the table and flag stay as they are |
| Driver.FileResolution | deneme/alisahin.c:152-161 | a file is opened under its name first, then with `.alisahin` appended; when neither exists the run fails |
| Scenarios.LoopBodyTokens | deneme/alisahin.c:95-99 | `tekkas kasistan tek loop` splits into its four words |
| Scenarios.RunPrimitive | deneme/alisahin.c:101-129 | a primitive at the head of a line runs first |
| Scenarios.CallLoop | deneme/alisahin.c:140-149 | calling a one-line function runs that line one level deeper |
| Scenarios.LoopLineZero | deneme/alisahin.c:122-125 | on a zero cell the loop line stops at `tekkas` |
| Scenarios.LoopLineNonZero | deneme/alisahin.c:116-131 | on a non-zero cell the loop line writes the cell, decrements it and calls `loop` |
| Scenarios.Countdown | deneme/alisahin.c:114-149 | the self-calling `loop` started on a cell holding n writes n, n-1, ..., 1 and leaves the cell at 0 |
| Scenarios.CountdownFrom | deneme/alisahin.c:114-149 | the same for any line that tokenises like the loop body, by induction on n |
| Scenarios.ThreeAndWriteTokens | deneme/alisahin.c:95-99 | `kas kas kas kasistan` splits into its four words |
| Scenarios.ThreeIncrements | deneme/alisahin.c:112-113 | three `kas` on a zero cell leave 3 in it |
| Scenarios.WriteLast | deneme/alisahin.c:116-117 | a final `kasistan` writes the cell |
| Scenarios.ThreeAndWriteOutputsThree | deneme/alisahin.c:101-135 | `kas kas kas kasistan` on a zero cell writes the byte 3 and leaves 3 in the cell |
| Scenarios.FreshTapeWritesThree | deneme/alisahin.c:101-135 | on the fresh tape that line's whole output is the byte 3 |
| Scenarios.Inc3WritesThree | deneme/alisahin.c:130-149 | a function with body `kas kas kas`, called from `<name> kasistan` on a zero cell, makes the line write 3 |
| Scenarios.Inc3CallTokens | deneme/alisahin.c:95-99 | `inc3 kasistan` splits into its two words |
| Scenarios.Inc3BodyTokens | deneme/alisahin.c:95-99 | `kas kas kas` splits into its three words |
| Scenarios.Inc3NotPrimitive | deneme/alisahin.c:101-129 | `inc3` is not a primitive |
| Scenarios.FreshTapeInc3 | deneme/alisahin.c:130-149 | with `inc3` defined as `kas kas kas`, `inc3 kasistan` on the fresh tape outputs exactly the byte 3 |
| Scenarios.UnknownTokenStopsBody | deneme/alisahin.c:130-148 | a line whose first token is unknown fails the body, and no later line runs |
| Interpreter.WordEndFrom | deneme/alisahin.c:95-98 | the scan stops at the first space after the word's start, or at the end of the line |
| Interpreter.SplitTokens | deneme/alisahin.c:91-99 | the `strtok` loop collects exactly `Tokenize(line)` |
| Interpreter.Interpreter.constructor | deneme/alisahin.c:18-37 | the globals start in `Driver.Start()` |
| Interpreter.Interpreter.AddFunction | deneme/alisahin.c:43-70 | the table in the array becomes `Table.AddFunction` of the old one, or the method reports its error and the table is unchanged |
| Interpreter.Interpreter.AddCommand | deneme/alisahin.c:81-86 | the entry becomes `Table.AddCommand` of the old entry, or the method reports `TooManyCommands` |
| Interpreter.Interpreter.ExecutePrimitive | deneme/alisahin.c:102-129 | the machine in the globals becomes `Tape.Step` of the old one, including the early-exit decision, or the method reports its error |
| Interpreter.Interpreter.ExecuteToken | deneme/alisahin.c:101-134 | one pass of the token loop reaches `Exec.RunToken` of the old state |
| Interpreter.Interpreter.ExecuteLine | deneme/alisahin.c:90-138 | the machine becomes `Exec.ExecLine` of the old machine, or the method reports its error; the table is unchanged |
| Interpreter.Interpreter.ExecuteFunction | deneme/alisahin.c:140-149 | the machine becomes `Exec.ExecFunction` of the old one, or the method reports its error |
| Interpreter.Interpreter.RouteLine | deneme/alisahin.c:166-195 | one pass of the `fgets` loop reaches `Driver.ParseLine` of the old state and open function |
| Interpreter.Interpreter.ParseLines | deneme/alisahin.c:163-195 | the line loop reaches `Driver.ParseLines` of the old state |
| Interpreter.Interpreter.ParseFile | deneme/alisahin.c:151-198 | `parse_file` reaches `Driver.ParseFile` of the old state, or reports its error |

## Left out

- `main` (deneme/alisahin.c:200-213) is not modelled. Its argument check and usage message are process handling. `Driver.Run` stands for `parse_file(argv[1])` after `init_memory`.
- `free_memory`, `free` and `strdup` are not modelled. Copying and freeing strings has no observable effect on the interpreter.
- A failed `calloc` is left out. The model cannot run out of memory, and the tape is allocated by construction.
- The `error()` message and the process exit become `Err(e)`, which ends the run. Nothing is printed.
- Output written before an error is not part of an `Err` result. In C, `putchar` has already written those bytes and `exit` flushes them, so on a fresh tape the line `kasistan foo` prints the byte 0 and then fails; `Exec.ExecLine` gives only `Err(UnknownCommand)`. The class `Interpreter.Interpreter` keeps those bytes in its `output` field, but its contracts say nothing about that field on the error path.
- `fopen`/`fgets` are replaced by a map from names to line sequences. Lines are given without their terminator.
- `fgets` splits a line longer than 255 characters into pieces. That split is not modelled.
- `snprintf` truncates a file name with the extension to 255 characters. That truncation is not modelled.
- `putchar` appends to `output`.
- `scanf("%d")` is the value `input(consumed)`. A failed read leaves `user_input` indeterminate, and that is covered by the oracle returning any integer.
- `memory[pointer] + user_input` is computed on unbounded integers. C's `int` overflow there is undefined behaviour and is left out.
- The C call stack has no explicit bound. Its exhaustion is modelled by `fuel`, which every function call and every import consumes. `OutOfFuel` is not one of the program's own errors.
- Interpreter.Interpreter.ExecuteLine: requires `LineFits`, which `execute_line` needs because its `tokens[1000]` array has no bounds check. A line of at most 255 characters has at most 128 tokens, so this excludes no line `fgets` can deliver.
- Interpreter.Interpreter.AddCommand: requires `LineFits(command)`, so that every stored line can be run later. Every line the program reads satisfies it, as above.
- Interpreter.Interpreter.RouteLine: requires `LineFits`, for the reason above.
- Interpreter.Interpreter.ParseLines: requires every line to be `LineFits`, for the reason above.
- Interpreter.Interpreter.constructor: requires every line of every file to be `LineFits`, for the reason above.
- A header or import line shorter than its name offset (the line `nejatjobs` or `unibrow` itself) reads the name from past the end of the line. When the line was read with its newline, `fgets` has written terminators there, `strtok` returns NULL and the line is invalid; the model takes the name from `Text.Drop`, which gives the empty text there, and so reports `InvalidFunctionDefinition` or `InvalidImport`. When it is the last line of a file without a newline, C reads stale bytes of the line buffer instead; that case is not modelled.

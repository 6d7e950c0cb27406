# A verified model of the bf interpreter core

This project models the core of `bf`, an interpreter for the eight-instruction tape language
(`>` `<` `+` `-` `.` `,` `[` `]`), written in C. Three pieces are modelled, in the form the C code has:

- **Growable stack** (`lib/src/stack.c`, module `GrowableStack`). A class with the fields `elems`, `size` and `elsize`. The C field `length` is `|elems|`.
  - `push` doubles `size` when the buffer is full.
  - `pop` divides it by four when the stack becomes sparse.
  - Allocation failure is a boolean argument.
- **Lexer and parser** (`bf_lex` and `bf_parse` in `src/bf.c`, modules `BfLexer` and `BfParser`). They work in place on the program array.
  - The lexer scans for instruction bytes from an explicit cursor.
  - The parser copies each token to the front of the array and builds the bracket table of `(tokenIdx, bracketIdx)` entries.
  - It uses a stack of pending `[` entries, and returns the compacted length or -1.
- **Executor** (`bf_run` in `src/bf.c`, module `BfExecutor`).
  - A loop over `(token_idx, bracket_idx, data_ptr)` and a tape array.
  - Loop jumps take two table lookups.

The definitions the contracts use are in `BfSyntax`:
- the token alphabet and `Filter`, the bytes the lexer keeps;
- `Depth` and `Count` on prefixes;
- `Matches`, the two delimiters of one loop;
- `TableOf`, a complete bracket table.

`BfSemantics` is a reference interpreter without a table: its jumps search the token stream for the matching delimiter. `BfPrograms` follows two small programs through it, `+[-]` and `++>+++[-<+>]<.`, step by step.

The main results:
- On success, `Parse` leaves exactly the filtered source at the front of the program. It returns its length, and the table it builds is `TableOf` that stream.
- `Parse` fails whenever the stream is unbalanced, and succeeds on a balanced stream when every allocation succeeds.
- Each step of the parse fails exactly when one of its stack operations must reallocate and cannot, or on a `]` with no `[` pending.
- `Run` computes exactly what the reference interpreter computes. It does so through the lockstep invariant `bracket_idx == Count(program, token_idx)`.

I/O is modelled as values:
- `getchar` reads from an input sequence.
- The outcome of each `write` to the output is given by a sequence of booleans.
- The dump of the tape is a parameter saying whether it was requested and whether its write succeeds.
- Whether each of the parser's stack operations gets the memory it asks for is given by a sequence of booleans, numbered as follows:
  - creating the pending stack is operation 0;
  - the `n`-th delimiter of the compacted program (counting from 0) owns operations `2n+1` (the push on the table) and `2n+2` (the push on, or the pop from, the pending stack);
  - a flag matters only when its operation actually reallocates.

## Model

| member | source | states |
|---|---|---|
| GrowableStack.Stack.Create | lib/src/stack.c:5-12 | a new stack is empty, has room for 16 elements (`size == 16 * elsize`), keeps `elsize`, and reports whether the allocation succeeded |
| GrowableStack.Stack.Push | lib/src/stack.c:14-27 | `size` doubles exactly when `length * elsize >= size` beforehand; the push fails only if that reallocation fails, leaving the elements unchanged but the size doubled; otherwise the item becomes the new last element; `length * elsize <= size` is kept |
| GrowableStack.Stack.Pop | lib/src/stack.c:29-45 | on an empty stack: -1, nothing changes; otherwise the last element is removed and returned, `size` is divided by 4 exactly when at least 4 elements remain and they fill less than a quarter of it, the result is 0 only if that reallocation fails, and `length * elsize < size` afterwards |
| GrowableStack.PushThenPop | lib/src/stack.c:14-45 | a successful push followed by a pop returns the pushed item and restores the earlier contents |
| GrowableStack.PushFits | lib/src/stack.c:17-25 | byte arithmetic of a push: one more element fits in the old buffer when it was not full, and in the doubled one when it was |
| GrowableStack.ShrinkExact | lib/src/stack.c:37-38 | byte arithmetic of a shrink: when the guard holds, a quarter of the buffer is still a whole power-of-two number of elements, at least eight |
| BfSyntax.IsToken | src/bf.c:288 | a byte is kept exactly when strchr, scanning `"><+-.,[]"` up to and including its terminating NUL, finds it |
| BfSyntax.FilterSkip | src/bf.c:286-291 | bytes the lexer passes over add nothing to the token stream |
| BfSyntax.FilterKeep | src/bf.c:288-289 | a byte the lexer returns is appended to the token stream |
| BfSyntax.FilterPrefix | src/bf.c:286-291 | scanning further only extends the token stream |
| BfSyntax.FilterLength | src/bf.c:227-228 | the token stream is no longer than the source, so compaction stays in bounds |
| BfSyntax.CountInjective | src/bf.c:231-232 | two delimiters with the same delimiter count are the same delimiter, so table entries are determined by position |
| BfSyntax.MatchUnique | src/bf.c:244-262 | a `[` has at most one matching `]` and a `]` at most one matching `[` |
| BfSyntax.Nested | src/bf.c:244-262 | loops nest: a loop opened inside another closes inside it too (last opened, first closed) |
| BfSyntax.TableUnique | src/bf.c:211-280 | any two complete bracket tables of the same token stream are equal |
| BfSyntax.EntryOf | src/bf.c:180-194 | the table entry of the delimiter at token `t` is entry number `Count(s, t)` |
| BfLexer.Lex | src/bf.c:282-294 | returns the first byte at or after the cursor that is an instruction or NUL (strchr also finds the terminator), and the cursor one past it; otherwise NULL with the cursor at `psize`; the cursor never decreases and every skipped byte is no token |
| BfParser.ParseStart | src/bf.c:215-218 | the parser invariant holds for no tokens, an empty table and an empty pending stack |
| BfParser.ParseOther | src/bf.c:229-267 | a token that is not a delimiter changes neither the table nor the pending stack, and keeps the invariant |
| BfParser.ParseOpen | src/bf.c:230-241 | a `[` appends the entry `(token_idx, bracket_idx)`, pointing at itself, to the table and to the pending stack, and keeps the invariant |
| BfParser.ParseClose | src/bf.c:244-265 | a `]` with a pending `[` appends its entry, makes the two entries point at each other, pops the `[`, and keeps the invariant |
| BfParser.ParseDone | src/bf.c:271-279 | with no `[` pending, the tokens are balanced and the table is complete: one entry per delimiter in order, each recording its own position and paired both ways with its matching delimiter |
| BfParser.PrefixUnbalanced | src/bf.c:245-249 | a `]` arriving with no `[` pending makes the whole token stream unbalanced |
| BfParser.RecordOpen | src/bf.c:230-241 | the `[` case: it fails exactly when the table push must grow and cannot, or the pending push must grow and cannot; on success both pushes happened and the invariant is kept |
| BfParser.RecordClose | src/bf.c:251-264 | the `]` case with a pending `[`: it fails exactly when the table push must grow and cannot, or the pop must shrink the pending stack and cannot; on success push, pop and the two patches keep the invariant |
| BfParser.HandleToken | src/bf.c:229-267 | the switch fails exactly as `SwitchOk` says: on a reallocation that fails, or on a `]` with no `[` pending; on success it keeps the invariant and the entry count grows by one for a delimiter only |
| BfParser.CopiedTail | src/bf.c:228 | compaction writes only below the count of tokens read, so the rest of the program array is untouched |
| BfParser.CopyToken | src/bf.c:228 | `program[token_idx] = *token` writes at an index no greater than the token's own, so unread bytes are never overwritten, and the copied prefix is the token stream so far |
| BfParser.NextToken | src/bf.c:227 | calling the lexer again keeps the copied prefix equal to all tokens before the one returned, and never moves the cursor back |
| BfParser.ParseStep | src/bf.c:227-268 | one iteration fails exactly as `SwitchOk` says for its token and the current stack shapes, and then only on a failed allocation or an unbalanced stream; on success it keeps the invariant with `bracket_idx` equal to the table length and `token_idx` one higher, and advances the allocation numbering by two for a delimiter only |
| BfParser.ParseEnd | src/bf.c:271-279 | at the end of the scan the copied tokens are the whole token stream; with nothing pending they are balanced with a complete table, otherwise unbalanced |
| BfParser.Parse | src/bf.c:211-280 | -1 whenever the token stream is unbalanced (an unmatched `]` or `[`) or the pending stack cannot be created, never -1 for a balanced stream when every allocation succeeds; otherwise it returns the number of tokens, the program starts with the token stream in source order, the rest of it is untouched, and the table is complete for that stream |
| BfSemantics.GetChar | src/bf.c:176-177 | getchar gives a byte value or -1 (EOF), and -1 exactly when the input is exhausted |
| BfSemantics.ToByte | src/bf.c:176-177 | storing getchar's result in a cell keeps a byte read as it is, and turns EOF (-1) into 0xFF |
| BfSemantics.ScanClose | src/bf.c:180-188 | the forward search finds a `]` or reports none |
| BfSemantics.ScanOpen | src/bf.c:190-195 | the backward search finds a `[` or reports none |
| BfSemantics.Step | src/bf.c:149-197 | one pass keeps the data pointer on the tape and the tape length, only appends to the output, and fails exactly on `.` whose write fails, changing nothing then |
| BfSemantics.Exec | src/bf.c:148-198 | a run ends as halted exactly when `token_idx` has reached the end of the program; the data pointer stays in `[0, mem_size)`; the output only grows |
| BfSemantics.ExecUnfold | src/bf.c:148-198 | a run is its first step followed by the rest, or stops at a failed write |
| BfSemantics.RightWraps | src/bf.c:150-153 | `>` sets the data pointer to `(data_ptr + 1) % mem_size` and changes nothing else |
| BfSemantics.LeftWraps | src/bf.c:155-158 | `<` sets the data pointer to `(data_ptr - 1) % mem_size` and changes nothing else |
| BfSemantics.PointerEnds | src/bf.c:150-158 | `>` at `mem_size - 1` gives 0, and `<` at 0 gives `mem_size - 1` |
| BfSemantics.CellArith | src/bf.c:160-166 | `+` and `-` change only the current cell, by one modulo 256, and touch neither the data pointer nor I/O |
| BfSemantics.ByteInc | src/bf.c:161 | byte increment is addition modulo 256 |
| BfSemantics.ByteDec | src/bf.c:165 | byte decrement is subtraction modulo 256 |
| BfSemantics.PutAppends | src/bf.c:168-174 | `.` appends the current cell to the output and leaves the tape alone, or fails and changes nothing |
| BfSemantics.GetStores | src/bf.c:176-178 | `,` stores the next input byte and consumes it, or stores 0xFF (EOF truncated to a byte) at the end of the input |
| BfSemantics.ScanCloseFrom | src/bf.c:180-188 | inside a loop, the forward search started with the current relative depth finds that loop's `]` |
| BfSemantics.ScanOpenFrom | src/bf.c:190-195 | inside a loop, the backward search started with the current relative depth finds that loop's `[` |
| BfSemantics.OpenJumps | src/bf.c:180-188 | `[` on a zero cell resumes just after its matching `]`; on any other cell it enters the body |
| BfSemantics.CloseJumps | src/bf.c:190-197 | `]` always resumes at its matching `[` |
| BfSemantics.EmptyProgram | src/bf.c:148 | an empty program halts at once with no I/O and the tape unchanged |
| BfExecutor.ResultOf | src/bf.c:200-208 | the run's result is 1 exactly when the program ran to its end and the dump, if asked for, was written; 0 otherwise; no result when the step bound ran out |
| BfExecutor.DumpedOf | src/bf.c:200-201 | the dump is the whole tape, and only after the program ran to its end with a dump asked for |
| BfExecutor.OpenLookup | src/bf.c:180-187 | at a `[` with `bracket_idx == Count(token_idx)`, the two lookups give its matching `]`, and the updated `bracket_idx` is the count just after that `]` |
| BfExecutor.CloseLookup | src/bf.c:190-194 | at a `]` with `bracket_idx == Count(token_idx)`, the two lookups give its matching `[`, and the updated `bracket_idx` is the count before it |
| BfExecutor.Jump | src/bf.c:180-197 | the two bracket cases take the reference interpreter's step and keep the lockstep `bracket_idx == Count(token_idx)` |
| BfExecutor.CellOp | src/bf.c:160-178 | `+`, `-` and `,` on the tape array take the reference interpreter's step |
| BfExecutor.Move | src/bf.c:150-174 | `>`, `<`, `.` and ignored bytes take the reference interpreter's step, or report the failed write |
| BfExecutor.RunStep | src/bf.c:149-197 | one pass through the loop body takes the reference interpreter's step and keeps the lockstep, or reports a failed write with nothing changed |
| BfExecutor.Interpret | src/bf.c:138-198 | the loop ends with the reference interpreter's status, tape and output |
| BfExecutor.Run | src/bf.c:136-209 | returns 1 exactly when the run halts and the dump, if requested, succeeds; 0 after a failed write to the output or to the dump. The tape, output and dump are those of the reference run |
| BfPrograms.ClearLoop | src/bf.c:148-198 | `+[-]` on a tape whose first cell is 0 halts after five steps with the tape as it was and no I/O |
| BfPrograms.MoveOnce | src/bf.c:148-198 | one pass of `[-<+>]` with a non-zero second cell moves one unit to the first cell in six steps and is back at the `[` |
| BfPrograms.AddRun | src/bf.c:148-198 | `++>+++[-<+>]<.` on a two-cell tape of zeros halts after 27 steps with 5 in the first cell and 5 written to the output |

## Left out

- `main`, `parse_args`, `print_usage` and `destroy_params` (src/bf.c:19-134) are not part of this model. That covers option parsing, `open`, `fstat`, `mmap`, `calloc` and `exit`.
- The older driver src/main.c is not part of this model.
- The messages written to standard error are not modelled.
- The real `write` and `getchar` system calls are modelled only as values: an input sequence, a success flag per output write, and a success flag for the dump write.
- The dump writes the whole tape; the model returns the tape as the dumped bytes and does not model a partial write.
- Bytes are moved as whole values. The byte-level `malloc`/`realloc`/`memcpy` of the stack's buffer is not modelled; its allocation outcome is a boolean argument.
- `stack_destroy` is not modelled: freeing memory has no effect on the modelled state.
- C `int` overflow is not modelled: of `size * 2`, of `length * elsize`, of `token_idx`, of `psize` and of `mem_size`. All of these are unbounded integers here.
- Cell arithmetic is on bytes modulo 256, whatever the signedness of `char`.
- GrowableStack.Stack.Create: requires `elsize > 0`, which the C does not check. Every caller passes `sizeof(bracket_t)`.
- BfLexer.Lex: the C cursor is a function-local `static int` that is never reset. Here it is passed in and returned, and `Parse` starts it at 0, which is what the single call in the program sees.
- BfExecutor.Run: `bf_run` may not terminate. The model runs at most `fuel` passes through the loop body and returns `Exhausted` when they run out, so it says nothing about a run longer than `fuel` steps.
- BfSemantics.Step: for a `[` on a zero cell, or a `]`, with no match, the reference interpreter moves to the end of the program. The table-driven loop is only defined on a complete table, which `Parse` guarantees.
- BfParser.Parse: states -1 for a failed creation of the pending stack, but not which later allocation failures force -1. That depends on the sizes the two stacks have reached at each delimiter. `ParseStep` and `HandleToken` state it exactly per token, and the model does not combine those into a property of the whole parse.

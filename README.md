# kilo in Dafny: frame composer, output buffer, key dispatch

This project models the core of `kilo.c`, a minimal raw-mode terminal editor,
and proves properties of that model. It covers these parts:

- **Output buffer** (`output_buffer.dfy`, module `OutputBuffers`). `struct outputBuffer` with
  `appendBuffer` is a class whose content grows in place.
  - Whether each `realloc` succeeds is a script of booleans handed to the buffer. A failed
    `realloc` drops that append silently, as the C code does.
  - A ghost history of every span requested lets the composer's contracts say exactly which
    appends were issued.
  - `Kept` states which bytes remain once some allocations have failed.
- **Frame composer** (`frame.dfy`, module `Frame`). `appendCenteredText`,
  `appendWelcomeMessage`, `appendQuitInstructions`, `drawRows` and the buffer built by
  `refreshScreen` are methods that append step by step.
  - Each method is proved to issue exactly the appends of a specification function
    (`CenteredPieces`, `RowPieces`, `RowsPieces`, `FramePieces`).
  - Those appends are proved to produce `FrameText`, an independent description of the frame:
    - hide cursor, then cursor home;
    - the rows, joined by CR LF;
    - a CUP sequence (ECMA-48 section 8.3.21) built from the 1-based cursor;
    - show cursor.
  - Each row is SGR 31 (ECMA-48 section 8.3.117), `~`, an optional centred banner, then EL
    (section 8.3.41).
- **Numbers** (`numeric.dfy`, module `Numeric`). C's truncating `/ 2` and the `%d` conversion,
  with a parse-back round trip.
- **Cursor and keys** (`editor.dfy`, module `Editor`):
  - `struct editorConfig` is a class, with `initEditor`, `moveCursor` and `handleKeypress` as
    methods;
  - `CTRL_KEY` and `getWindowSize` are functions;
  - `exit(0)` and `die` become the `Quit` and `Fatal` values of `Status`.
- **Key input** (`input.dfy`, module `Input`). `readKey`'s do-while loop runs over a script of
  `read` outcomes: a byte, a timeout (0), -1 with `EAGAIN`, or -1 with another errno.
- **Terminal mode** (`terminal.dfy`, module `TerminalMode`). `saveCurrentTerminalMode`,
  `enableRawMode` and the exit handler `restoreTerminalMode` act on `termios` values. The flag
  values are those of Linux.
- **Main loop** (`session.dfy`, module `Session`). One pass of `main`'s loop: draw, read a key,
  dispatch.

The model follows the code, with one deliberate departure. `appendCenteredText` treats a
negative padding as none, where the code as written does not return (see Findings and
"Left out"); that loop as written is modelled separately by `Countdown`.
The exit handler is meant to give the terminal back its original settings. As written it
calls `tcgetattr`, so it restores nothing. The model follows the code here, and proves the
corrected handler separately (see Findings).

## Model

| member | source | states |
|---|---|---|
| Numeric.TruncHalf | kilo.c:106 | C's `(a) / 2` truncates toward zero: for a >= 0, 0 <= 2q <= a <= 2q+1; for a < 0, 2q-1 <= a <= 2q <= 0 |
| Numeric.Decimal | kilo.c:159 | `%d` of a non-negative number is at least one decimal digit, with no leading zero; 0 is written as the single digit `0` |
| Numeric.DecimalRoundTrip | kilo.c:159 | reading back the digits `%d` writes gives the number written |
| Numeric.DecimalLength | kilo.c:158-159 | a number below 10^k formats to at most k digits |
| OutputBuffers.OutputBuffer.constructor | kilo.c:32 | `EMPTY_OUTPUT_BUFFER` holds no bytes and has had no appends |
| OutputBuffers.OutputBuffer.Append | kilo.c:34-41 | when `realloc` succeeds the content becomes the old content followed by `s[0..length)` and the length grows by exactly `length`; when it fails the content is unchanged; either way the span is recorded and the buffer invariant kept |
| OutputBuffers.KeptSnoc | kilo.c:34-41 | one more append adds its span to the kept bytes, or nothing when its `realloc` fails |
| OutputBuffers.FlattenAppend | kilo.c:34-41 | appending two runs of spans keeps the bytes of the first followed by those of the second |
| OutputBuffers.KeptAllGranted | kilo.c:35-37 | when no `realloc` fails, every requested byte is kept, in order |
| OutputBuffers.KeptBounded | kilo.c:35-37 | whatever fails, the buffer never holds more bytes than were requested |
| OutputBuffers.AppendSplitEqualsWhole | kilo.c:34-41 | appending `a` then `b` leaves the same bytes as appending `a + b` once |
| Editor.ExitOutput | kilo.c:47-58 | something is written exactly when the process stops, on quit or on a fatal error, and it is `ESC[2J` then `ESC[H`: the display erased and the cursor sent home |
| Editor.ExitCode | kilo.c:57 | the exit status is 0 exactly after quitting and 1 exactly after `die` |
| Editor.CtrlKey | kilo.c:13 | `CTRL_KEY(k)` is `k` with its upper three bits cleared, i.e. `k mod 32` |
| Editor.MovedInBounds | kilo.c:182-205 | `moveCursor` keeps 0 <= cursor_x <= screen_cols and 0 <= cursor_y <= screen_rows (the bound is the dimension itself) |
| Editor.MovedOneStep | kilo.c:182-205 | `moveCursor` changes at most one coordinate, by at most one, and never the screen size |
| Editor.MovedByKey | kilo.c:184-203 | `w`/`a` decrement y/x only when nonzero; `s`/`d` increment y/x only while below screen_rows/screen_cols; the other coordinate is untouched |
| Editor.DispatchedKeys | kilo.c:207-221 | `CTRL_KEY('q')` is 0x11 and it, and only it, quits; it changes no state; movement keys go to `moveCursor`; every other byte is ignored |
| Editor.RunInBounds | kilo.c:239-242 | over any sequence of keys the cursor stays within bounds and the screen size is unchanged |
| Editor.RunQuits | kilo.c:239-242 | a sequence of keys ends in quit if and only if it contains 0x11; otherwise the editor keeps running |
| Editor.RightFiveTimes | kilo.c:199-202 | five presses of `d` from the origin put the cursor in column 5 |
| Editor.LeftAtOrigin | kilo.c:189-192 | `a` at column 0 leaves the cursor there |
| Editor.GetWindowSize | kilo.c:93-103 | the size is known exactly when the `ioctl` succeeds with a nonzero column count, and is then the reported rows and columns |
| Editor.EditorConfig.constructor | kilo.c:25 | the global `editor_config` starts zero-filled |
| Editor.EditorConfig.InitEditor | kilo.c:223-230 | the cursor becomes (0, 0); it runs on exactly when the size query succeeds, taking the reported size (at least one column, both below 65536) with the cursor in bounds; otherwise fatal with the size untouched |
| Editor.EditorConfig.MoveCursor | kilo.c:182-205 | the new state is `Moved` of the old one, and the bounds invariant is kept |
| Editor.EditorConfig.HandleKeypress | kilo.c:207-221 | the new state and status are `Dispatched` of the old state and key, and the bounds invariant is kept |
| Frame.BannerLengths | kilo.c:10 | the welcome text is 30 bytes (it fits the 80-byte array) and the quit hint 21 |
| Frame.CursorPositionFits | kilo.c:158-160 | for any cursor a `winsize` allows, the CUP sequence is at most 14 bytes, so the 32-byte buffer never cuts it; it starts `ESC[` and ends `H` |
| Frame.Spaces | kilo.c:107-109 | `n` blanks |
| Frame.Segments | kilo.c:129 | one row per screen line |
| Frame.FlattenSpaces | kilo.c:107-109 | the padding appends produce exactly the padding blanks |
| Frame.FlattenCentered | kilo.c:105-111 | `appendCenteredText`'s appends produce the padding followed by the text |
| Frame.FlattenOne | kilo.c:34-41 | a single append produces its span |
| Frame.FlattenBanner | kilo.c:134-140 | the banner appends of a row produce the welcome banner in row `screen_rows/2`, the quit banner in row `screen_rows/2 + 1`, nothing elsewhere |
| Frame.FlattenRow | kilo.c:130-146 | a row's appends produce its segment, followed by CR LF unless it is the last row |
| Frame.FlattenRows | kilo.c:129-147 | after n rows the text is those rows joined by CR LF, plus the CR LF that precedes the next row |
| Frame.DrawRowsText | kilo.c:127-148 | `drawRows`' appends produce the rows joined by CR LF, with no separator after the last |
| Frame.FrameRoundTrip | kilo.c:150-162 | the appends of `refreshScreen` produce exactly `ESC[?25l ESC[H`, the rows, `ESC[<y+1>;<x+1>H`, `ESC[?25h` |
| Frame.JoinLength | kilo.c:144-146 | a frame of k >= 1 rows holds the rows' bytes and exactly k - 1 separators |
| Frame.JoinEnds | kilo.c:129-147 | the joined rows begin with the first row and end with the last one |
| Frame.SegmentShape | kilo.c:130-146 | every row begins `ESC[31m~` and ends `ESC[K`; on a screen with at least one column a row is longer than those 9 bytes exactly when it carries a banner |
| Frame.BannerRowsExist | kilo.c:134-140 | the welcome row exists whenever the screen has a row; the quit row exists exactly when it has at least three |
| Frame.CenteredBalance | kilo.c:105-111 | text that fits is preceded by `(screen_cols - length) / 2` blanks, leaving the same right margin or one more |
| Frame.WelcomeBanner | kilo.c:113-121 | the welcome text is cut to min(30, screen_cols) bytes, its padding is never negative, the banner fits the width, and on a narrower screen it fills it exactly |
| Frame.QuitPaddingSign | kilo.c:106-124 | the quit hint's computed padding is negative exactly on screens of fewer than 20 columns |
| Frame.CountdownExits | kilo.c:107-109 | `while (p--)` from p >= 0 runs its body exactly p times and exits |
| Frame.CountdownHangs | kilo.c:107-109 | `while (p--)` from p < 0 never exits, however long it runs, with the counter unbounded (C's overflow at `INT_MIN` is not modelled) |
| Frame.QuitBannerHangs | kilo.c:105-125 | on a screen of 19 columns or fewer, `appendQuitInstructions` as written does not return before its counter overflows `int` (padding -1 at 19 columns) |
| Frame.PaddingAgrees | kilo.c:106-109 | the padding the model emits equals what the loop as written emits whenever that loop terminates, and is zero where it would not |
| Frame.AppendCenteredText | kilo.c:105-111 | appends `(screen_cols - length) / 2` single blanks (none when negative) and then `s[0..length)`, in that order, one `appendBuffer` each |
| Frame.AppendWelcomeMessage | kilo.c:113-121 | appends the welcome text cut to the screen width, centred |
| Frame.AppendQuitInstructions | kilo.c:123-125 | appends the 21-byte quit hint, uncut, centred |
| Frame.DrawRow | kilo.c:130-146 | one loop pass issues, in order, `ESC[31m`, `~`, the banner appends of that row, `ESC[K`, and CR LF unless it is the last row |
| Frame.DrawRows | kilo.c:127-148 | issues the appends of rows 0 to screen_rows - 1 in order |
| Frame.RefreshScreen | kilo.c:150-167 | the staged bytes are those of every append `refreshScreen` issues, less the spans whose `realloc` failed; with no failure they are exactly the frame text. The CUP sequence always fits the 32-byte buffer, so `snprintf` never cuts it. On 19 columns or fewer with at least 3 rows the program as written stages no frame (Findings); there the contract describes the corrected centring |
| Input.ReadsUsed | kilo.c:172-177 | `readKey` never makes more `read` calls than there are outcomes |
| Input.AwaitFirstDecisive | kilo.c:172-179 | the first outcome that is not a timeout or an EAGAIN failure decides: its byte when `read` returned 1, a fatal error otherwise; it is the last `read` made |
| Input.AwaitAllRetried | kilo.c:172-177 | timeouts and EAGAIN failures are retried silently, any number of them |
| Input.AwaitKeyExactly | kilo.c:172-179 | `readKey` returns byte b if and only if some `read` returned b and every earlier one was retried |
| Input.ReadKey | kilo.c:169-180 | the loop returns what `AwaitKey` says, after the number of calls `ReadsUsed` says |
| Input.KeyAfterTimeouts | kilo.c:172-179 | two timeouts and an EAGAIN, then `d`: `d` is returned after four calls |
| Input.FailureIsFinal | kilo.c:174-176 | a failure other than EAGAIN is fatal even when a byte would follow |
| TerminalMode.RawMode | kilo.c:76-87 | raw mode clears BRKINT, ICRNL, INPCK, ISTRIP, IXON, OPOST, ECHO, ICANON, IEXTEN and ISIG, sets CS8, and VMIN 0 and VTIME 1; every other bit is kept |
| TerminalMode.RawModeIdempotent | kilo.c:76-87 | applying raw mode to raw settings changes nothing |
| TerminalMode.SaveCurrentTerminalMode | kilo.c:60-64 | on success the saved copy becomes the device's settings; on failure it is fatal with nothing changed |
| TerminalMode.EnableRawMode | kilo.c:76-91 | on success the device is switched to raw mode and the saved copy is untouched; a failed `tcsetattr` is fatal with nothing changed |
| TerminalMode.RestoreTerminalModeAsWritten | kilo.c:66-70 | as written, the handler leaves the device as it is and overwrites the saved copy with the current settings |
| TerminalMode.RestoreTerminalMode | kilo.c:66-70 | the corrected handler puts the saved settings back on the device and is fatal when that fails |
| TerminalMode.ExitLeavesRawMode | kilo.c:60-91 | as written, a terminal that echoed input is left in raw mode, without echo, after the editor exits |
| TerminalMode.ExitRestoresMode | kilo.c:60-91 | with the corrected handler the terminal gets back exactly the settings it had before the editor started |
| Session.StepOutcomes | kilo.c:239-242 | a loop pass quits exactly on control-Q, is fatal exactly when the read fails, and otherwise keeps the cursor in bounds |
| Session.StepExit | kilo.c:47-58 | a pass that reads control-Q clears the screen and exits with status 0; one whose `read` fails clears it and exits with status 1; every other pass writes nothing more |
| Session.LoopIteration | kilo.c:240-241 | writes the frame for the state before the key, then the state and status are those of dispatching the key `readKey` returns |

## Left out

- The `write` calls of `clearScreen` and `refreshScreen`, and a failing or partial `write`. A frame is the byte sequence staged for its single `write`.
- `realloc` and `free` as memory. Each allocation is a scripted success or failure. `clearBuffer` only frees, so it has no effect to model.
- `perror` and the `exit` call itself. `die` and `exit(0)` become the `Fatal` and `Quit` values, and `ExitOutput` gives what they write first.
- The `ioctl` call. Its reply is a parameter of `InitEditor`.
- The outcomes of `tcgetattr` and `tcsetattr`. They are parameters of the terminal functions.
- Every `termios` field that kilo does not touch.
- `enableRawMode` ignores a failed `tcgetattr`. It then works on uninitialised memory. The model uses the device's current settings.
- The `atexit` registration and the endless `main` loop. The model covers one pass (`LoopIteration`), a run over a finite sequence of keys (`Run`), and the start-up followed by the exit handler (`SessionDevice`).
- Frame.AppendCenteredText: a negative padding emits no blanks. As written the loop does not return then; see Findings.
- Frame.CountdownHangs: the counter `leftPadding` is an unbounded integer. In C it is an `int`: from -1 it reaches `INT_MIN` after about 2^31 passes, and the next `leftPadding--` overflows, which is undefined behaviour. That overflow is not modelled, so "never exits" means "does not exit before the overflow".
- Input.ReadKey: when the outcome script runs out, the result is `StillPolling`. The real loop would go on calling `read` for ever.
- Session.LoopIteration: when the outcome script runs out, the pass reports `Running` with the state unchanged, as if no key had arrived. The real program would still be inside `readKey` and would draw no further frame; a following pass in the model draws one the program never draws.
- Overflow of C `int` in the cursor and screen values. They come from `unsigned short` sizes and stay far below `INT_MAX`, so they are unbounded integers here. The padding counter is the exception; see `Frame.CountdownHangs` above.
- The `char` returned by `readKey` is a byte (`bv8`). Its signedness plays no part in the comparisons.

## Findings

| source | as written | input that shows it | evidently intended | confidence | as-written member | corrected member |
|---|---|---|---|---|---|---|
| kilo.c:105-125 | `while (leftPadding--)` with the untruncated 21-byte quit hint: the padding `(screen_cols - 21) / 2` is negative below 20 columns, and the loop then counts away from zero | a terminal 19 columns wide with at least 3 rows: padding -1, and `drawRows` does not return before `leftPadding` overflows `int` (undefined behaviour); in practice a hang | no padding when the text does not fit (or cutting the hint as the welcome text is cut) | high; not executed | Frame.QuitBannerHangs | Frame.AppendCenteredText |
| kilo.c:66-70, 237 | the exit handler calls `tcgetattr`, which reads the raw settings into `initial_termios` and leaves the device raw | any terminal with ECHO set: after the editor exits it no longer echoes | `tcsetattr(STDIN_FILENO, TCSAFLUSH, &editor_config.initial_termios)` | high; not executed | TerminalMode.ExitLeavesRawMode | TerminalMode.ExitRestoresMode |

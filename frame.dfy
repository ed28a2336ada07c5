/** The screen renderer of kilo: `appendCenteredText`, `appendWelcomeMessage`,
    `appendQuitInstructions`, `drawRows` and the buffer built by
    `refreshScreen`. A frame is staged in an `OutputBuffer` and written with a
    single `write`; the model yields the staged bytes.

    The control sequences are those of ECMA-48: SGR 31 (red foreground,
    section 8.3.117), EL (erase in line, 8.3.41), CUP (cursor position,
    8.3.21), and DEC private mode 25 (cursor visibility). */
module Frame {
  import opened Numeric
  import opened OutputBuffers
  import opened Editor

  const HIDE_CURSOR: string := "\U{1B}[?25l"
  const CURSOR_HOME: string := "\U{1B}[H"
  const RED: string := "\U{1B}[31m"
  const ROW_MARKER: string := "~"
  const ERASE_LINE: string := "\U{1B}[K"
  const CRLF: string := "\r\n"
  const SHOW_CURSOR: string := "\U{1B}[?25h"

  const KILO_VERSION: string := "0.0.1"
  /** What `snprintf` formats into the 80-byte `welcome` array. */
  const WELCOME: string := "Custom Editor -- version " + KILO_VERSION
  const QUIT_HINT: string := "Press ctrl+q to quit!"

  /** The banner strings and their lengths; the welcome text fits the 80-byte
      array, so `snprintf` never truncates it. */
  lemma BannerLengths()
    ensures |WELCOME| == 30 < 80 && |QUIT_HINT| == 21
  {
  }

  // ---------------------------------------------------------------------
  // Centering

  /** `leftPadding` as computed in `appendCenteredText`, with C's division. */
  function LeftPadding(screenCols: int, length: int): int {
    TruncHalf(screenCols - length)
  }

  /** The padding actually emitted: the computed one, or none when it is
      negative (see `Countdown` for what the source does then). */
  function Padding(screenCols: int, length: int): nat {
    var p := LeftPadding(screenCols, length);
    if p < 0 then 0 else p
  }

  /** `n` appends of a single space. */
  function SpacePieces(n: nat): (pieces: seq<string>)
    ensures |pieces| == n
  {
    if n == 0 then [] else SpacePieces(n - 1) + [" "]
  }

  function Spaces(n: nat): (s: string)
    ensures |s| == n && forall i :: 0 <= i < n ==> s[i] == ' '
  {
    seq(n, _ => ' ')
  }

  /** The appends `appendCenteredText` issues for `text`. */
  function CenteredPieces(text: string, screenCols: int): seq<string> {
    SpacePieces(Padding(screenCols, |text|)) + [text]
  }

  /** What those appends produce when they succeed: the text after the padding. */
  function Centered(text: string, screenCols: int): string {
    Spaces(Padding(screenCols, |text|)) + text
  }

  /** `welcome_length`: the formatted length, cut to the screen width. */
  function WelcomeLength(screenCols: int): int {
    if |WELCOME| > screenCols then screenCols else |WELCOME|
  }

  function WelcomeText(screenCols: int): string
    requires screenCols >= 0
  {
    WELCOME[..WelcomeLength(screenCols)]
  }

  // ---------------------------------------------------------------------
  // The rows and the frame as sequences of appends

  /** The welcome appends of row `y`: only in row `screen_rows / 2`. */
  function WelcomePieces(y: int, screenRows: int, screenCols: int): seq<string>
    requires screenCols >= 0
  {
    if y == screenRows / 2 then CenteredPieces(WelcomeText(screenCols), screenCols) else []
  }

  /** The quit-hint appends of row `y`: only in row `screen_rows / 2 + 1`. */
  function QuitPieces(y: int, screenRows: int, screenCols: int): seq<string>
  {
    if y == screenRows / 2 + 1 then CenteredPieces(QUIT_HINT, screenCols) else []
  }

  /** The line break after row `y`: every row but the last. */
  function BreakPieces(y: int, screenRows: int): seq<string>
  {
    if y < screenRows - 1 then [CRLF] else []
  }

  /** The appends for screen row `y` in `drawRows`. */
  function RowPieces(y: int, screenRows: int, screenCols: int): seq<string>
    requires screenCols >= 0
  {
    [RED] + [ROW_MARKER] + WelcomePieces(y, screenRows, screenCols) + QuitPieces(y, screenRows, screenCols)
    + [ERASE_LINE] + BreakPieces(y, screenRows)
  }

  /** The appends for rows `0 .. n-1`. */
  function RowsPieces(n: int, screenRows: int, screenCols: int): seq<string>
    requires screenCols >= 0
    decreases n
  {
    if n <= 0 then [] else RowsPieces(n - 1, screenRows, screenCols) + RowPieces(n - 1, screenRows, screenCols)
  }

  /** The `ESC[<row>;<col>H` that `snprintf` formats from the cursor, 1-based. */
  function CursorPosition(cursorY: nat, cursorX: nat): string {
    "\U{1B}[" + Decimal(cursorY + 1) + ";" + Decimal(cursorX + 1) + "H"
  }

  /** The cursor of a terminal (at most 65535 by 65535 cells, the range of
      `struct winsize`) formats to at most 14 bytes, so the 32-byte
      `cursorPositionBuffer` never cuts it short; the numbers are the cursor's
      1-based row and column. */
  lemma CursorPositionFits(cursorY: nat, cursorX: nat)
    requires cursorY < 0x1_0000 && cursorX < 0x1_0000
    ensures |CursorPosition(cursorY, cursorX)| <= 14 < 32
    ensures var s := CursorPosition(cursorY, cursorX);
      s[..2] == "\U{1B}[" && s[|s| - 1] == 'H'
  {
    assert Pow10(5) == 100000;
    DecimalLength(cursorY + 1, 5);
    DecimalLength(cursorX + 1, 5);
  }

  /** Every append `refreshScreen` issues, in order. */
  function FramePieces(st: EditorState): seq<string>
    requires InBounds(st)
  {
    [HIDE_CURSOR] + [CURSOR_HOME]
    + RowsPieces(st.screenRows, st.screenRows, st.screenCols)
    + [CursorPosition(st.cursorY, st.cursorX)] + [SHOW_CURSOR]
  }

  // ---------------------------------------------------------------------
  // The frame as text: an independent description by rows

  /** What row `y` shows between its row marker and the line erase. */
  function Banner(y: int, screenRows: int, screenCols: int): string
    requires screenCols >= 0
  {
    if y == screenRows / 2 then Centered(WelcomeText(screenCols), screenCols)
    else if y == screenRows / 2 + 1 then Centered(QUIT_HINT, screenCols)
    else []
  }

  /** Screen row `y`: colour, marker, banner, erase to end of line. */
  function Segment(y: int, screenRows: int, screenCols: int): string
    requires screenCols >= 0
  {
    RED + ROW_MARKER + Banner(y, screenRows, screenCols) + ERASE_LINE
  }

  function Segments(screenRows: nat, screenCols: int): (segs: seq<string>)
    requires screenCols >= 0
    ensures |segs| == screenRows
  {
    seq(screenRows, y => Segment(y, screenRows, screenCols))
  }

  /** The strings of `segs` with `sep` between neighbours and nowhere else. */
  function Join(segs: seq<string>, sep: string): string
  {
    if |segs| == 0 then []
    else if |segs| == 1 then segs[0]
    else Join(segs[..|segs| - 1], sep) + sep + segs[|segs| - 1]
  }

  /** The whole frame: hide the cursor, home, the rows separated by CR LF,
      place the cursor, show it. */
  function FrameText(st: EditorState): string
    requires InBounds(st)
  {
    HIDE_CURSOR + CURSOR_HOME
    + Join(Segments(st.screenRows, st.screenCols), CRLF)
    + CursorPosition(st.cursorY, st.cursorX) + SHOW_CURSOR
  }

  // ---------------------------------------------------------------------
  // The appends produce the frame

  lemma {:induction false} FlattenSpaces(n: nat)
    ensures Flatten(SpacePieces(n)) == Spaces(n)
  {
    if n > 0 {
      FlattenAppend(SpacePieces(n - 1), [" "]);
      FlattenOne(" ");
      FlattenSpaces(n - 1);
      assert Spaces(n) == Spaces(n - 1) + " ";
    }
  }

  lemma FlattenCentered(text: string, screenCols: int)
    ensures Flatten(CenteredPieces(text, screenCols)) == Centered(text, screenCols)
  {
    var n := Padding(screenCols, |text|);
    FlattenAppend(SpacePieces(n), [text]);
    FlattenSpaces(n);
    assert Flatten([text]) == text + Flatten([]);
  }

  lemma FlattenOne(s: string)
    ensures Flatten([s]) == s
  {
    assert Flatten([s]) == s + Flatten([]);
  }

  /** The banner appends of row `y` produce its banner. */
  lemma FlattenBanner(y: int, screenRows: int, screenCols: int)
    requires screenCols >= 0
    ensures Flatten(WelcomePieces(y, screenRows, screenCols) + QuitPieces(y, screenRows, screenCols))
         == Banner(y, screenRows, screenCols)
  {
    var welcome := WelcomePieces(y, screenRows, screenCols);
    var quit := QuitPieces(y, screenRows, screenCols);
    FlattenAppend(welcome, quit);
    if y == screenRows / 2 {
      FlattenCentered(WelcomeText(screenCols), screenCols);
      assert quit == [];
    } else if y == screenRows / 2 + 1 {
      FlattenCentered(QUIT_HINT, screenCols);
    }
  }

  /** The appends for row `y` produce that row, then CR LF unless it is the last. */
  lemma FlattenRow(y: int, screenRows: int, screenCols: int)
    requires screenCols >= 0
    ensures Flatten(RowPieces(y, screenRows, screenCols))
         == Segment(y, screenRows, screenCols) + (if y < screenRows - 1 then CRLF else [])
  {
    var banner := WelcomePieces(y, screenRows, screenCols) + QuitPieces(y, screenRows, screenCols);
    var tail := BreakPieces(y, screenRows);
    var head := [RED] + [ROW_MARKER];
    ConcatAssoc(head, WelcomePieces(y, screenRows, screenCols), QuitPieces(y, screenRows, screenCols));
    assert RowPieces(y, screenRows, screenCols) == head + banner + [ERASE_LINE] + tail;
    FlattenAppend(head + banner + [ERASE_LINE], tail);
    FlattenAppend(head + banner, [ERASE_LINE]);
    FlattenAppend(head, banner);
    FlattenAppend([RED], [ROW_MARKER]);
    FlattenOne(RED);
    FlattenOne(ROW_MARKER);
    FlattenOne(ERASE_LINE);
    FlattenOne(CRLF);
    FlattenBanner(y, screenRows, screenCols);
  }

  /** After the first `n` rows of a screen with more than `n` rows the text is
      those rows joined by CR LF, with the CR LF that precedes row `n`. */
  lemma {:induction false} FlattenRows(n: nat, screenRows: nat, screenCols: int)
    requires screenCols >= 0 && 1 <= n <= screenRows
    ensures Flatten(RowsPieces(n, screenRows, screenCols))
         == Join(Segments(screenRows, screenCols)[..n], CRLF) + (if n < screenRows then CRLF else [])
  {
    var segs := Segments(screenRows, screenCols);
    FlattenAppend(RowsPieces(n - 1, screenRows, screenCols), RowPieces(n - 1, screenRows, screenCols));
    FlattenRow(n - 1, screenRows, screenCols);
    if n == 1 {
      assert RowsPieces(0, screenRows, screenCols) == [];
    } else {
      FlattenRows(n - 1, screenRows, screenCols);
      assert segs[..n][..n - 1] == segs[..n - 1];
    }
  }

  /** The appends of `drawRows` produce the rows joined by CR LF. */
  lemma DrawRowsText(screenRows: nat, screenCols: int)
    requires screenCols >= 0
    ensures Flatten(RowsPieces(screenRows, screenRows, screenCols))
         == Join(Segments(screenRows, screenCols), CRLF)
  {
    var segs := Segments(screenRows, screenCols);
    if screenRows == 0 {
      assert RowsPieces(0, 0, screenCols) == [];
    } else {
      FlattenRows(screenRows, screenRows, screenCols);
      assert segs[..screenRows] == segs;
    }
  }

  /** When every allocation succeeds, the bytes `refreshScreen` stages are
      exactly the frame. */
  lemma FrameRoundTrip(st: EditorState)
    requires InBounds(st)
    ensures Flatten(FramePieces(st)) == FrameText(st)
  {
    var rows := RowsPieces(st.screenRows, st.screenRows, st.screenCols);
    var cup := CursorPosition(st.cursorY, st.cursorX);
    FlattenAppend([HIDE_CURSOR] + [CURSOR_HOME] + rows + [cup], [SHOW_CURSOR]);
    FlattenAppend([HIDE_CURSOR] + [CURSOR_HOME] + rows, [cup]);
    FlattenAppend([HIDE_CURSOR] + [CURSOR_HOME], rows);
    FlattenAppend([HIDE_CURSOR], [CURSOR_HOME]);
    FlattenOne(HIDE_CURSOR);
    FlattenOne(CURSOR_HOME);
    FlattenOne(cup);
    FlattenOne(SHOW_CURSOR);
    DrawRowsText(st.screenRows, st.screenCols);
  }

  // ---------------------------------------------------------------------
  // The shape of a frame

  function TotalLength(segs: seq<string>): nat
  {
    if segs == [] then 0 else TotalLength(segs[..|segs| - 1]) + |segs[|segs| - 1]|
  }

  /** A join of `k >= 1` strings holds their bytes and `k - 1` separators: no
      separator after the last one. */
  lemma {:induction false} JoinLength(segs: seq<string>, sep: string)
    requires |segs| >= 1
    ensures |Join(segs, sep)| == TotalLength(segs) + (|segs| - 1) * |sep|
  {
    if |segs| == 1 {
      assert segs[..0] == [];
    } else {
      JoinLength(segs[..|segs| - 1], sep);
    }
  }

  /** A join starts with its first string and ends with its last one. */
  lemma {:induction false} JoinEnds(segs: seq<string>, sep: string)
    requires |segs| >= 1
    ensures |Join(segs, sep)| >= |segs[0]| && |Join(segs, sep)| >= |segs[|segs| - 1]|
    ensures Join(segs, sep)[..|segs[0]|] == segs[0]
    ensures Join(segs, sep)[|Join(segs, sep)| - |segs[|segs| - 1]|..] == segs[|segs| - 1]
  {
    if |segs| > 1 {
      var init := segs[..|segs| - 1];
      JoinEnds(init, sep);
      assert init[0] == segs[0];
    }
  }

  /** Every row begins with the colour and the row marker and ends with the
      line erase; only rows `screen_rows/2` and `screen_rows/2 + 1` carry
      anything in between. */
  lemma SegmentShape(y: int, screenRows: int, screenCols: int)
    requires screenCols >= 0
    ensures var seg := Segment(y, screenRows, screenCols);
      && |seg| >= 9
      && seg[..6] == "\U{1B}[31m~"
      && seg[|seg| - 3..] == "\U{1B}[K"
      && (screenCols >= 1 ==> (y != screenRows / 2 && y != screenRows / 2 + 1 <==> |seg| == 9))
  {
    var seg := Segment(y, screenRows, screenCols);
    assert seg == RED + ROW_MARKER + Banner(y, screenRows, screenCols) + ERASE_LINE;
    if y == screenRows / 2 + 1 && y != screenRows / 2 {
      assert |Centered(QUIT_HINT, screenCols)| >= 21;
    }
    if y == screenRows / 2 {
      WelcomeBanner(screenCols);
    }
  }

  /** The quit banner has a row of its own exactly when the screen has at
      least three rows; the welcome banner whenever it has one. */
  lemma BannerRowsExist(screenRows: nat)
    ensures screenRows / 2 < screenRows <==> screenRows >= 1
    ensures screenRows / 2 + 1 < screenRows <==> screenRows >= 3
  {
  }

  // ---------------------------------------------------------------------
  // Centering

  /** Whenever the text fits the screen, it is centred: it
      follows `(screen_cols - length) / 2` spaces, leaving the same margin on
      the right or one more. */
  lemma CenteredBalance(text: string, screenCols: int)
    requires |text| <= screenCols
    ensures var c := Centered(text, screenCols); var p := Padding(screenCols, |text|);
      && p == LeftPadding(screenCols, |text|)
      && |c| == p + |text| && c[p..] == text
      && (forall i :: 0 <= i < p ==> c[i] == ' ')
      && 2 * p <= screenCols - |text| <= 2 * p + 1
  {
  }

  /** The welcome banner never needs the negative-padding guard: on any
      screen it is cut to fit, it fits, and on a screen narrower than the
      30-byte text it fills the width exactly. */
  lemma WelcomeBanner(screenCols: int)
    requires screenCols >= 0
    ensures LeftPadding(screenCols, WelcomeLength(screenCols)) >= 0
    ensures |WelcomeText(screenCols)| == if screenCols < 30 then screenCols else 30
    ensures |Centered(WelcomeText(screenCols), screenCols)| <= screenCols
    ensures screenCols < 30 ==> Centered(WelcomeText(screenCols), screenCols) == WELCOME[..screenCols]
  {
    BannerLengths();
    CenteredBalance(WelcomeText(screenCols), screenCols);
  }

  /** The quit banner is not cut to fit: its computed padding is negative
      exactly on screens of fewer than 20 columns (C truncates -1/2 to 0,
      so 20 columns still give padding 0). */
  lemma QuitPaddingSign(screenCols: int)
    ensures LeftPadding(screenCols, |QUIT_HINT|) >= 0 <==> screenCols >= 20
  {
    BannerLengths();
  }

  // ---------------------------------------------------------------------
  // The padding loop as written: `while (leftPadding--)`

  datatype LoopExit = Exited(bodies: nat) | StillLooping

  /** `while (p--) body;` followed for at most `fuel` tests of its condition:
      how many times the body ran before the loop exited, or `StillLooping`
      if it has not exited by then. */
  function Countdown(p: int, fuel: nat): LoopExit
    decreases fuel
  {
    if fuel == 0 then StillLooping
    else if p == 0 then Exited(0)
    else match Countdown(p - 1, fuel - 1)
      case Exited(k) => Exited(k + 1)
      case StillLooping => StillLooping
  }

  /** From a padding `p >= 0` the loop emits exactly `p` spaces. */
  lemma {:induction false} CountdownExits(p: nat, fuel: nat)
    requires fuel > p
    ensures Countdown(p, fuel) == Exited(p)
  {
    if p > 0 {
      CountdownExits(p - 1, fuel - 1);
    }
  }

  /** From a negative padding the loop never exits: the counter only moves
      away from 0. The counter is unbounded here; a C `int` would overflow at
      `INT_MIN` first. */
  lemma {:induction false} CountdownHangs(p: int, fuel: nat)
    requires p < 0
    decreases fuel
    ensures Countdown(p, fuel) == StillLooping
  {
    if fuel > 0 {
      CountdownHangs(p - 1, fuel - 1);
    }
  }

  /** As written, `appendQuitInstructions` does not return on a screen of 19
      or fewer columns (before its counter overflows `int`), e.g. 19: its
      padding is (19 - 21) / 2 = -1. */
  lemma QuitBannerHangs(screenCols: int, fuel: nat)
    requires screenCols <= 19
    ensures LeftPadding(19, |QUIT_HINT|) == -1
    ensures Countdown(LeftPadding(screenCols, |QUIT_HINT|), fuel) == StillLooping
  {
    QuitPaddingSign(screenCols);
    CountdownHangs(LeftPadding(screenCols, |QUIT_HINT|), fuel);
  }

  /** The padding this model emits is what the loop as written emits whenever
      that loop terminates, and zero where it would not. */
  lemma PaddingAgrees(screenCols: int, length: int)
    ensures var p := LeftPadding(screenCols, length);
      && (p >= 0 ==> Countdown(p, p + 1) == Exited(Padding(screenCols, length)))
      && (p < 0 ==> Padding(screenCols, length) == 0)
  {
    var p := LeftPadding(screenCols, length);
    if p >= 0 {
      CountdownExits(p, p + 1);
    }
  }

  // ---------------------------------------------------------------------
  // The composer, appending into the buffer step by step

  /** `appendCenteredText(b, s, length)` on a screen `screen_cols` wide: the
      padding spaces one append at a time, then the text. A negative padding
      is treated as none. */
  method AppendCenteredText(buf: OutputBuffer, s: string, length: int, screenCols: int)
    requires buf.Valid() && 0 <= length <= |s|
    modifies buf
    ensures buf.Valid() && buf.script == old(buf.script)
    ensures buf.requested == old(buf.requested) + CenteredPieces(s[..length], screenCols)
  {
    var leftPadding := TruncHalf(screenCols - length);
    if leftPadding < 0 {
      leftPadding := 0;
    }
    ghost var total := leftPadding;
    while leftPadding != 0
      invariant 0 <= leftPadding <= total
      invariant buf.Valid() && buf.script == old(buf.script)
      invariant buf.requested == old(buf.requested) + SpacePieces(total - leftPadding)
    {
      ConcatAssoc(old(buf.requested), SpacePieces(total - leftPadding), [" "]);
      leftPadding := leftPadding - 1;
      buf.Append(" ", 1);
    }
    ConcatAssoc(old(buf.requested), SpacePieces(total), [s[..length]]);
    buf.Append(s, length);
  }

  /** `appendWelcomeMessage`: the version banner, cut to the screen width,
      centred. */
  method AppendWelcomeMessage(buf: OutputBuffer, screenCols: int)
    requires buf.Valid() && screenCols >= 0
    modifies buf
    ensures buf.Valid() && buf.script == old(buf.script)
    ensures buf.requested == old(buf.requested) + CenteredPieces(WelcomeText(screenCols), screenCols)
  {
    var welcome := "Custom Editor -- version " + KILO_VERSION;
    var welcomeLength := |welcome|;
    if welcomeLength > screenCols {
      welcomeLength := screenCols;
    }
    AppendCenteredText(buf, welcome, welcomeLength, screenCols);
  }

  /** `appendQuitInstructions`: the 21-byte hint, centred, never cut. */
  method AppendQuitInstructions(buf: OutputBuffer, screenCols: int)
    requires buf.Valid()
    modifies buf
    ensures buf.Valid() && buf.script == old(buf.script)
    ensures buf.requested == old(buf.requested) + CenteredPieces(QUIT_HINT, screenCols)
  {
    AppendCenteredText(buf, QUIT_HINT, 21, screenCols);
    assert QUIT_HINT[..21] == QUIT_HINT;
  }

  /** One pass of the loop body of `drawRows`: screen row `y`. */
  method DrawRow(buf: OutputBuffer, y: int, rows: int, cols: int)
    requires buf.Valid() && cols >= 0
    modifies buf
    ensures buf.Valid() && buf.script == old(buf.script)
    ensures buf.requested == old(buf.requested) + RowPieces(y, rows, cols)
  {
    ghost var r0 := buf.requested;
    buf.Append(RED, 5);
    ConcatAssoc(r0, [RED], [ROW_MARKER]);
    buf.Append(ROW_MARKER, 1);
    ghost var done := [RED] + [ROW_MARKER];
    assert buf.requested == r0 + done;
    ConcatAssoc(r0, done, WelcomePieces(y, rows, cols));
    if y == rows / 2 {
      AppendWelcomeMessage(buf, cols);
    } else {
      ConcatEmpty(r0 + done);
    }
    done := done + WelcomePieces(y, rows, cols);
    assert buf.requested == r0 + done;
    ConcatAssoc(r0, done, QuitPieces(y, rows, cols));
    if y == rows / 2 + 1 {
      AppendQuitInstructions(buf, cols);
    } else {
      ConcatEmpty(r0 + done);
    }
    done := done + QuitPieces(y, rows, cols);
    assert buf.requested == r0 + done;
    ConcatAssoc(r0, done, [ERASE_LINE]);
    buf.Append(ERASE_LINE, 3);
    done := done + [ERASE_LINE];
    assert buf.requested == r0 + done;
    ConcatAssoc(r0, done, BreakPieces(y, rows));
    if y < rows - 1 {
      buf.Append(CRLF, 2);
    } else {
      ConcatEmpty(r0 + done);
    }
  }

  /** `drawRows`: one row per screen line, in order. */
  method DrawRows(buf: OutputBuffer, editor: EditorConfig)
    requires buf.Valid() && editor.screenCols >= 0
    modifies buf
    ensures buf.Valid() && buf.script == old(buf.script)
    ensures buf.requested
         == old(buf.requested) + RowsPieces(editor.screenRows, editor.screenRows, editor.screenCols)
  {
    var rows, cols := editor.screenRows, editor.screenCols;
    var y := 0;
    while y < rows
      invariant buf.Valid() && buf.script == old(buf.script)
      invariant 0 <= y && (y <= rows || y == 0)
      invariant buf.requested == old(buf.requested) + RowsPieces(y, rows, cols)
    {
      ConcatAssoc(old(buf.requested), RowsPieces(y, rows, cols), RowPieces(y, rows, cols));
      DrawRow(buf, y, rows, cols);
      y := y + 1;
    }
  }

  /** The buffer `refreshScreen` builds and writes in one `write` call: every
      span it appends, less those whose `realloc` failed; with memory to
      spare, exactly the frame. On a screen of 19 columns or fewer with at
      least 3 rows the program as written never gets this far (see
      `QuitBannerHangs`); there this contract describes the corrected
      centring of `AppendCenteredText`. */
  method RefreshScreen(editor: EditorConfig, grants: seq<bool>) returns (frame: string)
    requires editor.Valid()
    ensures frame == Kept(FramePieces(editor.State()), grants)
    ensures (forall i :: 0 <= i < |grants| ==> grants[i]) ==> frame == FrameText(editor.State())
    ensures |CursorPosition(editor.cursorY, editor.cursorX)| < 32
  {
    CursorPositionFits(editor.cursorY, editor.cursorX);
    var buf := new OutputBuffer(grants);
    assert [] + [HIDE_CURSOR] == [HIDE_CURSOR];
    buf.Append(HIDE_CURSOR, 6);
    buf.Append(CURSOR_HOME, 3);
    DrawRows(buf, editor);
    var cursorPosition := CursorPosition(editor.cursorY, editor.cursorX);
    buf.Append(cursorPosition, |cursorPosition|);
    buf.Append(SHOW_CURSOR, 6);
    frame := buf.content;
    if forall i :: 0 <= i < |grants| ==> grants[i] {
      KeptAllGranted(FramePieces(editor.State()), grants);
      FrameRoundTrip(editor.State());
    }
  }
}

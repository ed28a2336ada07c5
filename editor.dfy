/** kilo's `struct editorConfig` (cursor and screen size), the key dispatch of
    `handleKeypress` and `moveCursor`, and `initEditor`. */
module Editor {

  /** The unrecoverable failures; each ends the process through `die`. */
  datatype Failure = TerminalConfigError | WindowSizeError | ReadError

  /** Where the process stands after a step. `exit(0)` and `die` become the
      `Quit` and `Fatal` values. */
  datatype Status = Running | Quit | Fatal(failure: Failure)

  /** `ESC[2J` then `ESC[H`: what `clearScreen` writes before every exit. */
  const CLEAR_SCREEN: string := "\U{1B}[2J" + "\U{1B}[H"

  /** What the process writes to the terminal as it stops (`clearScreen`, on the
      quit path and inside `die`): erase the whole display (ED 2, section 8.3.39
      of ECMA-48), then move the cursor home; nothing while it keeps running. */
  function ExitOutput(status: Status): (out: string)
    ensures status.Running? <==> out == []
    ensures !status.Running? ==> out == "\U{1B}[2J\U{1B}[H"
  {
    if status.Running? then [] else CLEAR_SCREEN
  }

  /** The process exit status: 0 after `exit(0)`, 1 after `die`. */
  function ExitCode(status: Status): (code: int)
    requires !status.Running?
    ensures code == 0 <==> status.Quit?
    ensures code == 1 <==> status.Fatal?
  {
    if status.Quit? then 0 else 1
  }

  /** `CTRL_KEY(k)`: the byte with the upper three bits of `k` cleared. */
  function CtrlKey(key: bv8): (c: bv8)
    ensures c as int == key as int % 32
  {
    key & 0x1f
  }

  const KEY_UP: bv8 := 0x77     // 'w'
  const KEY_LEFT: bv8 := 0x61   // 'a'
  const KEY_DOWN: bv8 := 0x73   // 's'
  const KEY_RIGHT: bv8 := 0x64  // 'd'
  const KEY_Q: bv8 := 0x71      // 'q'

  predicate IsMoveKey(key: bv8) {
    key == KEY_UP || key == KEY_LEFT || key == KEY_DOWN || key == KEY_RIGHT
  }

  /** The four integers of `editor_config` that the editor reads and writes. */
  datatype EditorState = EditorState(cursorX: int, cursorY: int, screenRows: int, screenCols: int)

  /** The cursor lies on the screen or one cell past its right or bottom edge:
      the bound is the dimension itself, as `moveCursor` enforces it. */
  predicate InBounds(st: EditorState) {
    0 <= st.cursorX <= st.screenCols && 0 <= st.cursorY <= st.screenRows
  }

  /** The state after `moveCursor(key)`. */
  function Moved(st: EditorState, key: bv8): EditorState {
    if key == KEY_UP then
      if st.cursorY != 0 then st.(cursorY := st.cursorY - 1) else st
    else if key == KEY_LEFT then
      if st.cursorX != 0 then st.(cursorX := st.cursorX - 1) else st
    else if key == KEY_DOWN then
      if st.cursorY < st.screenRows then st.(cursorY := st.cursorY + 1) else st
    else if key == KEY_RIGHT then
      if st.cursorX < st.screenCols then st.(cursorX := st.cursorX + 1) else st
    else st
  }

  datatype Dispatch = Dispatch(next: EditorState, status: Status)

  /** The effect of `handleKeypress(key)`. */
  function Dispatched(st: EditorState, key: bv8): Dispatch {
    if IsMoveKey(key) then Dispatch(Moved(st, key), Running)
    else if key == CtrlKey(KEY_Q) then Dispatch(st, Quit)
    else Dispatch(st, Running)
  }

  /** `moveCursor` keeps the cursor within bounds. */
  lemma MovedInBounds(st: EditorState, key: bv8)
    requires InBounds(st)
    ensures InBounds(Moved(st, key))
  {
  }

  /** `moveCursor` moves at most one coordinate, by exactly one cell, and never
      touches the screen size. */
  lemma MovedOneStep(st: EditorState, key: bv8)
    ensures var n := Moved(st, key);
      && n.screenRows == st.screenRows && n.screenCols == st.screenCols
      && (n.cursorX == st.cursorX || n.cursorY == st.cursorY)
      && (n.cursorX - st.cursorX) * (n.cursorX - st.cursorX) <= 1
      && (n.cursorY - st.cursorY) * (n.cursorY - st.cursorY) <= 1
  {
  }

  /** Each movement key in each direction: a step is taken exactly when the
      guard of `moveCursor` allows it. */
  lemma MovedByKey(st: EditorState)
    ensures Moved(st, KEY_UP).cursorY == if st.cursorY != 0 then st.cursorY - 1 else st.cursorY
    ensures Moved(st, KEY_LEFT).cursorX == if st.cursorX != 0 then st.cursorX - 1 else st.cursorX
    ensures Moved(st, KEY_DOWN).cursorY
         == if st.cursorY < st.screenRows then st.cursorY + 1 else st.cursorY
    ensures Moved(st, KEY_RIGHT).cursorX
         == if st.cursorX < st.screenCols then st.cursorX + 1 else st.cursorX
    ensures Moved(st, KEY_UP).cursorX == Moved(st, KEY_DOWN).cursorX == st.cursorX
    ensures Moved(st, KEY_LEFT).cursorY == Moved(st, KEY_RIGHT).cursorY == st.cursorY
  {
  }

  /** Control-Q is byte 0x11; it quits from every state and changes nothing
      else; every byte that is neither it nor a movement key is ignored. */
  lemma DispatchedKeys(st: EditorState, key: bv8)
    ensures CtrlKey(KEY_Q) == 0x11
    ensures Dispatched(st, key).status == Quit <==> key == 0x11
    ensures Dispatched(st, key).status != Quit ==> Dispatched(st, key).status == Running
    ensures !IsMoveKey(key) ==> Dispatched(st, key).next == st
    ensures IsMoveKey(key) ==> Dispatched(st, key).next == Moved(st, key)
  {
  }

  /** The main loop's dispatch of a sequence of keys, stopping at the first
      quit; the statuses of the intermediate steps are all `Running`. */
  function Run(st: EditorState, keys: seq<bv8>): Dispatch
    decreases |keys|
  {
    if keys == [] then Dispatch(st, Running)
    else
      var d := Dispatched(st, keys[0]);
      if d.status.Quit? then d else Run(d.next, keys[1..])
  }

  /** Whatever keys arrive, the cursor stays within `[0, screen_cols]` by
      `[0, screen_rows]`, and the screen size never changes. */
  lemma {:induction false} RunInBounds(st: EditorState, keys: seq<bv8>)
    requires InBounds(st)
    ensures InBounds(Run(st, keys).next)
    ensures Run(st, keys).next.screenRows == st.screenRows
    ensures Run(st, keys).next.screenCols == st.screenCols
    decreases |keys|
  {
    if keys != [] {
      var d := Dispatched(st, keys[0]);
      if !d.status.Quit? {
        MovedInBounds(st, keys[0]);
        RunInBounds(d.next, keys[1..]);
      }
    }
  }

  /** A run stops exactly when a control-Q arrives: it quits if and only if
      one of the keys is 0x11. */
  lemma {:induction false} RunQuits(st: EditorState, keys: seq<bv8>)
    ensures Run(st, keys).status == Quit <==> 0x11 in keys
    ensures Run(st, keys).status != Quit ==> Run(st, keys).status == Running
    decreases |keys|
  {
    if keys != [] {
      var d := Dispatched(st, keys[0]);
      DispatchedKeys(st, keys[0]);
      if !d.status.Quit? {
        RunQuits(d.next, keys[1..]);
        assert keys == [keys[0]] + keys[1..];
      }
    }
  }

  /** On a fresh 24 by 80 session five presses of the right key move the
      cursor five columns. */
  lemma RightFiveTimes()
    ensures Run(EditorState(0, 0, 24, 80), [KEY_RIGHT, KEY_RIGHT, KEY_RIGHT, KEY_RIGHT, KEY_RIGHT]).next.cursorX == 5
  {
    var keys := [KEY_RIGHT, KEY_RIGHT, KEY_RIGHT, KEY_RIGHT, KEY_RIGHT];
    var st := EditorState(0, 0, 24, 80);
    assert Run(st, keys) == Run(st.(cursorX := 1), keys[1..]);
    assert Run(st.(cursorX := 1), keys[1..]) == Run(st.(cursorX := 2), keys[2..]);
    assert Run(st.(cursorX := 2), keys[2..]) == Run(st.(cursorX := 3), keys[3..]);
    assert Run(st.(cursorX := 3), keys[3..]) == Run(st.(cursorX := 4), keys[4..]);
    assert Run(st.(cursorX := 4), keys[4..]) == Run(st.(cursorX := 5), keys[5..]);
  }

  /** On a fresh 24 by 80 session pressing left leaves the cursor at column 0. */
  lemma LeftAtOrigin()
    ensures Run(EditorState(0, 0, 24, 80), [KEY_LEFT]).next.cursorX == 0
  {
  }

  /** What `ioctl(TIOCGWINSZ)` reported: a failure, or the row and column
      counts of `struct winsize` (unsigned short). */
  datatype WindowReply = IoctlFailed | Reported(wsRow: int, wsCol: int)

  predicate WellFormedReply(reply: WindowReply) {
    reply.Reported? ==> 0 <= reply.wsRow < 0x1_0000 && 0 <= reply.wsCol < 0x1_0000
  }

  /** `getWindowSize`: fails when the query fails or reports zero columns. */
  function GetWindowSize(reply: WindowReply): (size: ScreenSize)
    ensures size.Size? <==> reply.Reported? && reply.wsCol != 0
    ensures size.Size? ==> size.rows == reply.wsRow && size.cols == reply.wsCol
  {
    if reply.IoctlFailed? || reply.wsCol == 0 then Unknown else Size(reply.wsRow, reply.wsCol)
  }

  datatype ScreenSize = Unknown | Size(rows: int, cols: int)

  /** The global `editor_config`. */
  class EditorConfig {
    var cursorX: int
    var cursorY: int
    var screenRows: int
    var screenCols: int

    function State(): EditorState
      reads this
    {
      EditorState(cursorX, cursorY, screenRows, screenCols)
    }

    /** The cursor is in bounds, and the screen size is one a `struct
        winsize` (unsigned short) can report. */
    ghost predicate Valid()
      reads this
    {
      InBounds(State()) && screenRows < 0x1_0000 && screenCols < 0x1_0000
    }

    /** A global `struct` starts zero-filled. */
    constructor ()
      ensures State() == EditorState(0, 0, 0, 0)
    {
      cursorX, cursorY, screenRows, screenCols := 0, 0, 0, 0;
    }

    /** `initEditor`: zero the cursor, then take the screen size from the
        terminal; a failed size query is fatal. */
    method InitEditor(reply: WindowReply) returns (status: Status)
      requires WellFormedReply(reply)
      modifies this
      ensures cursorX == 0 && cursorY == 0
      ensures status == Running || status == Fatal(WindowSizeError)
      ensures status == Running <==> GetWindowSize(reply).Size?
      ensures status == Running ==>
        screenRows == reply.wsRow && screenCols == reply.wsCol && 1 <= screenCols && Valid()
      ensures status != Running ==> screenRows == old(screenRows) && screenCols == old(screenCols)
    {
      cursorX := 0;
      cursorY := 0;
      var size := GetWindowSize(reply);
      if size.Unknown? {
        return Fatal(WindowSizeError);
      }
      screenRows, screenCols := size.rows, size.cols;
      status := Running;
    }

    /** `moveCursor(key)`. */
    method MoveCursor(key: bv8)
      modifies this
      ensures State() == Moved(old(State()), key)
      ensures old(Valid()) ==> Valid()
    {
      if key == KEY_UP {
        if cursorY != 0 {
          cursorY := cursorY - 1;
        }
      } else if key == KEY_LEFT {
        if cursorX != 0 {
          cursorX := cursorX - 1;
        }
      } else if key == KEY_DOWN {
        if cursorY < screenRows {
          cursorY := cursorY + 1;
        }
      } else if key == KEY_RIGHT {
        if cursorX < screenCols {
          cursorX := cursorX + 1;
        }
      }
    }

    /** `handleKeypress(key)`: movement keys move the cursor, control-Q quits
        (the screen clear and `exit(0)` are the `Quit` status), all else is
        ignored. */
    method HandleKeypress(key: bv8) returns (status: Status)
      modifies this
      ensures Dispatch(State(), status) == Dispatched(old(State()), key)
      ensures old(Valid()) ==> Valid()
    {
      status := Running;
      if IsMoveKey(key) {
        MoveCursor(key);
      } else if key == CtrlKey(KEY_Q) {
        status := Quit;
      }
    }
  }
}

/** One pass of kilo's main loop: draw the frame, wait for a key, dispatch
    it. The loop itself runs until a key or a failure ends the process. */
module Session {
  import opened OutputBuffers
  import opened Editor
  import opened Frame
  import opened Input

  /** The status after the key read from `outcomes` has been handled in
      state `st`. */
  function StepStatus(st: EditorState, outcomes: seq<ReadOutcome>): Dispatch
  {
    match AwaitKey(outcomes)
    case Key(k) => Dispatched(st, k)
    case ReadFailed => Dispatch(st, Fatal(ReadError))
    case StillPolling => Dispatch(st, Running)
  }

  /** Control-Q ends the session with `Quit`, a failed `read` with a fatal
      error, and everything else leaves it running with the cursor in bounds. */
  lemma StepOutcomes(st: EditorState, outcomes: seq<ReadOutcome>)
    requires InBounds(st)
    ensures StepStatus(st, outcomes).status == Quit <==> AwaitKey(outcomes) == Key(0x11)
    ensures StepStatus(st, outcomes).status == Fatal(ReadError) <==> AwaitKey(outcomes) == ReadFailed
    ensures InBounds(StepStatus(st, outcomes).next)
  {
    if AwaitKey(outcomes).Key? {
      DispatchedKeys(st, AwaitKey(outcomes).key);
      MovedInBounds(st, AwaitKey(outcomes).key);
    }
  }

  /** `refreshScreen(); handleKeypress(readKey());`: the frame written for
      the state before the key, then the state and status after it. */
  method LoopIteration(editor: EditorConfig, grants: seq<bool>, outcomes: seq<ReadOutcome>)
    returns (frame: string, status: Status)
    requires editor.Valid()
    modifies editor
    ensures frame == Kept(FramePieces(old(editor.State())), grants)
    ensures Dispatch(editor.State(), status) == StepStatus(old(editor.State()), outcomes)
    ensures editor.Valid()
  {
    frame := RefreshScreen(editor, grants);
    var key, attempts := ReadKey(outcomes);
    match key {
      case Key(k) =>
        MovedInBounds(editor.State(), k);
        status := editor.HandleKeypress(k);
      case ReadFailed =>
        status := Fatal(ReadError);
      case StillPolling =>
        status := Running;
    }
  }

  /** How a loop pass ends the process: control-Q clears the screen and
      exits with status 0, a failed `read` clears the screen and exits with
      status 1 through `die`, and every other pass writes nothing more and
      keeps running. */
  lemma StepExit(st: EditorState, outcomes: seq<ReadOutcome>)
    ensures var status := StepStatus(st, outcomes).status;
      && (AwaitKey(outcomes) == Key(0x11) ==>
            ExitOutput(status) == "\U{1B}[2J\U{1B}[H" && ExitCode(status) == 0)
      && (AwaitKey(outcomes) == ReadFailed ==>
            ExitOutput(status) == "\U{1B}[2J\U{1B}[H" && ExitCode(status) == 1)
      && (AwaitKey(outcomes) != Key(0x11) && AwaitKey(outcomes) != ReadFailed ==>
            ExitOutput(status) == [])
  {
    if AwaitKey(outcomes).Key? {
      DispatchedKeys(st, AwaitKey(outcomes).key);
    }
  }
}

/** kilo's terminal set-up: `saveCurrentTerminalMode`, `enableRawMode` and the
    exit handler `restoreTerminalMode`. The `termios` settings are values; the
    terminal device and the copy kept in `editor_config.initial_termios` form
    a `TerminalSession`. Whether a `tcgetattr` or `tcsetattr` call succeeds is
    a parameter. The flag values are those of Linux. */
module TerminalMode {
  import opened Editor

  /** The fields of `struct termios` that kilo touches; `vmin` and `vtime` are
      `c_cc[VMIN]` and `c_cc[VTIME]`. */
  datatype Termios = Termios(iflag: bv32, oflag: bv32, cflag: bv32, lflag: bv32, vmin: bv8, vtime: bv8)

  const BRKINT: bv32 := 0x2
  const INPCK: bv32 := 0x10
  const ISTRIP: bv32 := 0x20
  const ICRNL: bv32 := 0x100
  const IXON: bv32 := 0x400
  const OPOST: bv32 := 0x1
  const CS8: bv32 := 0x30
  const ISIG: bv32 := 0x1
  const ICANON: bv32 := 0x2
  const ECHO: bv32 := 0x8
  const IEXTEN: bv32 := 0x8000

  /** The input, output and local flags raw mode switches off. */
  const RAW_IFLAG_OFF: bv32 := BRKINT | ICRNL | INPCK | ISTRIP | IXON
  const RAW_LFLAG_OFF: bv32 := ECHO | ICANON | IEXTEN | ISIG

  /** The settings `enableRawMode` derives from the current ones: the input
      flags are masked twice, as the two statements do, then output
      processing, echo, canonical mode, extended input and signals are turned
      off, 8-bit characters on, and `read` returns after at most a tenth of a
      second with whatever it has. Every other bit is kept. */
  function RawMode(t: Termios): (r: Termios)
    ensures r.iflag & RAW_IFLAG_OFF == 0 && r.iflag & !RAW_IFLAG_OFF == t.iflag & !RAW_IFLAG_OFF
    ensures r.oflag & OPOST == 0 && r.oflag & !OPOST == t.oflag & !OPOST
    ensures r.cflag & CS8 == CS8 && r.cflag & !CS8 == t.cflag & !CS8
    ensures r.lflag & RAW_LFLAG_OFF == 0 && r.lflag & !RAW_LFLAG_OFF == t.lflag & !RAW_LFLAG_OFF
    ensures r.vmin == 0 && r.vtime == 1
  {
    var iflag := t.iflag & !(BRKINT | ICRNL | INPCK | ISTRIP | IXON);
    Termios(iflag & !(ICRNL | IXON), t.oflag & !OPOST, t.cflag | CS8,
            t.lflag & !(ECHO | ICANON | IEXTEN | ISIG), 0, 1)
  }

  /** Raw mode applied to raw settings changes nothing more. */
  lemma RawModeIdempotent(t: Termios)
    ensures RawMode(RawMode(t)) == RawMode(t)
  {
  }

  /** The settings of the terminal device, and the copy the editor keeps. */
  datatype TerminalSession = TerminalSession(device: Termios, saved: Termios)

  datatype Outcome = Outcome(session: TerminalSession, status: Status)

  /** `saveCurrentTerminalMode`: copy the device's settings into
      `initial_termios`; a failed `tcgetattr` is fatal. */
  function SaveCurrentTerminalMode(s: TerminalSession, getOk: bool): (o: Outcome)
    ensures o.status == Running <==> getOk
    ensures o.status != Running ==> o.status == Fatal(TerminalConfigError) && o.session == s
    ensures getOk ==> o.session == TerminalSession(s.device, s.device)
  {
    if getOk then Outcome(s.(saved := s.device), Running)
    else Outcome(s, Fatal(TerminalConfigError))
  }

  /** `enableRawMode`: read the device's settings (the result of that
      `tcgetattr` is not checked), derive raw mode and set it; a failed
      `tcsetattr` is fatal. `initial_termios` is not touched. */
  function EnableRawMode(s: TerminalSession, setOk: bool): (o: Outcome)
    ensures o.status == Running <==> setOk
    ensures o.status != Running ==> o.status == Fatal(TerminalConfigError) && o.session == s
    ensures o.session.saved == s.saved
    ensures setOk ==> o.session.device == RawMode(s.device)
  {
    if setOk then Outcome(s.(device := RawMode(s.device)), Running)
    else Outcome(s, Fatal(TerminalConfigError))
  }

  /** `restoreTerminalMode` as written: it calls `tcgetattr` again, which reads
      the device's current (raw) settings into `initial_termios` and leaves
      the device as it is. */
  function RestoreTerminalModeAsWritten(s: TerminalSession, getOk: bool): (o: Outcome)
    ensures o.session.device == s.device
    ensures o.status == Running <==> getOk
    ensures getOk ==> o.session.saved == s.device
    ensures !getOk ==> o.status == Fatal(TerminalConfigError) && o.session == s
  {
    if getOk then Outcome(s.(saved := s.device), Running)
    else Outcome(s, Fatal(TerminalConfigError))
  }

  /** `restoreTerminalMode` as evidently intended: `tcsetattr` with the saved
      settings puts them back on the device; a failed call is fatal. */
  function RestoreTerminalMode(s: TerminalSession, setOk: bool): (o: Outcome)
    ensures o.status == Running <==> setOk
    ensures o.session.saved == s.saved
    ensures setOk ==> o.session.device == s.saved
    ensures !setOk ==> o.status == Fatal(TerminalConfigError) && o.session == s
  {
    if setOk then Outcome(s.(device := s.saved), Running)
    else Outcome(s, Fatal(TerminalConfigError))
  }

  /** The device's settings after the start-up of `main` and then the exit
      handler, every call succeeding: the handler as written when `asWritten`
      holds, the corrected one otherwise. `initial_termios` starts zero-filled. */
  function SessionDevice(t: Termios, asWritten: bool): Termios
  {
    var s0 := TerminalSession(t, Termios(0, 0, 0, 0, 0, 0));
    var s1 := SaveCurrentTerminalMode(s0, true).session;
    var s2 := EnableRawMode(s1, true).session;
    if asWritten then RestoreTerminalModeAsWritten(s2, true).session.device
    else RestoreTerminalMode(s2, true).session.device
  }

  /** As written, the terminal is left in raw mode after the editor exits:
      from any terminal that echoed input it no longer echoes. */
  lemma ExitLeavesRawMode(t: Termios)
    requires t.lflag & ECHO != 0
    ensures SessionDevice(t, true) == RawMode(t)
    ensures SessionDevice(t, true).lflag & ECHO == 0
    ensures SessionDevice(t, true) != t
  {
    var r := RawMode(t);
    assert r.lflag & ECHO == (r.lflag & RAW_LFLAG_OFF) & ECHO;
  }

  /** With the handler corrected, the terminal gets back exactly the settings
      it had before the editor started, whatever they were. */
  lemma ExitRestoresMode(t: Termios)
    ensures SessionDevice(t, false) == t
  {
  }
}

/** kilo's `readKey`: poll standard input one byte at a time until a byte
    arrives. In raw mode `read` returns after a tenth of a second even when no
    key was pressed, so the loop keeps polling; the outcomes of the successive
    `read` calls are given as a script. */
module Input {

  datatype Errno = EAGAIN | OtherErrno

  /** One call `read(STDIN_FILENO, &c, 1)`: it returned 1 with byte `b`,
      returned 0 (the raw-mode timeout), or returned -1 and set `errno`. */
  datatype ReadOutcome = Got(b: bv8) | NoInput | Failed(errno: Errno)

  /** The result of `readKey`: the byte read, the failure that ends the
      process through `die`, or a script that ran out before either (the real
      loop would still be polling). */
  datatype KeyRead = Key(key: bv8) | ReadFailed | StillPolling

  /** An outcome after which `readKey` silently polls again. */
  predicate Retryable(outcome: ReadOutcome) {
    outcome.NoInput? || outcome == Failed(EAGAIN)
  }

  /** What `readKey` returns when the `read` calls have the given results. */
  function AwaitKey(outcomes: seq<ReadOutcome>): KeyRead
  {
    if outcomes == [] then StillPolling
    else if Retryable(outcomes[0]) then AwaitKey(outcomes[1..])
    else if outcomes[0].Got? then Key(outcomes[0].b)
    else ReadFailed
  }

  /** How many `read` calls `readKey` makes on the same outcomes. */
  function ReadsUsed(outcomes: seq<ReadOutcome>): (n: nat)
    ensures n <= |outcomes|
  {
    if outcomes == [] then 0
    else if Retryable(outcomes[0]) then 1 + ReadsUsed(outcomes[1..])
    else 1
  }

  /** The outcome of the first `read` that is not retried decides the result:
      its byte when it returned 1, a fatal failure when it returned -1 with an
      errno other than EAGAIN; every earlier call was retried. */
  lemma {:induction false} AwaitFirstDecisive(outcomes: seq<ReadOutcome>, i: nat)
    requires i < |outcomes| && !Retryable(outcomes[i])
    requires forall j :: 0 <= j < i ==> Retryable(outcomes[j])
    ensures AwaitKey(outcomes) == if outcomes[i].Got? then Key(outcomes[i].b) else ReadFailed
    ensures ReadsUsed(outcomes) == i + 1
  {
    if i > 0 {
      assert Retryable(outcomes[0]);
      AwaitFirstDecisive(outcomes[1..], i - 1);
    }
  }

  /** While every outcome is retried the loop never stops, whatever the number
      of timeouts and EAGAIN failures. */
  lemma {:induction false} AwaitAllRetried(outcomes: seq<ReadOutcome>)
    requires forall j :: 0 <= j < |outcomes| ==> Retryable(outcomes[j])
    ensures AwaitKey(outcomes) == StillPolling
    ensures ReadsUsed(outcomes) == |outcomes|
  {
    if outcomes != [] {
      assert Retryable(outcomes[0]);
      AwaitAllRetried(outcomes[1..]);
    }
  }

  /** `readKey` yields byte `b` exactly when some call returned `b` and every
      call before it was retried. */
  lemma AwaitKeyExactly(outcomes: seq<ReadOutcome>, b: bv8)
    ensures AwaitKey(outcomes) == Key(b) <==>
      exists i ::
        (0 <= i < |outcomes| && outcomes[i] == Got(b)
         && forall j :: 0 <= j < i ==> Retryable(outcomes[j]))
  {
    if i :| 0 <= i < |outcomes| && outcomes[i] == Got(b) && forall j :: 0 <= j < i ==> Retryable(outcomes[j]) {
      AwaitFirstDecisive(outcomes, i);
    } else if AwaitKey(outcomes) == Key(b) {
      var i := FirstDecisive(outcomes);
      AwaitFirstDecisive(outcomes, i);
    }
  }

  /** The index of the first outcome that is not retried, when there is one. */
  lemma {:induction false} FirstDecisiveExists(outcomes: seq<ReadOutcome>)
    requires AwaitKey(outcomes) != StillPolling
    ensures exists i ::
      (0 <= i < |outcomes| && !Retryable(outcomes[i])
       && forall j :: 0 <= j < i ==> Retryable(outcomes[j]))
  {
    if Retryable(outcomes[0]) {
      FirstDecisiveExists(outcomes[1..]);
      var i :| 0 <= i < |outcomes| - 1 && !Retryable(outcomes[1..][i])
        && forall j :: 0 <= j < i ==> Retryable(outcomes[1..][j]);
      assert forall j :: 0 <= j < i + 1 ==> Retryable(outcomes[j]) by {
        forall j | 0 <= j < i + 1
          ensures Retryable(outcomes[j])
        {
          if j > 0 {
            assert outcomes[j] == outcomes[1..][j - 1];
          }
        }
      }
      assert !Retryable(outcomes[i + 1]);
    } else {
      assert !Retryable(outcomes[0]);
    }
  }

  ghost function FirstDecisive(outcomes: seq<ReadOutcome>): (i: nat)
    requires AwaitKey(outcomes) != StillPolling
    ensures i < |outcomes| && !Retryable(outcomes[i])
    ensures forall j :: 0 <= j < i ==> Retryable(outcomes[j])
  {
    FirstDecisiveExists(outcomes);
    var i :| 0 <= i < |outcomes| && !Retryable(outcomes[i])
      && forall j :: 0 <= j < i ==> Retryable(outcomes[j]);
    i
  }

  /** `readKey()`: read until a call returns one byte; a timeout and an EAGAIN
      failure are retried, any other failure is fatal. `attempts` counts the
      `read` calls made. */
  method ReadKey(outcomes: seq<ReadOutcome>) returns (r: KeyRead, attempts: nat)
    ensures r == AwaitKey(outcomes)
    ensures attempts == ReadsUsed(outcomes)
  {
    attempts := 0;
    while attempts < |outcomes|
      invariant attempts <= |outcomes|
      invariant forall j :: 0 <= j < attempts ==> Retryable(outcomes[j])
    {
      var outcome := outcomes[attempts];
      attempts := attempts + 1;
      if outcome.Failed? && outcome.errno != EAGAIN {
        AwaitFirstDecisive(outcomes, attempts - 1);
        return ReadFailed, attempts;
      }
      if outcome.Got? {
        AwaitFirstDecisive(outcomes, attempts - 1);
        return Key(outcome.b), attempts;
      }
    }
    AwaitAllRetried(outcomes);
    r := StillPolling;
  }

  /** Three empty polls, the second an EAGAIN failure, then the `d` key: the
      key is returned after four calls. */
  lemma KeyAfterTimeouts()
    ensures AwaitKey([NoInput, Failed(EAGAIN), NoInput, Got(0x64)]) == Key(0x64)
    ensures ReadsUsed([NoInput, Failed(EAGAIN), NoInput, Got(0x64)]) == 4
  {
    var outcomes := [NoInput, Failed(EAGAIN), NoInput, Got(0x64)];
    AwaitFirstDecisive(outcomes, 3);
  }

  /** A failure other than EAGAIN is fatal even when a byte would have
      followed it. */
  lemma FailureIsFinal(b: bv8)
    ensures AwaitKey([NoInput, Failed(OtherErrno), Got(b)]) == ReadFailed
  {
    AwaitFirstDecisive([NoInput, Failed(OtherErrno), Got(b)], 1);
  }
}

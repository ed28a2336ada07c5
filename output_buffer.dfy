/** kilo's `struct outputBuffer` and `appendBuffer`: a byte buffer that grows in
    place by `realloc`, and that silently drops an append whose `realloc` fails.

    Whether a `realloc` succeeds is outside the program. The model hands each
    buffer a script of outcomes, `grants`, one per future append (`true`: the
    block grew; `false`: `realloc` returned NULL); once the script is used up
    every further append succeeds. */
module OutputBuffers {

  /** Outcome of the next `realloc` under a script. */
  predicate Granted(grants: seq<bool>) {
    grants == [] || grants[0]
  }

  /** The script left after `n` appends. */
  function Skip(grants: seq<bool>, n: nat): (rest: seq<bool>)
    ensures |rest| == if n < |grants| then |grants| - n else 0
  {
    if n < |grants| then grants[n..] else []
  }

  /** The bytes of all requested spans, in order, as if every append succeeds. */
  function Flatten(pieces: seq<string>): string
  {
    if pieces == [] then [] else pieces[0] + Flatten(pieces[1..])
  }

  /** The bytes a buffer holds after appending `pieces` in order, starting empty,
      when the `realloc` outcomes follow `grants`: a refused span is dropped and
      the following ones are still appended. */
  function Kept(pieces: seq<string>, grants: seq<bool>): string
  {
    if pieces == [] then []
    else (if Granted(grants) then pieces[0] else []) + Kept(pieces[1..], Skip(grants, 1))
  }

  lemma SkipSkip(grants: seq<bool>, n: nat)
    ensures Skip(Skip(grants, n), 1) == Skip(grants, n + 1)
  {
  }

  /** Appending one more span adds that span, or nothing when its `realloc` fails. */
  lemma {:induction false} KeptSnoc(pieces: seq<string>, piece: string, grants: seq<bool>)
    ensures Kept(pieces + [piece], grants)
         == Kept(pieces, grants) + (if Granted(Skip(grants, |pieces|)) then piece else [])
  {
    if pieces == [] {
      assert [] + [piece] == [piece];
    } else {
      assert (pieces + [piece])[1..] == pieces[1..] + [piece];
      KeptSnoc(pieces[1..], piece, Skip(grants, 1));
      SkipSkip(grants, 0);
      assert Skip(grants, 0) == grants;
      SkipOfSkip(grants, 1, |pieces| - 1);
    }
  }

  lemma SkipOfSkip(grants: seq<bool>, m: nat, n: nat)
    ensures Skip(Skip(grants, m), n) == Skip(grants, m + n)
  {
  }

  /** Appending `p` and then `q` holds the same bytes as appending `p + q`
      (the pieces themselves are not merged: each still needs its own
      `realloc`). */
  lemma {:induction false} FlattenAppend(p: seq<string>, q: seq<string>)
    ensures Flatten(p + q) == Flatten(p) + Flatten(q)
  {
    if p == [] {
      assert p + q == q;
    } else {
      assert (p + q)[1..] == p[1..] + q;
      FlattenAppend(p[1..], q);
    }
  }

  lemma ConcatAssoc<T>(a: seq<T>, b: seq<T>, c: seq<T>)
    ensures (a + b) + c == a + (b + c)
  {
  }

  lemma ConcatEmpty<T>(a: seq<T>)
    ensures a + [] == a
  {
  }

  /** When every `realloc` succeeds nothing is dropped. */
  lemma {:induction false} KeptAllGranted(pieces: seq<string>, grants: seq<bool>)
    requires forall i :: 0 <= i < |grants| ==> grants[i]
    ensures Kept(pieces, grants) == Flatten(pieces)
  {
    if pieces != [] {
      KeptAllGranted(pieces[1..], Skip(grants, 1));
    }
  }

  /** Whatever fails, the buffer never holds more than was requested. */
  lemma {:induction false} KeptBounded(pieces: seq<string>, grants: seq<bool>)
    ensures |Kept(pieces, grants)| <= |Flatten(pieces)|
  {
    if pieces != [] {
      KeptBounded(pieces[1..], Skip(grants, 1));
    }
  }

  class OutputBuffer {
    /** The `length` bytes at `start`. */
    var content: string
    /** Outcomes of the `realloc` calls still to come. */
    var grants: seq<bool>
    /** Every span passed to `Append` so far, granted or not. */
    ghost var requested: seq<string>
    /** The outcome script the buffer was created with. */
    ghost var script: seq<bool>

    ghost predicate Valid()
      reads this
    {
      && content == Kept(requested, script)
      && grants == Skip(script, |requested|)
    }

    function Length(): int
      reads this
    {
      |content|
    }

    /** `EMPTY_OUTPUT_BUFFER`: no storage and length 0. */
    constructor (grants: seq<bool>)
      ensures Valid() && content == [] && requested == [] && script == grants
    {
      content := [];
      this.grants := grants;
      requested := [];
      script := grants;
    }

    /** `appendBuffer(b, s, length)`: on success the buffer holds its old bytes
        followed by `s[0..length)`; when `realloc` fails it is left as it was. */
    method Append(s: string, length: int)
      requires Valid() && 0 <= length <= |s|
      modifies this
      ensures Valid() && script == old(script)
      ensures requested == old(requested) + [s[..length]]
      ensures length == |s| ==> requested == old(requested) + [s]
      ensures Granted(old(grants)) ==> content == old(content) + s[..length]
      ensures !Granted(old(grants)) ==> content == old(content)
      ensures Granted(old(grants)) ==> Length() == old(Length()) + length
    {
      var grown := Granted(grants);
      assert length == |s| ==> s[..length] == s;
      KeptSnoc(requested, s[..length], script);
      SkipSkip(script, |requested|);
      requested := requested + [s[..length]];
      grants := Skip(grants, 1);
      if !grown {
        return;
      }
      content := content + s[..length];
    }
  }

  /** Appending `a` and then `b` to an empty buffer leaves the same bytes as
      appending `a + b` once, when memory is available. */
  method AppendSplitEqualsWhole(a: string, b: string) returns (split: string, whole: string)
    ensures split == whole == a + b
  {
    var first := new OutputBuffer([]);
    first.Append(a, |a|);
    first.Append(b, |b|);
    split := first.content;
    var second := new OutputBuffer([]);
    second.Append(a + b, |a + b|);
    whole := second.content;
    assert a[..|a|] == a && b[..|b|] == b && (a + b)[..|a + b|] == a + b;
  }
}

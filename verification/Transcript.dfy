/** The bounded transcript of terminal output, read by cursor. */
module Transcript {
  import opened Wrappers

  type Byte = b: nat | b < 256

  /** The retained bytes and the position of the first of them in all output so far. */
  datatype Buffer = Buffer(start: nat, bytes: seq<Byte>)

  function Head(t: Buffer): nat {
    t.start + |t.bytes|
  }

  function SnapshotBytes(t: Buffer, maxBytes: nat): seq<Byte> {
    t.bytes[|t.bytes| - Min(|t.bytes|, maxBytes)..]
  }

  function Max(a: nat, b: nat): nat {
    if a < b then b else a
  }

  /** The next cursor, and the bytes up to it. */
  function BytesSince(t: Buffer, cursor: nat, maxBytes: nat): (r: (nat, seq<Byte>)) {
    var start := Min(Max(cursor, t.start), Head(t));
    var offset := start - t.start;
    var keep := Min(|t.bytes| - offset, maxBytes);
    (start + keep, t.bytes[offset..offset + keep])
  }

  /** The buffer holds the end of the history. */
  ghost predicate Retains(t: Buffer, history: seq<Byte>) {
    t.start <= |history| && t.bytes == history[t.start..]
  }

  /** What is read is the history just before the returned cursor: from where the
      reader was or, if that has been dropped, from what is left. */
  lemma ReadIsHistory(t: Buffer, history: seq<Byte>, cursor: nat, maxBytes: nat)
    requires Retains(t, history) && cursor <= Head(t)
    ensures
      var (next, bytes) := BytesSince(t, cursor, maxBytes);
      && next <= Head(t) == |history| && |bytes| <= maxBytes
      && next - |bytes| == Max(cursor, t.start)
      && bytes == history[next - |bytes|..next]
      && (bytes == [] <==> maxBytes == 0 || cursor == Head(t) || t.bytes == [])
  {
  }

  /** The cursor goes back exactly when it was past the head. */
  lemma CursorAdvancesIff(t: Buffer, cursor: nat, maxBytes: nat)
    ensures BytesSince(t, cursor, maxBytes).0 >= cursor <==> cursor <= Head(t)
  {
  }

  lemma SnapshotIsSuffix(t: Buffer, history: seq<Byte>, maxBytes: nat)
    requires Retains(t, history)
    ensures
      var shot := SnapshotBytes(t, maxBytes);
      && |shot| == Min(|t.bytes|, maxBytes) && |shot| <= |history|
      && shot == history[|history| - |shot|..]
  {
  }

  class TranscriptBuffer {
    var bytes: seq<Byte>
    var start: nat
    ghost var history: seq<Byte>

    ghost function View(): Buffer
      reads this
    {
      Buffer(start, bytes)
    }

    ghost predicate Valid()
      reads this
    {
      Retains(View(), history)
    }

    constructor ()
      ensures Valid() && history == [] && View() == Buffer(0, [])
    {
      bytes, start, history := [], 0, [];
    }

    /** Dropping from the front what exceeds the limit. */
    method Trim(maxBytes: nat)
      requires Valid()
      modifies this`bytes, this`start
      ensures Valid() && |bytes| == Min(old(|bytes|), maxBytes)
    {
      if |bytes| > maxBytes {
        var overflow := |bytes| - maxBytes;
        bytes := bytes[overflow..];
        start := start + overflow;
      }
    }

    /** One chunk of output: all of it enters the history, the limit is kept. */
    method Append(chunk: seq<Byte>, maxBytes: nat)
      requires Valid()
      modifies this
      ensures Valid() && history == old(history) + chunk
      ensures View() == Appended(old(View()), chunk, maxBytes)
    {
      bytes := bytes + chunk;
      history := history + chunk;
      Trim(maxBytes);
    }
  }

  function Appended(t: Buffer, chunk: seq<Byte>, maxBytes: nat): (u: Buffer)
    ensures |u.bytes| <= maxBytes && Head(u) == Head(t) + |chunk|
  {
    var all := t.bytes + chunk;
    var overflow := SatSub(|all|, maxBytes);
    Buffer(t.start + overflow, all[overflow..])
  }

  lemma AppendedRetains(t: Buffer, history: seq<Byte>, chunk: seq<Byte>, maxBytes: nat)
    requires Retains(t, history)
    ensures Retains(Appended(t, chunk, maxBytes), history + chunk)
  {
  }

  /* ---------- a reader polling while output arrives ---------- */

  datatype Step = Output(chunk: seq<Byte>) | Poll(maxBytes: nat)

  datatype Steps = Done | Then(before: Steps, step: Step)

  /** `skipped` counts the bytes dropped before the reader got to them. */
  datatype Session = Session(buffer: Buffer, history: seq<Byte>, cursor: nat, delivered: seq<Byte>, skipped: nat)

  function Play(first: Session, steps: Steps, limit: nat): Session {
    match steps
    case Done => first
    case Then(before, step) =>
      var s := Play(first, before, limit);
      match step
      case Output(chunk) => s.(buffer := Appended(s.buffer, chunk, limit), history := s.history + chunk)
      case Poll(maxBytes) =>
        var (next, bytes) := BytesSince(s.buffer, s.cursor, maxBytes);
        s.(cursor := next, delivered := s.delivered + bytes,
           skipped := s.skipped + SatSub(s.buffer.start, s.cursor))
  }

  ghost predicate SessionOk(s: Session, from: nat) {
    && Retains(s.buffer, s.history) && from <= s.cursor <= |s.history|
    && |s.delivered| + s.skipped == s.cursor - from
    && (s.skipped == 0 ==> s.delivered == s.history[from..s.cursor])
  }

  lemma PollKeepsSession(s: Session, from: nat, maxBytes: nat)
    requires SessionOk(s, from)
    ensures
      var (next, bytes) := BytesSince(s.buffer, s.cursor, maxBytes);
      SessionOk(s.(cursor := next, delivered := s.delivered + bytes,
                   skipped := s.skipped + SatSub(s.buffer.start, s.cursor)), from)
  {
    ReadIsHistory(s.buffer, s.history, s.cursor, maxBytes);
    var (next, bytes) := BytesSince(s.buffer, s.cursor, maxBytes);
    hide BytesSince, Retains;
    if s.skipped == 0 && s.buffer.start <= s.cursor {
      assert s.history[from..s.cursor] + s.history[s.cursor..next] == s.history[from..next];
    }
  }

  /** Over any polling run, delivered and dropped bytes account for the whole advance
      of the cursor; a reader that keeps up gets the history without a gap. */
  lemma {:induction false} PollingConserves(first: Session, steps: Steps, limit: nat)
    requires Retains(first.buffer, first.history) && first.cursor <= |first.history|
    requires first.delivered == [] && first.skipped == 0
    ensures SessionOk(Play(first, steps, limit), first.cursor)
  {
    match steps
    case Done =>
    case Then(before, step) =>
      PollingConserves(first, before, limit);
      var s := Play(first, before, limit);
      match step
      case Output(chunk) =>
        AppendedRetains(s.buffer, s.history, chunk, limit);
        assert (s.history + chunk)[first.cursor..s.cursor] == s.history[first.cursor..s.cursor];
      case Poll(maxBytes) => PollKeepsSession(s, first.cursor, maxBytes);
  }

  function PollTimes(t: Buffer, cursor: nat, maxBytes: nat, n: nat): nat {
    if n == 0 then cursor else BytesSince(t, PollTimes(t, cursor, maxBytes, n - 1), maxBytes).0
  }

  /** Each poll advances the cursor by all it may return, until the head is reached. */
  lemma {:induction false} PollingAdvances(t: Buffer, cursor: nat, maxBytes: nat, n: nat)
    requires cursor <= Head(t)
    ensures cursor <= PollTimes(t, cursor, maxBytes, n) <= Head(t)
    ensures PollTimes(t, cursor, maxBytes, n) == Head(t) || PollTimes(t, cursor, maxBytes, n) >= cursor + n * maxBytes
  {
    if n > 0 {
      PollingAdvances(t, cursor, maxBytes, n - 1);
      var before := PollTimes(t, cursor, maxBytes, n - 1);
      var next := BytesSince(t, before, maxBytes).0;
      assert next == Head(t) || next >= before + maxBytes;
      assert n * maxBytes == (n - 1) * maxBytes + maxBytes;
    }
  }

  /** So polling reaches the head, within as many polls as there are bytes to it. */
  lemma PollingReachesHead(t: Buffer, cursor: nat, maxBytes: nat, n: nat)
    requires cursor <= Head(t) <= cursor + n && maxBytes >= 1
    ensures PollTimes(t, cursor, maxBytes, n) == Head(t)
  {
    PollingAdvances(t, cursor, maxBytes, n);
    AtLeastOneEach(n, maxBytes);
  }

  lemma AtLeastOneEach(n: nat, m: nat)
    requires m >= 1
    ensures n * m >= n
  {
  }
}

/**
 Whether a connection's messages are parsed as fast as they are received. A wakeup parses four frames at most,
 and the reactor makes no wakeup without bytes to receive; so complete messages can be left waiting in the
 buffer of a connection that falls silent. Exactly when that happens, for every stream and every cutting.
 */
module ConnectionPace {
  import opened BookTypes
  import opened Wire
  import opened Decoder
  import opened Connections
  import opened ConnectionProgress

  /** Frames complete in a stream from its start. */
  function FramesIn(bs: seq<Byte>): nat {
    Decode(AwaitingHeader, bs).frames
  }

  lemma FramesGrow(a: seq<Byte>, b: seq<Byte>)
    ensures FramesIn(a) <= FramesIn(a + b)
  {
    DecodeSplits(AwaitingHeader, a, b);
  }

  /** No complete frame is left in the buffer. */
  predicate NothingWaits(s: System) {
    Decode(s.conn.mode, s.conn.unread).frames == 0
  }

  lemma WaitingIsTheDifference(s: System)
    requires Sound(s)
    ensures FramesIn(s.received) == s.frames + Decode(s.conn.mode, s.conn.unread).frames
  {
  }

  /** A wakeup parses all frames complete by then, or four. */
  lemma StepParses(s: System, arriving: seq<Byte>)
    requires Sound(s)
    ensures var s' := Step(s, arriving);
            && Sound(s') && s'.frames == Min(s.frames + 4, FramesIn(s'.received))
  {
    var s' := Step(s, arriving);
    StepKeepsSound(s, arriving);
    var chunk := (s.kernel + arriving)[..Wake(s.conn, s.kernel + arriving).received];
    var whole := Decode(s.conn.mode, s.conn.unread + chunk);
    assert FramesIn(s.received + chunk) == s.frames + whole.frames by {
      WholeFrames(s, chunk);
    }
    TakeThenDecode(MSG_LIMIT_PER_CONN, s.conn.mode, s.conn.unread + chunk);
  }

  lemma WholeFrames(s: System, chunk: seq<Byte>)
    requires Sound(s)
    ensures FramesIn(s.received + chunk) == s.frames + Decode(s.conn.mode, s.conn.unread + chunk).frames
  {
    DecodeSplits(AwaitingHeader, s.received, chunk);
    DecodeSplits(s.conn.mode, s.conn.unread, chunk);
  }

  // ----- runs -----

  /** The connection after the first `k` wakeups of a run. */
  function Upto(arrivals: seq<seq<Byte>>, k: nat): (s: System)
    requires k <= |arrivals|
    ensures ConnOk(s.conn)
  {
    Run(Start([]), arrivals[..k])
  }

  lemma UptoNext(arrivals: seq<seq<Byte>>, k: nat)
    requires k < |arrivals|
    ensures Upto(arrivals, k + 1) == Step(Upto(arrivals, k), arrivals[k])
  {
    assert arrivals[..k + 1] == arrivals[..k] + [arrivals[k]];
    RunThenRun(Start([]), arrivals[..k], [arrivals[k]]);
    RunOne(Upto(arrivals, k), arrivals[k]);
  }

  lemma RunOne(s: System, arriving: seq<Byte>)
    requires ConnOk(s.conn)
    ensures Run(s, [arriving]) == Step(s, arriving)
  {
    assert [arriving][1..] == [];
  }

  lemma UptoIsSound(arrivals: seq<seq<Byte>>, k: nat)
    requires k <= |arrivals|
    ensures Sound(Upto(arrivals, k))
  {
    ReachedFromStart(arrivals[..k]);
  }

  /** Frames complete in what the first `k` wakeups received. */
  function Complete(arrivals: seq<seq<Byte>>, k: nat): nat
    requires k <= |arrivals|
  {
    FramesIn(Upto(arrivals, k).received)
  }

  /** The most frames that can have been parsed after `n` wakeups, by what was complete after the first `k`. */
  function Ceiling(arrivals: seq<seq<Byte>>, k: nat, n: nat): int
    requires k <= n <= |arrivals|
  {
    Complete(arrivals, k) + 4 * (n - k)
  }

  /** Frames parsed after `n` wakeups are the least of these ceilings. */
  lemma {:induction false} ParsedExactly(arrivals: seq<seq<Byte>>, n: nat)
    requires n <= |arrivals|
    ensures forall k :: 0 <= k <= n ==> Upto(arrivals, n).frames <= Ceiling(arrivals, k, n)
    ensures exists k :: 0 <= k <= n && Upto(arrivals, n).frames == Ceiling(arrivals, k, n)
    decreases n
  {
    if n == 0 {
      assert arrivals[..0] == [];
      assert Upto(arrivals, 0).frames == Ceiling(arrivals, 0, 0);
    } else {
      ParsedExactly(arrivals, n - 1);
      ParsedNext(arrivals, n - 1);
      var before, now := Upto(arrivals, n - 1).frames, Upto(arrivals, n).frames;
      forall k | 0 <= k <= n
        ensures now <= Ceiling(arrivals, k, n)
      {
        assert k < n ==> Ceiling(arrivals, k, n) == Ceiling(arrivals, k, n - 1) + MSG_LIMIT_PER_CONN;
      }
      if now == Complete(arrivals, n) {
        assert now == Ceiling(arrivals, n, n);
      } else {
        var k :| 0 <= k <= n - 1 && before == Ceiling(arrivals, k, n - 1);
        assert now == Ceiling(arrivals, k, n);
      }
    }
  }

  lemma ParsedNext(arrivals: seq<seq<Byte>>, n: nat)
    requires n < |arrivals|
    ensures Upto(arrivals, n + 1).frames ==
            Min(Upto(arrivals, n).frames + MSG_LIMIT_PER_CONN, Complete(arrivals, n + 1))
  {
    UptoNext(arrivals, n);
    UptoIsSound(arrivals, n);
    StepParses(Upto(arrivals, n), arrivals[n]);
  }

  /**
   Counting back from the end: no stretch of last wakeups completes more than four frames for each of them.
   The condition is about the stream and where its receptions cut it.
   */
  predicate KeepsPace(arrivals: seq<seq<Byte>>) {
    forall k :: 0 <= k <= |arrivals| ==>
      Complete(arrivals, |arrivals|) <= Ceiling(arrivals, k, |arrivals|)
  }

  /** After a run nothing complete is left in the buffer if and only if its receptions keep pace. */
  lemma NothingWaitsExactly(arrivals: seq<seq<Byte>>)
    ensures NothingWaits(Run(Start([]), arrivals)) <==> KeepsPace(arrivals)
  {
    var n := |arrivals|;
    assert arrivals[..n] == arrivals;
    UptoIsSound(arrivals, n);
    WaitingIsTheDifference(Upto(arrivals, n));
    ParsedExactly(arrivals, n);
    if KeepsPace(arrivals) {
      var k :| 0 <= k <= n && Upto(arrivals, n).frames == Ceiling(arrivals, k, n);
    } else {
      var k :| 0 <= k <= n && Complete(arrivals, n) > Ceiling(arrivals, k, n);
    }
  }
}

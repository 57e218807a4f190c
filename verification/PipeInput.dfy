/** The bounded pipe that carries a run's standard input from the connection to the command. */
module PipeInput {

  const MAX_QUEUED_PIPE_BYTES := 0x10_0000

  datatype Pipe = Pipe(
    chunks: seq<string>, // accepted and not yet read
    accepted: string, // all bytes of successful writes
    delivered: string, // all bytes read
    closed: bool,
    stopped: bool)

  const NEW_PIPE := Pipe([], "", "", false, false)

  function Joined(chunks: seq<string>): string {
    if chunks == [] then "" else chunks[0] + Joined(chunks[1..])
  }

  function QueuedBytes(s: Pipe): nat {
    |Joined(s.chunks)|
  }

  /** The wait conditions of the two loops. */
  predicate WriterWaits(s: Pipe, p: string) {
    p != "" && !s.closed && !s.stopped && QueuedBytes(s) + |p| > MAX_QUEUED_PIPE_BYTES
  }

  predicate ReaderWaits(s: Pipe) {
    s.chunks == [] && !s.closed && !s.stopped
  }

  /** A write that is past its wait: refused once the pipe is closed or stopped. */
  function Write(s: Pipe, p: string): Pipe {
    if p == "" || s.closed || s.stopped then s
    else s.(chunks := s.chunks + [p], accepted := s.accepted + p)
  }

  /** A read into a buffer of `n` bytes that is past its wait: at most the oldest chunk, or end of input. */
  function Read(s: Pipe, n: nat): Pipe {
    if n == 0 || s.chunks == [] then s
    else if n >= |s.chunks[0]| then s.(chunks := s.chunks[1..], delivered := s.delivered + s.chunks[0])
    else s.(chunks := [s.chunks[0][n..]] + s.chunks[1..], delivered := s.delivered + s.chunks[0][..n])
  }

  function Stop(s: Pipe): Pipe {
    s.(stopped := true, chunks := [])
  }

  datatype Event = Written(p: string) | ReadUpTo(n: nat) | Closed | Stopped

  predicate Possible(s: Pipe, e: Event) {
    match e
    case Written(p) => !WriterWaits(s, p)
    case ReadUpTo(n) => n == 0 || !ReaderWaits(s)
    case _ => true
  }

  function Next(s: Pipe, e: Event): Pipe {
    if !Possible(s, e) then s
    else match e
      case Written(p) => Write(s, p)
      case ReadUpTo(n) => Read(s, n)
      case Closed => s.(closed := true)
      case Stopped => Stop(s)
  }

  function Run(events: seq<Event>): Pipe {
    if events == [] then NEW_PIPE else Next(Run(events[..|events| - 1]), events[|events| - 1])
  }

  ghost predicate PipeInv(s: Pipe) {
    && s.delivered <= s.accepted
    && QueuedBytes(s) <= 0x10_0000
    && (forall c :: c in s.chunks ==> c != "")
    && (!s.stopped ==> s.accepted == s.delivered + Joined(s.chunks))
    && (s.stopped ==> s.chunks == [])
  }

  lemma {:induction false} JoinedMore(chunks: seq<string>, p: string)
    ensures Joined(chunks + [p]) == Joined(chunks) + p
  {
    if chunks == [] {
      assert [p][1..] == [];
    } else {
      assert (chunks + [p])[1..] == chunks[1..] + [p];
      JoinedMore(chunks[1..], p);
    }
  }

  lemma WriteKeeps(s: Pipe, p: string)
    requires PipeInv(s) && !WriterWaits(s, p)
    ensures PipeInv(Write(s, p))
  {
    JoinedMore(s.chunks, p);
    assert s.delivered + (Joined(s.chunks) + p) == s.delivered + Joined(s.chunks) + p;
    hide Joined;
  }

  lemma ReadKeeps(s: Pipe, n: nat)
    requires PipeInv(s)
    ensures PipeInv(Read(s, n))
  {
    if n > 0 && s.chunks != [] {
      var first, rest, t := s.chunks[0], s.chunks[1..], Read(s, n);
      assert first in s.chunks;
      assert forall c :: c in rest ==> c in s.chunks;
      assert s.accepted == s.delivered + (first + Joined(rest));
      if n < |first| {
        assert t.chunks[1..] == rest;
        assert Joined(t.chunks) == first[n..] + Joined(rest);
        assert first == first[..n] + first[n..];
        assert s.accepted == t.delivered + Joined(t.chunks);
      } else {
        assert t.chunks == rest;
        assert s.accepted == t.delivered + Joined(t.chunks);
      }
    }
  }

  lemma NextKeeps(s: Pipe, e: Event)
    requires PipeInv(s)
    ensures PipeInv(Next(s, e))
  {
    match e
    case Written(p) =>
      if !WriterWaits(s, p) {
        WriteKeeps(s, p);
      }
    case ReadUpTo(n) => ReadKeeps(s, n);
    case Closed =>
    case Stopped =>
  }

  /**
   After any writes, reads, close and stop in any order: what was read is a prefix of what was
   accepted, the unread bytes are within the limit, and until a stop nothing is lost.
   */
  lemma {:induction false} PipeAlways(events: seq<Event>)
    ensures PipeInv(Run(events))
  {
    if events != [] {
      PipeAlways(events[..|events| - 1]);
      NextKeeps(Run(events[..|events| - 1]), events[|events| - 1]);
      hide Next, PipeInv;
    }
  }

  // ---- What the calls handed over ----

  /** The texts of the writes that could go on when they came, up to the first close or stop. */
  function Offered(events: seq<Event>): string {
    if events == [] then ""
    else
      var front, last := events[..|events| - 1], events[|events| - 1];
      Offered(front) +
      if last.Written? && Possible(Run(front), last) && Closed !in front && Stopped !in front then last.p else ""
  }

  lemma {:induction false} EndedBy(events: seq<Event>)
    ensures Run(events).closed <==> Closed in events
    ensures Run(events).stopped <==> Stopped in events
  {
    if events != [] {
      EndedBy(events[..|events| - 1]);
      assert events == events[..|events| - 1] + [events[|events| - 1]];
    }
    hide WriterWaits, ReaderWaits, Run;
  }

  /** What counts as accepted is exactly what writes handed over before the pipe was closed or stopped. */
  lemma {:induction false} AcceptedIsOffered(events: seq<Event>)
    ensures Run(events).accepted == Offered(events)
  {
    if events != [] {
      var front, last := events[..|events| - 1], events[|events| - 1];
      AcceptedIsOffered(front);
      EndedBy(front);
      assert Run(events) == Next(Run(front), last);
    }
    hide WriterWaits, ReaderWaits, Run;
  }

  /** Until a stop, what was read is exactly the front of what was handed over, and the rest still waits. */
  lemma NothingLost(events: seq<Event>)
    ensures var s := Run(events);
            && s.delivered <= Offered(events)
            && (Stopped !in events ==> Offered(events) == s.delivered + Joined(s.chunks))
            && (Closed in events && Stopped !in events && s.chunks == [] ==> s.delivered == Offered(events))
  {
    PipeAlways(events);
    AcceptedIsOffered(events);
    EndedBy(events);
    hide Run, Offered;
  }

  /** A reader that sees the end of a pipe that was closed and not stopped has read all of it. */
  lemma EndMeansAll(events: seq<Event>)
    ensures var s := Run(events);
            s.closed && !s.stopped && s.chunks == [] ==> s.delivered == s.accepted
  {
    PipeAlways(events);
    hide Run;
  }

  lemma BothWait(s: Pipe, p: string)
    requires WriterWaits(s, p) && ReaderWaits(s)
    ensures |p| > 0x10_0000
  {
    assert Joined(s.chunks) == "";
  }

  /** A writer and the reader can wait for each other exactly when the write is larger than the pipe. */
  lemma DeadlockIffTooLarge(p: string)
    ensures (exists events :: WriterWaits(Run(events), p) && ReaderWaits(Run(events))) <==> |p| > 0x10_0000
  {
    if |p| > MAX_QUEUED_PIPE_BYTES {
      assert Run([]) == NEW_PIPE;
      assert WriterWaits(Run([]), p) && ReaderWaits(Run([]));
    }
    hide Run;
    forall events | WriterWaits(Run(events), p) && ReaderWaits(Run(events))
      ensures |p| > 0x10_0000
    {
      BothWait(Run(events), p);
    }
  }

  /** A read that does not wait always makes progress, and never returns more than it was asked for. */
  lemma ReadProgress(s: Pipe, n: nat)
    requires PipeInv(s) && n > 0 && !ReaderWaits(s)
    ensures var got := |Read(s, n).delivered| - |s.delivered|;
            && 0 <= got <= n
            && (got == 0 <==> s.chunks == [])
            && QueuedBytes(Read(s, n)) == QueuedBytes(s) - got
  {
    ReadKeeps(s, n);
    if s.chunks != [] {
      assert s.chunks[0] in s.chunks;
      assert |s.accepted| == |s.delivered| + QueuedBytes(s);
      assert !s.stopped && |Read(s, n).accepted| == |Read(s, n).delivered| + QueuedBytes(Read(s, n));
    }
    hide Joined;
  }

  // ---- The pipe object ----

  class PipeInputForwarding {
    var queue: seq<string>
    var head: nat
    var queuedBytes: int
    var closed: bool
    var stopped: bool
    ghost var pipe: Pipe

    ghost predicate Valid()
      reads this
    {
      && head <= |queue| && queue[head..] == pipe.chunks
      && queuedBytes == QueuedBytes(pipe)
      && closed == pipe.closed && stopped == pipe.stopped
    }

    constructor ()
      ensures Valid() && pipe == NEW_PIPE
    {
      queue, head, queuedBytes, closed, stopped, pipe := [], 0, 0, false, false, NEW_PIPE;
    }

    /** Whether Write has to wait before it may go on with these bytes. */
    method MustWaitToWrite(p: string) returns (wait: bool)
      requires Valid()
      ensures wait <==> WriterWaits(pipe, p)
      ensures wait <==> p != "" && !closed && !stopped && |Joined(pipe.chunks)| + |p| > 0x10_0000
    {
      wait := |p| != 0 && !closed && !stopped && queuedBytes + |p| > MAX_QUEUED_PIPE_BYTES;
    }

    method MustWaitToRead() returns (wait: bool)
      requires Valid()
      ensures wait <==> ReaderWaits(pipe)
      ensures wait <==> pipe.chunks == [] && !closed && !stopped
    {
      assert |queue[head..]| == |pipe.chunks|;
      wait := head == |queue| && !closed && !stopped;
    }

    method WriteBytes(p: string) returns (n: nat, ok: bool)
      requires Valid() && !WriterWaits(pipe, p)
      modifies this
      ensures Valid() && pipe == Write(old(pipe), p)
      ensures closed == old(closed) && stopped == old(stopped)
      ensures ok <==> p == "" || !(closed || stopped)
      ensures n == if ok then |p| else 0
      ensures pipe.accepted == old(pipe.accepted) + if ok then p else ""
    {
      if |p| == 0 {
        return 0, true;
      }
      if closed || stopped {
        return 0, false;
      }
      JoinedMore(pipe.chunks, p);
      queue := queue + [p];
      queuedBytes := queuedBytes + |p|;
      pipe := Write(pipe, p);
      n, ok := |p|, true;
    }

    /** Returns the bytes copied into a buffer of the given size; not ok is end of input. */
    method ReadBytes(size: nat) returns (bytes: string, ok: bool)
      requires Valid() && (size == 0 || !ReaderWaits(pipe))
      modifies this
      ensures Valid() && pipe == Read(old(pipe), size)
      ensures pipe.delivered == old(pipe.delivered) + bytes
      ensures ok <==> size == 0 || old(pipe.chunks) != []
      ensures ok && size > 0 ==> bytes == var first := old(pipe.chunks)[0]; if size < |first| then first[..size] else first
      ensures !ok ==> bytes == ""
    {
      assert |queue[head..]| == |pipe.chunks|;
      if size == 0 {
        return "", true;
      }
      if head == |queue| {
        return "", false;
      }
      var first := queue[head];
      assert first == queue[head..][0] == pipe.chunks[0];
      var n := if size < |first| then size else |first|;
      bytes, ok := first[..n], true;
      ghost var chunks := pipe.chunks;
      pipe := Read(pipe, size);
      if n == |first| {
        queuedBytes := queuedBytes - |first|;
        head := head + 1;
        assert queue[head..] == chunks[1..];
        if head == |queue| {
          queue, head := [], 0;
        }
      } else {
        queue := queue[head := first[n..]];
        assert queue[head..] == [first[n..]] + chunks[1..];
        assert ([first[n..]] + chunks[1..])[1..] == chunks[1..];
        queuedBytes := queuedBytes - n;
      }
    }

    method Close()
      requires Valid()
      modifies this
      ensures Valid() && pipe == old(pipe).(closed := true)
    {
      closed := true;
      pipe := pipe.(closed := true);
    }

    method StopForwarding()
      requires Valid()
      modifies this
      ensures Valid() && pipe == Stop(old(pipe))
    {
      stopped, queue, head, queuedBytes := true, [], 0, 0;
      pipe := Stop(pipe);
    }
  }
}

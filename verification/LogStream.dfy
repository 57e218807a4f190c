/** The bounded queue of log lines streamed to a slow client: it drops old lines, but never silently. */
module LogStream {

  const MAX_QUEUED_BYTES := 0x10_0000
  const MAX_QUEUED_ITEMS := 1024
  const MARKER_BYTES := 47

  function DroppedMarker(): (m: string)
    ensures |m| == MARKER_BYTES
  {
    "rmtx: slow client; older streamed logs dropped\n"
  }

  /** A queued item: the line of the n-th accepted call, or the notice put before it. */
  datatype Slot = Payload(n: nat, text: string) | Marker(n: nat)

  function TextOf(s: Slot): string {
    if s.Marker? then DroppedMarker() else s.text
  }

  function Texts(slots: seq<Slot>): seq<string> {
    seq(|slots|, i requires 0 <= i < |slots| => TextOf(slots[i]))
  }

  function TotalBytes(slots: seq<Slot>): nat {
    if slots == [] then 0 else |TextOf(slots[0])| + TotalBytes(slots[1..])
  }

  /** The newest `limit` bytes. */
  function Newest(text: string, limit: nat): string {
    if |text| > limit then text[|text| - limit..] else text
  }

  /** Drops from the front until `need` more bytes fit and fewer than `items` remain. */
  function Shed(waiting: seq<Slot>, need: nat, items: nat): seq<Slot> {
    if waiting != [] && (TotalBytes(waiting) + need > MAX_QUEUED_BYTES || |waiting| >= items) then Shed(waiting[1..], need, items)
    else waiting
  }

  datatype Stream = Stream(
    waiting: seq<Slot>,
    handed: seq<Slot>, // given to the writer, oldest first
    accepted: seq<string>, // what the calls asked to queue
    closed: bool,
    broken: bool) // a write failed

  const NEW_STREAM := Stream([], [], [], false, false)

  function Enqueue(s: Stream, p: string): Stream {
    if p == [] || s.closed then s
    else
      var n := |s.accepted|;
      var text := Newest(p, MAX_QUEUED_BYTES);
      var kept := Shed(s.waiting, |text|, MAX_QUEUED_ITEMS);
      if |kept| == |s.waiting| then
        s.(waiting := kept + [Payload(n, text)], accepted := s.accepted + [p])
      else
        var rest := Newest(text, MAX_QUEUED_BYTES - MARKER_BYTES);
        var left := Shed(kept, MARKER_BYTES + |rest|, MAX_QUEUED_ITEMS - 1);
        s.(waiting := left + [Marker(n), Payload(n, rest)], accepted := s.accepted + [p])
  }

  function Take(s: Stream): Stream
    requires s.waiting != []
  {
    s.(waiting := s.waiting[1..], handed := s.handed + [s.waiting[0]])
  }

  function Break(s: Stream): Stream {
    s.(waiting := [], closed := true, broken := true)
  }

  datatype Event = Enqueued(p: string) | Taken | WriteFailed | Closed

  function Next(s: Stream, e: Event): Stream {
    match e
    case Enqueued(p) => Enqueue(s, p)
    case Taken => if s.waiting == [] then s else Take(s)
    case WriteFailed => Break(s)
    case Closed => s.(closed := true)
  }

  function Run(events: seq<Event>): Stream {
    if events == [] then NEW_STREAM else Next(Run(events[..|events| - 1]), events[|events| - 1])
  }

  // ---- What holds after any calls ----

  function Rank(s: Slot): nat {
    if s.Marker? then 2 * s.n else 2 * s.n + 1
  }

  ghost predicate InOrder(slots: seq<Slot>) {
    forall i, j :: 0 <= i < j < |slots| ==> Rank(slots[i]) < Rank(slots[j])
  }

  /** The end of the line, and all of it when it is short enough. */
  predicate EndOf(text: string, p: string) {
    && |text| <= |p| && text == p[|p| - |text|..]
    && (|text| < |p| ==> |text| >= MAX_QUEUED_BYTES - MARKER_BYTES)
  }

  ghost predicate Genuine(slots: seq<Slot>, accepted: seq<string>) {
    forall s :: s in slots ==> s.n < |accepted| && (s.Payload? ==> EndOf(s.text, accepted[s.n]))
  }

  ghost predicate Kept(slots: seq<Slot>, n: nat) {
    exists k :: 0 <= k < |slots| && slots[k].Payload? && slots[k].n == n
  }

  /** Nothing is lost, or one marker is newer than everything lost. */
  ghost predicate Announced(slots: seq<Slot>, count: nat) {
    || (forall n :: 0 <= n < count ==> Kept(slots, n))
    || exists k :: 0 <= k < |slots| && slots[k].Marker? && forall n :: 0 <= n < count && !Kept(slots, n) ==> n < slots[k].n
  }

  ghost predicate StreamInv(s: Stream) {
    && TotalBytes(s.waiting) <= 0x10_0000 && |s.waiting| <= 1024
    && InOrder(s.handed + s.waiting)
    && Genuine(s.handed + s.waiting, s.accepted)
    && (!s.broken ==> Announced(s.handed + s.waiting, |s.accepted|))
    && (s.broken ==> s.closed && s.waiting == [])
  }

  lemma {:induction false} TotalOfSum(a: seq<Slot>, b: seq<Slot>)
    ensures TotalBytes(a + b) == TotalBytes(a) + TotalBytes(b)
  {
    if a == [] {
      assert a + b == b;
    } else {
      assert (a + b)[1..] == a[1..] + b;
      TotalOfSum(a[1..], b);
    }
  }

  lemma {:induction false} ShedFits(waiting: seq<Slot>, need: nat, items: nat)
    requires need <= MAX_QUEUED_BYTES && 0 < items
    ensures TotalBytes(Shed(waiting, need, items)) + need <= MAX_QUEUED_BYTES
    ensures |Shed(waiting, need, items)| < items
    ensures |Shed(waiting, need, items)| <= |waiting|
    ensures Shed(waiting, need, items) == waiting[|waiting| - |Shed(waiting, need, items)|..]
    decreases waiting
  {
    if waiting != [] && (TotalBytes(waiting) + need > MAX_QUEUED_BYTES || |waiting| >= items) {
      ShedFits(waiting[1..], need, items);
    }
  }

  ghost predicate SuffixOf(left: seq<Slot>, waiting: seq<Slot>) {
    |left| <= |waiting| && left == waiting[|waiting| - |left|..]
  }

  /** What an accepted call does: it appends its line, and a marker before it if anything was dropped. */
  ghost predicate Adds(s: Stream, p: string, left: seq<Slot>, text: string, t: Stream) {
    var n := |s.accepted|;
    && SuffixOf(left, s.waiting) && EndOf(text, p)
    && t.handed == s.handed && t.accepted == s.accepted + [p] && t.closed == s.closed && t.broken == s.broken
    && (|| (&& left == s.waiting && t.waiting == left + [Payload(n, text)]
            && TotalBytes(left) + |text| <= MAX_QUEUED_BYTES && |left| < MAX_QUEUED_ITEMS)
        || (&& t.waiting == left + [Marker(n), Payload(n, text)]
            && |left| < |s.waiting|
            && TotalBytes(left) + MARKER_BYTES + |text| <= MAX_QUEUED_BYTES && |left| < MAX_QUEUED_ITEMS - 1))
  }

  lemma NewestEnd(text: string, p: string, limit: nat)
    requires EndOf(text, p) && MAX_QUEUED_BYTES - MARKER_BYTES <= limit
    ensures EndOf(Newest(text, limit), p) && |Newest(text, limit)| <= limit
  {
    if |text| > limit {
      assert text[|text| - limit..] == p[|p| - limit..];
    }
  }

  lemma EnqueueAdds(s: Stream, p: string) returns (left: seq<Slot>, text: string)
    requires p != [] && !s.closed
    ensures Adds(s, p, left, text, Enqueue(s, p))
  {
    hide Shed, EndOf, Newest, TotalBytes, DroppedMarker;
    assert EndOf(p, p) by {
      WholeEnd(p);
    }
    text := Newest(p, MAX_QUEUED_BYTES);
    NewestEnd(p, p, MAX_QUEUED_BYTES);
    ShedFits(s.waiting, |text|, MAX_QUEUED_ITEMS);
    left := Shed(s.waiting, |text|, MAX_QUEUED_ITEMS);
    if |left| != |s.waiting| {
      var kept, full := left, text;
      text := Newest(full, MAX_QUEUED_BYTES - MARKER_BYTES);
      NewestEnd(full, p, MAX_QUEUED_BYTES - MARKER_BYTES);
      ShedFits(kept, MARKER_BYTES + |text|, MAX_QUEUED_ITEMS - 1);
      left := Shed(kept, MARKER_BYTES + |text|, MAX_QUEUED_ITEMS - 1);
    }
  }

  lemma WholeEnd(p: string)
    ensures EndOf(p, p)
  {
  }

  lemma AddsFits(s: Stream, p: string, left: seq<Slot>, text: string, t: Stream)
    requires Adds(s, p, left, text, t)
    ensures TotalBytes(t.waiting) <= MAX_QUEUED_BYTES && |t.waiting| <= MAX_QUEUED_ITEMS
  {
    hide EndOf, SuffixOf, DroppedMarker;
    var n := |s.accepted|;
    TotalOfSum(left, [Payload(n, text)]);
    TotalOfSum(left, [Marker(n), Payload(n, text)]);
    PairBytes(n, text);
    hide TotalBytes;
  }

  lemma PairBytes(n: nat, text: string)
    ensures TotalBytes([Payload(n, text)]) == |text|
    ensures TotalBytes([Marker(n), Payload(n, text)]) == MARKER_BYTES + |text|
  {
    hide DroppedMarker;
    assert [Marker(n), Payload(n, text)][1..] == [Payload(n, text)];
    assert [Payload(n, text)][1..] == [];
  }

  lemma KeepsOrder(handed: seq<Slot>, waiting: seq<Slot>, left: seq<Slot>)
    requires InOrder(handed + waiting) && SuffixOf(left, waiting)
    ensures InOrder(handed + left)
    ensures forall s :: s in handed + left ==> s in handed + waiting
  {
    var cut := |waiting| - |left|;
    var all, base := handed + waiting, handed + left;
    forall k | 0 <= k < |base|
      ensures base[k] == all[if k < |handed| then k else k + cut]
    {
    }
    forall i, j | 0 <= i < j < |base|
      ensures Rank(base[i]) < Rank(base[j])
    {
      var a, b := if i < |handed| then i else i + cut, if j < |handed| then j else j + cut;
      assert base[i] == all[a] && base[j] == all[b];
    }
  }

  lemma AppendInOrder(slots: seq<Slot>, s: Slot)
    requires InOrder(slots) && forall k :: 0 <= k < |slots| ==> Rank(slots[k]) < Rank(s)
    ensures InOrder(slots + [s])
  {
  }

  lemma AppendTwoInOrder(slots: seq<Slot>, n: nat, text: string)
    requires InOrder(slots) && forall s :: s in slots ==> s.n < n
    ensures InOrder(slots + [Payload(n, text)]) && InOrder(slots + [Marker(n), Payload(n, text)])
  {
    assert forall k :: 0 <= k < |slots| ==> slots[k] in slots;
    AppendInOrder(slots, Payload(n, text));
    AppendInOrder(slots, Marker(n));
    AppendInOrder(slots + [Marker(n)], Payload(n, text));
    assert slots + [Marker(n)] + [Payload(n, text)] == slots + [Marker(n), Payload(n, text)];
  }

  lemma AppendGenuine(base: seq<Slot>, accepted: seq<string>, p: string, text: string)
    requires Genuine(base, accepted) && EndOf(text, p)
    ensures Genuine(base + [Payload(|accepted|, text)], accepted + [p])
    ensures Genuine(base + [Marker(|accepted|), Payload(|accepted|, text)], accepted + [p])
  {
    hide EndOf;
  }

  lemma FewerGenuine(all: seq<Slot>, base: seq<Slot>, accepted: seq<string>)
    requires Genuine(all, accepted) && forall s :: s in base ==> s in all
    ensures Genuine(base, accepted)
    ensures forall s :: s in base ==> s.n < |accepted|
  {
    hide EndOf;
  }

  lemma AddsInOrder(s: Stream, p: string, left: seq<Slot>, text: string, t: Stream)
    requires Adds(s, p, left, text, t)
    requires InOrder(s.handed + s.waiting) && Genuine(s.handed + s.waiting, s.accepted)
    ensures InOrder(t.handed + t.waiting) && Genuine(t.handed + t.waiting, t.accepted)
  {
    hide TotalBytes, EndOf, InOrder, SuffixOf, Genuine;
    KeepsOrder(s.handed, s.waiting, left);
    var n, base := |s.accepted|, s.handed + left;
    FewerGenuine(s.handed + s.waiting, base, s.accepted);
    AppendTwoInOrder(base, n, text);
    AppendGenuine(base, s.accepted, p, text);
    assert s.handed + (left + [Payload(n, text)]) == base + [Payload(n, text)];
    assert s.handed + (left + [Marker(n), Payload(n, text)]) == base + [Marker(n), Payload(n, text)];
  }

  /** Without a drop the same lines are missing as before. */
  lemma AppendedAnnounced(all: seq<Slot>, n: nat, text: string)
    requires Announced(all, n)
    ensures Announced(all + [Payload(n, text)], n + 1)
  {
    var now := all + [Payload(n, text)];
    assert now[|all|] == Payload(n, text);
    assert Kept(now, n);
    forall m | 0 <= m < n && Kept(all, m)
      ensures Kept(now, m)
    {
      var k :| 0 <= k < |all| && all[k].Payload? && all[k].n == m;
      assert now[k] == all[k];
    }
    if !(forall m :: 0 <= m < n ==> Kept(all, m)) {
      var k :| 0 <= k < |all| && all[k].Marker? && forall m :: 0 <= m < n && !Kept(all, m) ==> m < all[k].n;
      assert now[k] == all[k];
      hide Kept;
      assert forall m :: 0 <= m < n + 1 && !Kept(now, m) ==> m < now[k].n;
    }
  }

  /** After a drop the new marker is newer than all that can be missing. */
  lemma MarkedAnnounced(base: seq<Slot>, n: nat, text: string)
    ensures Announced(base + [Marker(n), Payload(n, text)], n + 1)
  {
    var now := base + [Marker(n), Payload(n, text)];
    assert now[|base|] == Marker(n) && now[|base| + 1] == Payload(n, text);
    assert Kept(now, n);
  }

  lemma AddsAnnounced(s: Stream, p: string, left: seq<Slot>, text: string, t: Stream)
    requires Adds(s, p, left, text, t) && Announced(s.handed + s.waiting, |s.accepted|)
    ensures Announced(t.handed + t.waiting, |t.accepted|)
  {
    hide Announced, TotalBytes, EndOf, SuffixOf;
    var n := |s.accepted|;
    AppendedAnnounced(s.handed + s.waiting, n, text);
    MarkedAnnounced(s.handed + left, n, text);
    assert s.handed + (s.waiting + [Payload(n, text)]) == s.handed + s.waiting + [Payload(n, text)];
    assert s.handed + (left + [Marker(n), Payload(n, text)]) == s.handed + left + [Marker(n), Payload(n, text)];
  }

  lemma EnqueueKeeps(s: Stream, p: string)
    requires StreamInv(s)
    ensures StreamInv(Enqueue(s, p))
  {
    if p != [] && !s.closed {
      var left, text := EnqueueAdds(s, p);
      var t := Enqueue(s, p);
      hide Enqueue, TotalBytes, InOrder, Genuine, Announced, EndOf, SuffixOf;
      AddsFits(s, p, left, text, t);
      AddsInOrder(s, p, left, text, t);
      AddsAnnounced(s, p, left, text, t);
    }
  }

  lemma TakeKeeps(s: Stream)
    requires StreamInv(s) && s.waiting != []
    ensures StreamInv(Take(s))
  {
    hide DroppedMarker, InOrder, Genuine, Announced;
    assert Take(s).handed + Take(s).waiting == s.handed + s.waiting;
  }

  lemma BreakKeeps(s: Stream)
    requires StreamInv(s)
    ensures StreamInv(Break(s))
  {
    hide Announced, InOrder, DroppedMarker, EndOf;
    KeepsOrder(s.handed, s.waiting, []);
    assert s.handed + [] == s.handed;
  }

  lemma NextKeeps(s: Stream, e: Event)
    requires StreamInv(s)
    ensures StreamInv(Next(s, e))
  {
    match e
    case Enqueued(p) => EnqueueKeeps(s, p);
    case Taken =>
      if s.waiting != [] {
        TakeKeeps(s);
      }
    case WriteFailed => BreakKeeps(s);
    case Closed =>
      hide TotalBytes, InOrder, Genuine, Announced;
  }

  // ---- Markers tell the truth ----

  /** Every marker is newer than some line that is missing. */
  ghost predicate MarkersTrue(slots: seq<Slot>) {
    forall k :: 0 <= k < |slots| && slots[k].Marker? ==> exists n :: 0 <= n < slots[k].n && !Kept(slots, n)
  }

  /** A dropped slot is a lost line, or a marker for an older loss. */
  lemma DropLoses(all: seq<Slot>, handed: seq<Slot>, waiting: seq<Slot>, left: seq<Slot>, count: nat) returns (n: nat)
    requires all == handed + waiting && InOrder(all) && MarkersTrue(all)
    requires SuffixOf(left, waiting) && |left| < |waiting| && forall s :: s in all ==> s.n < count
    ensures n < count && !Kept(handed + left, n)
  {
    var cut := |waiting| - |left|;
    var gone := all[|handed|];
    assert gone in all;
    if gone.Marker? {
      n :| 0 <= n < gone.n && !Kept(all, n);
      KeptByMore(all, handed, waiting, left, n);
    } else {
      n := gone.n;
      forall k | 0 <= k < |handed + left| && (handed + left)[k].Payload?
        ensures (handed + left)[k].n != n
      {
        var a := if k < |handed| then k else k + cut;
        assert (handed + left)[k] == all[a] && a != |handed|;
        assert Rank(all[a]) != Rank(gone);
      }
    }
  }

  lemma KeptByMore(all: seq<Slot>, handed: seq<Slot>, waiting: seq<Slot>, left: seq<Slot>, n: nat)
    requires all == handed + waiting && SuffixOf(left, waiting)
    ensures Kept(handed + left, n) ==> Kept(all, n)
  {
    if k :| 0 <= k < |handed + left| && (handed + left)[k].Payload? && (handed + left)[k].n == n {
      var a := if k < |handed| then k else k + |waiting| - |left|;
      assert (handed + left)[k] == all[a];
    }
  }

  lemma MarkersAfterDrop(all: seq<Slot>, handed: seq<Slot>, waiting: seq<Slot>, left: seq<Slot>)
    requires all == handed + waiting && MarkersTrue(all) && SuffixOf(left, waiting)
    ensures MarkersTrue(handed + left)
  {
    var base := handed + left;
    forall k | 0 <= k < |base| && base[k].Marker?
      ensures exists n :: 0 <= n < base[k].n && !Kept(base, n)
    {
      var a := if k < |handed| then k else k + |waiting| - |left|;
      assert base[k] == all[a];
      var n :| 0 <= n < all[a].n && !Kept(all, n);
      KeptByMore(all, handed, waiting, left, n);
    }
  }

  lemma KeptAppend(base: seq<Slot>, s: Slot, n: nat)
    ensures Kept(base + [s], n) ==> Kept(base, n) || (s.Payload? && s.n == n)
  {
    if k :| 0 <= k < |base + [s]| && (base + [s])[k].Payload? && (base + [s])[k].n == n {
      assert k < |base| ==> (base + [s])[k] == base[k];
    }
  }

  lemma MarkersAppend(base: seq<Slot>, s: Slot)
    requires MarkersTrue(base) && forall k :: 0 <= k < |base| ==> base[k].n <= s.n
    requires s.Marker? ==> exists n :: 0 <= n < s.n && !Kept(base, n)
    ensures MarkersTrue(base + [s])
  {
    var now := base + [s];
    forall k | 0 <= k < |now| && now[k].Marker?
      ensures exists n :: 0 <= n < now[k].n && !Kept(now, n)
    {
      var n: nat :| n < now[k].n && !Kept(base, n);
      KeptAppend(base, s, n);
      hide Kept;
    }
  }

  lemma AddsMarkers(s: Stream, p: string, left: seq<Slot>, text: string, t: Stream)
    requires Adds(s, p, left, text, t) && InOrder(s.handed + s.waiting) && Genuine(s.handed + s.waiting, s.accepted)
    requires MarkersTrue(s.handed + s.waiting)
    ensures MarkersTrue(t.handed + t.waiting)
  {
    hide MarkersTrue, Kept, TotalBytes, EndOf, SuffixOf, InOrder, Genuine;
    var n, all, base := |s.accepted|, s.handed + s.waiting, s.handed + left;
    FewerGenuine(all, all, s.accepted);
    KeepsOrder(s.handed, s.waiting, left);
    FewerGenuine(all, base, s.accepted);
    assert forall k :: 0 <= k < |base| ==> base[k] in base;
    MarkersAfterDrop(all, s.handed, s.waiting, left);
    if t.waiting == left + [Payload(n, text)] {
      MarkersAppend(base, Payload(n, text));
      assert t.handed + t.waiting == base + [Payload(n, text)];
    } else {
      assert |left| < |s.waiting|;
      var lost := DropLoses(all, s.handed, s.waiting, left, n);
      MarkersAppend(base, Marker(n));
      MarkersAppend(base + [Marker(n)], Payload(n, text));
      assert t.handed + t.waiting == base + [Marker(n)] + [Payload(n, text)];
    }
  }

  /** A client never reads the notice without having missed a line before it. */
  lemma {:induction false} MarkersNeverLie(events: seq<Event>)
    ensures MarkersTrue(Run(events).handed + Run(events).waiting)
  {
    hide MarkersTrue, StreamInv, Enqueue;
    if events == [] {
      NoMarkers();
      assert Run(events).handed + Run(events).waiting == [];
    } else {
      var s, e := Run(events[..|events| - 1]), events[|events| - 1];
      MarkersNeverLie(events[..|events| - 1]);
      StreamAlways(events[..|events| - 1]);
      NextMarkers(s, e);
    }
  }

  lemma NoMarkers()
    ensures MarkersTrue([])
  {
  }

  lemma NextMarkers(s: Stream, e: Event)
    requires StreamInv(s) && MarkersTrue(s.handed + s.waiting)
    ensures MarkersTrue(Next(s, e).handed + Next(s, e).waiting)
  {
    hide MarkersTrue, InOrder, Genuine, Announced, TotalBytes;
    match e
    case Enqueued(p) =>
      if p != [] && !s.closed {
        var left, text := EnqueueAdds(s, p);
        AddsMarkers(s, p, left, text, Enqueue(s, p));
      }
    case Taken =>
      if s.waiting != [] {
        assert Take(s).handed + Take(s).waiting == s.handed + s.waiting;
      }
    case WriteFailed =>
      MarkersAfterDrop(s.handed + s.waiting, s.handed, s.waiting, []);
      assert s.handed + [] == s.handed;
    case Closed =>
  }

  /** Dropping stops as soon as the new item fits: with one more of the old items it would not. */
  lemma {:induction false} ShedFewest(waiting: seq<Slot>, need: nat, items: nat, more: seq<Slot>)
    requires SuffixOf(more, waiting) && |more| > |Shed(waiting, need, items)|
    ensures TotalBytes(more) + need > MAX_QUEUED_BYTES || |more| >= items
    decreases |waiting|
  {
    if |more| < |waiting| {
      ShedFewest(waiting[1..], need, items, more);
    }
  }

  /** From item `j` on there is no room for `need` more bytes as the last of `items`. */
  predicate NoRoom(waiting: seq<Slot>, j: nat, need: nat, items: nat)
    requires j <= |waiting|
  {
    TotalBytes(waiting[j..]) + need > 0x10_0000 || |waiting| - j >= items
  }

  /** Dropping the oldest `k` items makes room, and dropping fewer does not. */
  ghost predicate Fewest(waiting: seq<Slot>, k: nat, need: nat, items: nat) {
    k <= |waiting| && !NoRoom(waiting, k, need, items) && forall j :: 0 <= j < k ==> NoRoom(waiting, j, need, items)
  }

  lemma NoRoomInRest(waiting: seq<Slot>, k: nat, j: nat, need: nat, items: nat)
    requires k + j <= |waiting|
    ensures NoRoom(waiting[k..], j, need, items) <==> NoRoom(waiting, k + j, need, items)
  {
    assert waiting[k..][j..] == waiting[k + j..];
  }

  /** Dropping removes some of the oldest items, and as few as it can. */
  lemma {:induction false} ShedCount(waiting: seq<Slot>, need: nat, items: nat) returns (k: nat)
    requires need <= 0x10_0000 && 0 < items
    ensures Fewest(waiting, k, need, items) && Shed(waiting, need, items) == waiting[k..]
    decreases |waiting|
  {
    assert waiting[0..] == waiting;
    if waiting != [] && NoRoom(waiting, 0, need, items) {
      var i := ShedCount(waiting[1..], need, items);
      k := i + 1;
      assert waiting[1..][i..] == waiting[k..];
      hide NoRoom;
      NoRoomInRest(waiting, 1, i, need, items);
      forall j | 0 <= j < k
        ensures NoRoom(waiting, j, need, items)
      {
        if j > 0 {
          NoRoomInRest(waiting, 1, j - 1, need, items);
        }
      }
    } else {
      k := 0;
    }
  }

  /** The end of a text, at most `limit` bytes of it. */
  predicate LastOf(text: string, limit: nat, end: string) {
    end == if |text| <= limit then text else text[|text| - limit..]
  }

  /**
   Everything about one accepted call: a line that fits is queued behind the rest, cut to its last MiB.
   One that does not fit drops as few of the oldest items as make room for itself and a marker of 47 bytes,
   cut once more if it must be.
   */
  lemma EnqueueMeaning(s: Stream, p: string) returns (text: string, rest: string, k: nat)
    requires p != "" && !s.closed
    ensures LastOf(p, 0x10_0000, text) && LastOf(text, 0x10_0000 - 47, rest)
    ensures var n, t := |s.accepted|, Enqueue(s, p);
            && t == s.(waiting := t.waiting, accepted := s.accepted + [p])
            && if !NoRoom(s.waiting, 0, |text|, 1024) then t.waiting == s.waiting + [Payload(n, text)]
               else Fewest(s.waiting, k, 47 + |rest|, 1023) && t.waiting == s.waiting[k..] + [Marker(n), Payload(n, rest)]
  {
    hide TotalBytes, Shed, Newest, LastOf, NoRoom, Fewest;
    text := Newest(p, 0x10_0000);
    rest := Newest(text, 0x10_0000 - 47);
    NewestIs(p, 0x10_0000);
    NewestIs(text, 0x10_0000 - 47);
    k := ShedTwice(s.waiting, |text|, 47 + |rest|);
  }

  lemma NewestIs(text: string, limit: nat)
    ensures LastOf(text, limit, Newest(text, limit)) && |Newest(text, limit)| <= limit
    ensures |text| <= |Newest(text, limit)| || |Newest(text, limit)| == limit
  {
  }

  lemma LessRoom(waiting: seq<Slot>, j: nat, less: nat, more: nat)
    requires j <= |waiting| && less <= more && NoRoom(waiting, j, less, 1024)
    ensures NoRoom(waiting, j, more, 1023)
  {
  }

  /** Dropping for the line and again for line and marker is dropping once for both. */
  lemma ShedTwice(waiting: seq<Slot>, less: nat, more: nat) returns (k: nat)
    requires less <= more <= 0x10_0000
    ensures var kept := Shed(waiting, less, 1024);
            && (|kept| == |waiting| <==> !NoRoom(waiting, 0, less, 1024))
            && (|kept| == |waiting| ==> kept == waiting)
            && (|kept| != |waiting| ==> Fewest(waiting, k, more, 1023) && Shed(kept, more, 1023) == waiting[k..])
  {
    k := ShedCount(waiting, less, 1024);
    hide TotalBytes, Shed, NoRoom;
    assert waiting[0..] == waiting;
    if k > 0 {
      var first := k;
      var kept := waiting[first..];
      var i := ShedCount(kept, more, 1023);
      assert kept[i..] == waiting[first + i..];
      NoRoomInRest(waiting, first, i, more, 1023);
      k := first + i;
      forall j | 0 <= j < k
        ensures NoRoom(waiting, j, more, 1023)
      {
        if j < first {
          LessRoom(waiting, j, less, more);
        } else {
          NoRoomInRest(waiting, first, j - first, more, 1023);
        }
      }
    }
  }

  /**
   After any calls in any order: the queue is within both limits; lines leave in the order in which
   they were queued and uncut unless huge; and unless a write failed, whenever lines are missing a
   marker newer than all of them is still queued or was handed out.
   */
  lemma {:induction false} StreamAlways(events: seq<Event>)
    ensures StreamInv(Run(events))
  {
    if events != [] {
      StreamAlways(events[..|events| - 1]);
      NextKeeps(Run(events[..|events| - 1]), events[|events| - 1]);
      hide Next, StreamInv;
    }
  }

  // ---- The subscription object ----

  /** The queue after an accepted call, case by case. */
  lemma EnqueueCases(s: Stream, p: string)
    requires p != [] && !s.closed
    ensures var n, text := |s.accepted|, Newest(p, MAX_QUEUED_BYTES);
            var kept := Shed(s.waiting, |text|, MAX_QUEUED_ITEMS);
            var rest := Newest(text, MAX_QUEUED_BYTES - MARKER_BYTES);
            var left := Shed(kept, MARKER_BYTES + |rest|, MAX_QUEUED_ITEMS - 1);
            && (|kept| == |s.waiting| ==>
                  Enqueue(s, p) == s.(waiting := kept + [Payload(n, text)], accepted := s.accepted + [p]))
            && (|kept| != |s.waiting| ==>
                  Enqueue(s, p) == s.(waiting := left + [Marker(n)] + [Payload(n, rest)], accepted := s.accepted + [p]))
  {
    hide Shed, Newest, DroppedMarker;
    forall left: seq<Slot>, a: Slot, b: Slot
      ensures left + [a] + [b] == left + [a, b]
    {
    }
  }

  class HostLogSubscription {
    var queue: seq<string>
    var head: nat
    var queuedBytes: int
    var dropped: bool
    var writing: bool
    var closed: bool
    var err: bool
    ghost var stream: Stream

    /** The fields say what the abstract stream says. */
    ghost predicate Valid()
      reads this
    {
      && head <= |queue| && queue[head..] == Texts(stream.waiting)
      && queuedBytes == TotalBytes(stream.waiting)
      && closed == stream.closed && err == stream.broken && !dropped
    }

    constructor ()
      ensures Valid() && stream == NEW_STREAM
    {
      queue, head, queuedBytes := [], 0, 0;
      dropped, writing, closed, err := false, false, false, false;
      stream := NEW_STREAM;
    }

    /** One of the two dropping loops. */
    method DropOldest(need: nat, items: nat, ghost waiting: seq<Slot>) returns (any: bool)
      requires head <= |queue| && queue[head..] == Texts(waiting) && queuedBytes == TotalBytes(waiting)
      modifies this`queue, this`head, this`queuedBytes
      ensures head <= |queue| && queue[head..] == Texts(Shed(waiting, need, items))
      ensures queuedBytes == TotalBytes(Shed(waiting, need, items))
      ensures any <==> |Shed(waiting, need, items)| != |waiting|
    {
      any := false;
      ghost var left := waiting;
      while (queuedBytes + need > MAX_QUEUED_BYTES || |queue| - head >= items) && head < |queue|
        invariant head <= |queue| && queue[head..] == Texts(left)
        invariant queuedBytes == TotalBytes(left)
        invariant Shed(left, need, items) == Shed(waiting, need, items)
        invariant |left| <= |waiting| && (any <==> |left| != |waiting|)
        decreases |queue| - head
      {
        assert queue[head] == queue[head..][0] == TextOf(left[0]);
        assert queue[head + 1..] == queue[head..][1..] == Texts(left[1..]);
        queuedBytes := queuedBytes - |queue[head]|;
        head := head + 1;
        any := true;
        left := left[1..];
      }
      assert |queue[head..]| == |left|;
    }

    method Append(text: string, ghost waiting: seq<Slot>, ghost slot: Slot)
      requires head <= |queue| && queue[head..] == Texts(waiting) && queuedBytes == TotalBytes(waiting)
      requires TextOf(slot) == text
      modifies this`queue, this`queuedBytes
      ensures head <= |queue| && queue[head..] == Texts(waiting + [slot]) && queuedBytes == TotalBytes(waiting + [slot])
    {
      TotalOfSum(waiting, [slot]);
      assert [slot][1..] == [];
      assert TotalBytes([slot]) == |text|;
      ghost var before := queue[head..];
      queue := queue + [text];
      assert queue[head..] == before + [text];
      queuedBytes := queuedBytes + |text|;
    }

    /** Makes room for the marker and the line, and queues the marker. */
    method PutMarker(buf: string, ghost kept: seq<Slot>, ghost n: nat) returns (rest: string, ghost waiting: seq<Slot>)
      requires head <= |queue| && queue[head..] == Texts(kept) && queuedBytes == TotalBytes(kept)
      modifies this`queue, this`head, this`queuedBytes, this`dropped
      ensures rest == Newest(buf, MAX_QUEUED_BYTES - MARKER_BYTES)
      ensures waiting == Shed(kept, MARKER_BYTES + |rest|, MAX_QUEUED_ITEMS - 1) + [Marker(n)]
      ensures head <= |queue| && queue[head..] == Texts(waiting) && queuedBytes == TotalBytes(waiting) && !dropped
    {
      hide Shed, TotalBytes, Texts, DroppedMarker;
      rest := buf;
      if |rest| > MAX_QUEUED_BYTES - MARKER_BYTES {
        rest := rest[|rest| - (MAX_QUEUED_BYTES - MARKER_BYTES)..];
      }
      waiting := Shed(kept, MARKER_BYTES + |rest|, MAX_QUEUED_ITEMS - 1);
      var more := DropOldest(MARKER_BYTES + |rest|, MAX_QUEUED_ITEMS - 1, kept);
      Append(DroppedMarker(), waiting, Marker(n));
      waiting := waiting + [Marker(n)];
      dropped := false;
    }

    /** Moves the live part of the queue to its front once half of it is spent. */
    method Compact()
      requires head <= |queue|
      modifies this`queue, this`head
      ensures head <= |queue| && queue[head..] == old(queue[head..])
    {
      if head > 0 && head * 2 >= |queue| {
        queue := queue[head..];
        head := 0;
      }
    }

    method PutLine(p: string, buf: string, ghost waiting: seq<Slot>)
      requires head <= |queue| && queue[head..] == Texts(waiting) && queuedBytes == TotalBytes(waiting)
      requires closed == stream.closed && err == stream.broken && !dropped
      modifies this`queue, this`head, this`queuedBytes, this`stream
      ensures Valid()
      ensures stream == old(stream).(waiting := waiting + [Payload(|old(stream).accepted|, buf)], accepted := old(stream).accepted + [p])
    {
      hide TotalBytes, Texts;
      Compact();
      Append(buf, waiting, Payload(|stream.accepted|, buf));
      stream := stream.(waiting := waiting + [Payload(|stream.accepted|, buf)], accepted := stream.accepted + [p]);
    }

    method EnqueueLine(p: string)
      requires Valid()
      modifies this
      ensures Valid() && stream == Enqueue(old(stream), p) && writing == old(writing)
    {
      if |p| == 0 || closed {
        return;
      }
      EnqueueCases(stream, p);
      hide Shed, TotalBytes, Texts, DroppedMarker, Enqueue;
      var buf := if |p| > MAX_QUEUED_BYTES then p[|p| - MAX_QUEUED_BYTES..] else p;
      assert buf == Newest(p, MAX_QUEUED_BYTES);
      hide Newest;
      ghost var waiting := Shed(stream.waiting, |buf|, MAX_QUEUED_ITEMS);
      dropped := DropOldest(|buf|, MAX_QUEUED_ITEMS, stream.waiting);
      if dropped {
        buf, waiting := PutMarker(buf, waiting, |stream.accepted|);
      }
      PutLine(p, buf, waiting);
    }

    /** next, once its wait is over: an item to write, or nothing left of a closed stream. */
    method NextItem() returns (item: string, ok: bool)
      requires Valid() && (head < |queue| || closed)
      modifies this
      ensures Valid() && (ok <==> old(stream.waiting) != [])
      ensures stream == if ok then Take(old(stream)) else old(stream)
      ensures ok ==> item == TextOf(old(stream.waiting)[0]) && writing
      ensures ok && old(stream.waiting)[0].Marker? ==> item == "rmtx: slow client; older streamed logs dropped\n"
    {
      assert |queue[head..]| == |stream.waiting|;
      if head == |queue| {
        return "", false;
      }
      item := queue[head];
      assert item == queue[head..][0];
      assert queue[head + 1..] == queue[head..][1..] == Texts(stream.waiting[1..]);
      head := head + 1;
      queuedBytes := queuedBytes - |item|;
      if head == |queue| {
        queue, head := [], 0;
      }
      writing, ok := true, true;
      stream := Take(stream);
    }

    /** The end of a write: a failure closes the stream and forgets what waits. */
    method WriteDone(failed: bool)
      requires Valid()
      modifies this
      ensures Valid() && !writing && stream == if failed then Break(old(stream)) else old(stream)
    {
      writing := false;
      if failed {
        err, closed, queue, head, queuedBytes := true, true, [], 0, 0;
        stream := Break(stream);
      }
    }

    method Close()
      requires Valid()
      modifies this
      ensures Valid() && stream == old(stream).(closed := true) && writing == old(writing)
    {
      closed := true;
      stream := stream.(closed := true);
    }
  }
}

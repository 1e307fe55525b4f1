/** The data-channel connection and framing over it: internal/webrtcx/conn.go, internal/p2p/frame.go.

    Messages arrive through callbacks at moments the reader does not choose. `arrivals` is what the peer
    connection will still deliver; every read lets an arbitrary number of these events happen first. */
module DataChannel {
  import opened Octets
  import opened Frames

  const QUEUE_CAPACITY: nat := 64

  datatype Event = Message(chunk: Bytes) | PeerClose | Timeout

  /** The bytes the remaining events carry. */
  function Carried(events: seq<Event>): Bytes {
    if events == [] then []
    else (if events[0].Message? then events[0].chunk else []) + Carried(events[1..])
  }

  datatype ReadResult = Data(bytes: Bytes) | EOF | Stalled
  datatype FrameResult = Payload(payload: Bytes) | Refused | Ended | Waiting

  lemma CarriedHead(events: seq<Event>)
    requires events != []
    ensures events[0].Message? ==> Carried(events) == events[0].chunk + Carried(events[1..])
    ensures !events[0].Message? ==> Carried(events) == Carried(events[1..])
  {
  }

  lemma QueueGrows(done: Bytes, buf: Bytes, queue: seq<Bytes>, b: Bytes, later: Bytes)
    ensures done + (buf + Flatten(queue + [b])) == (done + (buf + Flatten(queue))) + b
    ensures buf + Flatten(queue + [b]) + later == buf + Flatten(queue) + (b + later)
  {
    FlattenSnoc(queue, b);
    hide Flatten;
  }

  lemma BufferSplits(done: Bytes, buf: Bytes, m: nat, queued: Bytes, later: Bytes)
    requires m <= |buf|
    ensures done + (buf + queued) == (done + buf[..m]) + (buf[m..] + queued)
    ensures buf + queued + later == buf[..m] + (buf[m..] + queued + later)
  {
    assert buf == buf[..m] + buf[m..];
  }

  // ------------------------------------------------------------------ what the bounded queue loses

  /** The queue between the callbacks and the reader; `lost` records that some byte was dropped. */
  datatype Inbox = Inbox(incoming: seq<Bytes>, closed: bool, lost: bool)

  /** One callback: a message is queued if the channel is open and there is room, and dropped otherwise. */
  function Arrive(q: Inbox, e: Event): Inbox {
    match e
    case Message(b) =>
      if !q.closed && |q.incoming| < QUEUE_CAPACITY then q.(incoming := q.incoming + [b])
      else q.(lost := q.lost || b != [])
    case PeerClose => q.(closed := true)
    case Timeout => q
  }

  /** Every message that carries bytes finds the channel open and a free place, even if the reader takes
      nothing meanwhile; `queued` counts the messages waiting now. */
  predicate Roomy(queued: nat, closed: bool, events: seq<Event>)
    decreases |events|
  {
    events == [] ||
    (match events[0]
     case Message(b) =>
       var room := !closed && queued < QUEUE_CAPACITY;
       (room || b == []) && Roomy(if room then queued + 1 else queued, closed, events[1..])
     case PeerClose => Roomy(queued, true, events[1..])
     case Timeout => Roomy(queued, closed, events[1..]))
  }

  lemma {:induction false} RoomyWithFewer(queued: nat, fewer: nat, closed: bool, events: seq<Event>)
    requires fewer <= queued && Roomy(queued, closed, events)
    ensures Roomy(fewer, closed, events)
    decreases |events|
  {
    if events != [] {
      var room, room' := !closed && queued < QUEUE_CAPACITY, !closed && fewer < QUEUE_CAPACITY;
      match events[0]
      case Message(b) =>
        RoomyWithFewer(if room then queued + 1 else queued,
                       if room' then fewer + 1 else fewer, closed, events[1..]);
      case PeerClose => RoomyWithFewer(queued, fewer, true, events[1..]);
      case Timeout => RoomyWithFewer(queued, fewer, closed, events[1..]);
    }
  }

  /** A close, now or to come, finds nothing left to read. */
  predicate CloseIsLast(q: Inbox, events: seq<Event>) {
    q.closed || PeerClose in events ==> Flatten(q.incoming) + Carried(events) == []
  }

  lemma ArriveKeepsRoomy(q: Inbox, events: seq<Event>)
    requires events != [] && !q.lost && Roomy(|q.incoming|, q.closed, events)
    ensures
      var q' := Arrive(q, events[0]);
      !q'.lost && Roomy(|q'.incoming|, q'.closed, events[1..])
  {
  }

  lemma ArriveKeepsLast(q: Inbox, events: seq<Event>)
    requires events != [] && CloseIsLast(q, events)
    ensures CloseIsLast(Arrive(q, events[0]), events[1..])
  {
    CarriedHead(events);
    assert events == [events[0]] + events[1..];
    if events[0].Message? {
      FlattenSnoc(q.incoming, events[0].chunk);
    }
    hide Carried, Flatten;
  }

  lemma KeepsFaith(q: Inbox, events: seq<Event>)
    requires events != []
    ensures
      var q' := Arrive(q, events[0]);
      && (!q.lost && Roomy(|q.incoming|, q.closed, events) ==> !q'.lost && Roomy(|q'.incoming|, q'.closed, events[1..]))
      && (CloseIsLast(q, events) ==> CloseIsLast(q', events[1..]))
  {
    hide Roomy, CloseIsLast, Arrive;
    if !q.lost && Roomy(|q.incoming|, q.closed, events) {
      ArriveKeepsRoomy(q, events);
    }
    if CloseIsLast(q, events) {
      ArriveKeepsLast(q, events);
    }
  }

  lemma TakeKeeps(q: Inbox, events: seq<Event>)
    requires q.incoming != [] && !q.lost && Roomy(|q.incoming|, q.closed, events)
    ensures Roomy(|q.incoming| - 1, q.closed, events)
    ensures CloseIsLast(q, events) ==> CloseIsLast(q.(incoming := q.incoming[1..]), events)
  {
    RoomyWithFewer(|q.incoming|, |q.incoming| - 1, q.closed, events);
    FlattenHead(q.incoming);
    hide Carried, Flatten, Roomy;
  }

  /** The reader as well: the bytes it carries over, and whether it ever reported the end of the stream while
      bytes were waiting. */
  datatype Reader = Reader(inbox: Inbox, buf: Bytes, cut: bool)

  /** One round of the loop in `Read`, for a buffer of n bytes. */
  function Look(r: Reader, n: nat): Reader {
    if r.buf != [] then r.(buf := r.buf[if n < |r.buf| then n else |r.buf|..])
    else if r.inbox.closed then r.(cut := r.cut || Flatten(r.inbox.incoming) != [])
    else if r.inbox.incoming == [] then r
    else r.(buf := r.inbox.incoming[0], inbox := r.inbox.(incoming := r.inbox.incoming[1..]))
  }

  /** The next event happens, or the reader goes one round. */
  datatype Move = Arrival | Round(n: nat)

  function Play(r: Reader, events: seq<Event>, moves: seq<Move>): Reader
    decreases |moves|
  {
    if moves == [] then r
    else
      match moves[0]
      case Arrival =>
        if events == [] then Play(r, events, moves[1..])
        else Play(r.(inbox := Arrive(r.inbox, events[0])), events[1..], moves[1..])
      case Round(n) => Play(Look(r, n), events, moves[1..])
  }

  ghost predicate NeverLoses(r: Reader, events: seq<Event>) {
    forall moves: seq<Move> :: !Play(r, events, moves).inbox.lost
  }

  /** No byte is lost and none is cut off, whatever the timing. */
  ghost predicate MissesNothing(r: Reader, events: seq<Event>) {
    forall moves: seq<Move> :: !Play(r, events, moves).inbox.lost && !Play(r, events, moves).cut
  }

  lemma LookKeeps(r: Reader, events: seq<Event>, n: nat)
    requires !r.inbox.lost && Roomy(|r.inbox.incoming|, r.inbox.closed, events)
    ensures
      var r' := Look(r, n);
      && !r'.inbox.lost && Roomy(|r'.inbox.incoming|, r'.inbox.closed, events)
      && (CloseIsLast(r.inbox, events) ==> CloseIsLast(r'.inbox, events) && r'.cut == r.cut)
  {
    hide Roomy;
    if r.buf == [] && !r.inbox.closed && r.inbox.incoming != [] {
      TakeKeeps(r.inbox, events);
    }
  }

  lemma {:induction false} RoomyLosesNothing(r: Reader, events: seq<Event>, moves: seq<Move>)
    requires !r.inbox.lost && Roomy(|r.inbox.incoming|, r.inbox.closed, events)
    ensures !Play(r, events, moves).inbox.lost
    ensures CloseIsLast(r.inbox, events) ==> Play(r, events, moves).cut == r.cut
    decreases |moves|
  {
    if moves != [] {
      match moves[0]
      case Arrival =>
        if events == [] {
          RoomyLosesNothing(r, events, moves[1..]);
        } else {
          ArriveKeepsRoomy(r.inbox, events);
          if CloseIsLast(r.inbox, events) {
            ArriveKeepsLast(r.inbox, events);
          }
          hide Roomy, Arrive, CloseIsLast;
          RoomyLosesNothing(r.(inbox := Arrive(r.inbox, events[0])), events[1..], moves[1..]);
        }
      case Round(n) =>
        LookKeeps(r, events, n);
        hide Roomy, Look, CloseIsLast;
        RoomyLosesNothing(Look(r, n), events, moves[1..]);
    }
  }

  function ArriveAll(q: Inbox, events: seq<Event>): Inbox
    decreases |events|
  {
    if events == [] then q else ArriveAll(Arrive(q, events[0]), events[1..])
  }

  /** All events happen before the reader does anything. */
  function Flood(n: nat): (moves: seq<Move>)
    ensures |moves| == n
  {
    if n == 0 then [] else [Arrival] + Flood(n - 1)
  }

  lemma {:induction false} FloodArrives(r: Reader, events: seq<Event>, more: seq<Move>)
    ensures Play(r, events, Flood(|events|) + more) == Play(r.(inbox := ArriveAll(r.inbox, events)), [], more)
    decreases |events|
  {
    if events == [] {
      assert [] + more == more;
    } else {
      var moves := Flood(|events|) + more;
      assert Flood(|events|) == [Arrival] + Flood(|events| - 1);
      assert moves[0] == Arrival && moves[1..] == Flood(|events[1..]|) + more;
      FloodArrives(r.(inbox := Arrive(r.inbox, events[0])), events[1..], more);
    }
  }

  lemma {:induction false} ArriveAllLoses(q: Inbox, events: seq<Event>)
    ensures ArriveAll(q, events).lost <==> q.lost || !Roomy(|q.incoming|, q.closed, events)
    decreases |events|
  {
    if events != [] {
      ArriveAllLoses(Arrive(q, events[0]), events[1..]);
    }
  }

  /** Without loss the queue ends up with all the bytes, and closed if a close was among the events. */
  lemma {:induction false} ArriveAllKeeps(q: Inbox, events: seq<Event>)
    requires !q.lost && Roomy(|q.incoming|, q.closed, events)
    ensures
      var q' := ArriveAll(q, events);
      && Flatten(q'.incoming) == Flatten(q.incoming) + Carried(events)
      && (q'.closed <==> q.closed || PeerClose in events)
    decreases |events|
  {
    if events != [] {
      var q1 := Arrive(q, events[0]);
      ArriveKeepsRoomy(q, events);
      ArriveAllKeeps(q1, events[1..]);
      CarriedHead(events);
      assert events == [events[0]] + events[1..];
      hide Carried, Flatten, Roomy;
      if events[0].Message? {
        FlattenSnoc(q.incoming, events[0].chunk);
        Reassociate(Flatten(q.incoming), events[0].chunk, Carried(events[1..]));
      }
    }
  }

  /** Nothing is lost under any timing of arrivals and reads if and only if the arrivals are roomy. */
  lemma NeverLosesIffRoomy(r: Reader, events: seq<Event>)
    ensures NeverLoses(r, events) <==> !r.inbox.lost && Roomy(|r.inbox.incoming|, r.inbox.closed, events)
  {
    hide Roomy;
    if !r.inbox.lost && Roomy(|r.inbox.incoming|, r.inbox.closed, events) {
      forall moves: seq<Move>
        ensures !Play(r, events, moves).inbox.lost
      {
        RoomyLosesNothing(r, events, moves);
      }
    } else {
      FloodArrives(r, events, []);
      ArriveAllLoses(r.inbox, events);
      assert Play(r, events, Flood(|events|) + []).inbox.lost;
    }
  }

  /** With a close among the events, the flood and then two rounds cut off whatever is queued. */
  lemma FloodCutsOff(r: Reader, events: seq<Event>)
    requires !r.inbox.lost && Roomy(|r.inbox.incoming|, r.inbox.closed, events) && !CloseIsLast(r.inbox, events)
    ensures Play(r, events, Flood(|events|) + [Round(|r.buf|), Round(0)]).cut
  {
    var rounds := [Round(|r.buf|), Round(0)];
    var r1 := r.(inbox := ArriveAll(r.inbox, events));
    FloodArrives(r, events, rounds);
    ArriveAllKeeps(r.inbox, events);
    hide ArriveAll, Roomy, Carried, Flatten;
    assert rounds[1..] == [Round(0)] && rounds[1..][1..] == [];
    var r2 := Look(r1, |r.buf|);
    assert r2.buf == [] && r2.inbox == r1.inbox;
    assert Play(r1, [], rounds) == Play(r2, [], [Round(0)]);
    NoMoves(Look(r2, 0), []);
    assert [Round(0)][1..] == [];
    assert Play(r2, [], [Round(0)]) == Look(r2, 0);
  }

  /** No timing loses or cuts off a byte if and only if the arrivals are roomy and any close, now or to come,
      finds nothing left to read. */
  lemma MissesNothingIff(r: Reader, events: seq<Event>)
    ensures MissesNothing(r, events) <==>
      && !r.inbox.lost && !r.cut && Roomy(|r.inbox.incoming|, r.inbox.closed, events)
      && CloseIsLast(r.inbox, events)
  {
    hide Roomy, CloseIsLast, Play;
    NeverLosesIffRoomy(r, events);
    if !r.inbox.lost && Roomy(|r.inbox.incoming|, r.inbox.closed, events) {
      if CloseIsLast(r.inbox, events) && !r.cut {
        forall moves: seq<Move>
          ensures !Play(r, events, moves).inbox.lost && !Play(r, events, moves).cut
        {
          RoomyLosesNothing(r, events, moves);
        }
      } else if r.cut {
        NoMoves(r, events);
        assert Play(r, events, []).cut;
      } else {
        FloodCutsOff(r, events);
      }
    } else {
      var moves :| Play(r, events, moves).inbox.lost;
    }
  }

  lemma NoMoves(r: Reader, events: seq<Event>)
    ensures Play(r, events, []) == r
  {
  }

  const NEW_READER := Reader(Inbox([], false, false), [], false)

  function Repeated(b: Bytes, n: nat): (events: seq<Event>)
    ensures |events| == n && forall i :: 0 <= i < n ==> events[i] == Message(b)
  {
    seq(n, _ => Message(b))
  }

  lemma {:induction false} RepeatedRoomy(queued: nat, b: Bytes, n: nat)
    requires b != [] && queued <= QUEUE_CAPACITY
    ensures Roomy(queued, false, Repeated(b, n)) <==> queued + n <= QUEUE_CAPACITY
    decreases n
  {
    if n > 0 {
      assert Repeated(b, n)[1..] == Repeated(b, n - 1);
      if queued < QUEUE_CAPACITY {
        RepeatedRoomy(queued + 1, b, n - 1);
      }
    }
  }

  /** Sixty-four messages always get through a new connection; sixty-five before the first read do not. */
  lemma SixtyFifthIsDropped(b: Bytes)
    requires b != []
    ensures NeverLoses(NEW_READER, Repeated(b, 64))
    ensures Play(NEW_READER, Repeated(b, 65), Flood(65) + []).inbox.lost
  {
    RepeatedRoomy(0, b, 64);
    RepeatedRoomy(0, b, 65);
    hide Roomy, Play;
    NeverLosesIffRoomy(NEW_READER, Repeated(b, 64));
    FloodArrives(NEW_READER, Repeated(b, 65), []);
    ArriveAllLoses(NEW_READER.inbox, Repeated(b, 65));
    NoMoves(NEW_READER.(inbox := ArriveAll(NEW_READER.inbox, Repeated(b, 65))), []);
  }

  /** A message arrives, the peer closes, and the next `Read` reports the end: the message is never read. */
  lemma CloseOvertakesMessage(b: Bytes)
    requires b != []
    ensures
      var r := Play(NEW_READER, [Message(b), PeerClose], [Arrival, Arrival, Round(1)]);
      r.cut && !r.inbox.lost && r.inbox.incoming == [b]
  {
    var events, moves := [Message(b), PeerClose], [Arrival, Arrival, Round(1)];
    assert events[1..] == [PeerClose] && moves[1..] == [Arrival, Round(1)] && moves[1..][1..] == [Round(1)];
    assert [Round(1)][1..] == [] && [PeerClose][1..] == [] && [] + [b] == [b];
    var q2 := Inbox([b], true, false);
    assert Arrive(Arrive(NEW_READER.inbox, Message(b)), PeerClose) == q2;
    FlattenHead([b]);
    assert Flatten([b]) != [];
    assert Look(Reader(q2, [], false), 1) == Reader(q2, [], true);
  }

  lemma ClosedAhead(q: Inbox, events: seq<Event>)
    ensures CloseIsLast(q, events) && q.closed ==> [] + Flatten(q.incoming) + Carried(events) == []
  {
  }

  lemma NothingAhead()
    ensures Flatten([]) == [] && Carried([]) == []
  {
  }

  lemma ParseShort(stream: Bytes, header: Bytes)
    ensures stream == header + [] && |header| < 4 ==> Parse(stream) == Incomplete
  {
  }

  lemma ParseHeader(stream: Bytes, header: Bytes, after: Bytes)
    requires |header| == 4
    ensures stream == header + after && (Number(header) == 0 || Number(header) > MAX_PAYLOAD) ==>
      Parse(stream) == BadLength(after)
  {
  }

  lemma ParseBody(stream: Bytes, header: Bytes, after: Bytes, body: Bytes, rest: Bytes)
    requires |header| == 4 && 0 < Number(header) <= MAX_PAYLOAD && |body| <= Number(header)
    ensures stream == header + after && after == body + rest && |body| == Number(header) ==>
      Parse(stream) == Parsed.Payload(body, rest)
    ensures stream == header + after && after == body + rest && |body| < Number(header) && rest == [] ==>
      Parse(stream) == Incomplete
  {
    if stream == header + after && after == body + rest {
      assert stream[..4] == header;
      var n := Number(header);
      if |body| == n {
        assert stream[4..4 + n] == body && stream[4 + n..] == rest;
      }
    }
  }

  // ------------------------------------------------------------------ the connection

  class DCConn {
    var incoming: seq<Bytes>
    var buf: Bytes
    var closed: bool
    var sent: seq<Bytes>
    var arrivals: seq<Event>
    ghost var enqueued: Bytes
    ghost var consumed: Bytes
    ghost var lost: bool

    /** At every point, bytes read plus buffer plus queue are the chunks enqueued. */
    ghost predicate Valid()
      reads this
    {
      |incoming| <= QUEUE_CAPACITY && consumed + (buf + Flatten(incoming)) == enqueued
    }

    /** The flat byte stream the reader still has ahead of it. */
    ghost function Stream(): Bytes
      reads this
    {
      buf + Flatten(incoming) + Carried(arrivals)
    }

    ghost function Queue(): Inbox
      reads this
    {
      Inbox(incoming, closed, lost)
    }

    /** No byte is lost, now or later, whatever the timing. */
    ghost predicate Lossless()
      reads this
    {
      !lost && Roomy(|incoming|, closed, arrivals)
    }

    /** Moreover no byte is cut off: the exact condition of `MissesNothingIff`. */
    ghost predicate Steady()
      reads this
    {
      Lossless() && CloseIsLast(Queue(), arrivals)
    }

    constructor (arrivals: seq<Event>)
      ensures Valid() && Stream() == Carried(arrivals)
      ensures Queue() == Inbox([], false, false) && sent == [] && this.arrivals == arrivals
    {
      incoming, buf, closed, sent := [], [], false, [];
      this.arrivals := arrivals;
      enqueued, consumed, lost := [], [], false;
    }

    /** One event happens: a message is queued, or dropped when the queue is full or the channel closed. */
    method Deliver()
      requires Valid() && arrivals != []
      modifies this
      ensures Valid() && arrivals == old(arrivals)[1..] && sent == old(sent) && consumed == old(consumed)
      ensures Queue() == Arrive(old(Queue()), old(arrivals)[0]) && buf == old(buf)
      ensures !lost ==> Stream() == old(Stream())
      ensures (old(Lossless()) ==> Lossless()) && (old(Steady()) ==> Steady())
    {
      CarriedHead(arrivals);
      KeepsFaith(Queue(), arrivals);
      hide Flatten, Carried, Roomy, CloseIsLast;
      var event := arrivals[0];
      arrivals := arrivals[1..];
      match event {
        case Message(b) =>
          if closed {
            lost := lost || b != [];
          } else if |incoming| < QUEUE_CAPACITY {
            QueueGrows(consumed, buf, incoming, b, Carried(arrivals));
            incoming := incoming + [b];
            enqueued := enqueued + b;
          } else {
            lost := lost || b != [];
          }
        case PeerClose =>
          closed := true;
        case Timeout =>
      }
    }

    /** Any number of events happen. */
    method Pump()
      requires Valid()
      modifies this
      ensures Valid() && sent == old(sent) && consumed == old(consumed)
      ensures (old(lost) ==> lost) && (old(closed) ==> closed) && buf == old(buf)
      ensures !lost ==> Stream() == old(Stream())
      ensures (old(Lossless()) ==> Lossless()) && (old(Steady()) ==> Steady())
      ensures |incoming| + 2 * |arrivals| <= |old(incoming)| + 2 * |old(arrivals)|
    {
      var k :| 0 <= k <= |arrivals|;
      while k > 0
        invariant 0 <= k <= |arrivals|
        invariant Valid() && sent == old(sent) && consumed == old(consumed)
        invariant (old(lost) ==> lost) && (old(closed) ==> closed) && buf == old(buf)
        invariant !lost ==> Stream() == old(Stream())
        invariant (old(Lossless()) ==> Lossless()) && (old(Steady()) ==> Steady())
        invariant |incoming| + 2 * |arrivals| <= |old(incoming)| + 2 * |old(arrivals)|
      {
        Deliver();
        k := k - 1;
      }
    }

    /** Copies carried-over bytes out, at most n. */
    method Copy(n: nat) returns (b: Bytes)
      requires Valid() && buf != []
      modifies this`buf, this`consumed
      ensures Valid() && b == old(buf)[..if n < |old(buf)| then n else |old(buf)|]
      ensures consumed == old(consumed) + b && old(Stream()) == b + Stream()
    {
      hide Flatten, Carried;
      var m := if n < |buf| then n else |buf|;
      b := buf[..m];
      BufferSplits(consumed, buf, m, Flatten(incoming), Carried(arrivals));
      consumed := consumed + b;
      buf := buf[m..];
    }

    /** Carries the next message over. */
    method Fetch()
      requires Valid() && buf == [] && incoming != []
      modifies this`buf, this`incoming
      ensures Valid() && buf == old(incoming)[0] && incoming == old(incoming)[1..] && Stream() == old(Stream())
      ensures (old(Lossless()) ==> Lossless()) && (old(Steady()) ==> Steady())
    {
      FlattenHead(incoming);
      if Lossless() {
        TakeKeeps(Queue(), arrivals);
      }
      hide Flatten, Carried, Roomy, CloseIsLast;
      assert [] + Flatten(incoming) == incoming[0] + Flatten(incoming[1..]);
      buf, incoming := incoming[0], incoming[1..];
    }

    /** `Read` into a buffer of n bytes. `Stalled` means it waits for ever: nothing is left to arrive. */
    method Read(n: nat) returns (r: ReadResult)
      requires Valid()
      modifies this
      ensures Valid() && sent == old(sent) && (old(lost) ==> lost) && (old(closed) ==> closed)
      ensures (old(Lossless()) ==> Lossless()) && (old(Steady()) ==> Steady())
      ensures old(closed) && old(buf) == [] ==> r == EOF
      ensures r.Data? ==> |r.bytes| <= n && (n > 0 ==> r.bytes != []) && consumed == old(consumed) + r.bytes
      ensures r.Data? && !lost ==> old(Stream()) == r.bytes + Stream()
      ensures old(Steady()) && !r.Data? ==> Stream() == []
      ensures !r.Data? ==> consumed == old(consumed) && (!lost ==> Stream() == old(Stream()))
      ensures r.EOF? ==> closed
      ensures r.Stalled? ==> !closed && Stream() == []
    {
      hide Flatten, Carried, Roomy, CloseIsLast;
      while true
        invariant Valid() && sent == old(sent) && consumed == old(consumed)
        invariant (old(lost) ==> lost) && (old(closed) ==> closed)
        invariant !lost ==> Stream() == old(Stream())
        invariant (old(Lossless()) ==> Lossless()) && (old(Steady()) ==> Steady())
        invariant old(closed) && old(buf) == [] ==> buf == []
        decreases |incoming| + 2 * |arrivals|
      {
        if |buf| > 0 {
          var b := Copy(n);
          return Data(b);
        }
        Pump();
        if closed {
          ClosedAhead(Queue(), arrivals);
          return EOF;
        }
        if incoming != [] {
          Fetch();
        } else if arrivals != [] {
          Deliver();
        } else {
          NothingAhead();
          return Stalled;
        }
      }
    }

    /** `io.ReadFull`: read until n bytes are there, or the connection ends or stalls. */
    method ReadFull(n: nat) returns (b: Bytes, end: ReadResult)
      requires Valid()
      modifies this
      ensures Valid() && sent == old(sent) && (old(lost) ==> lost) && (old(closed) ==> closed)
      ensures (old(Lossless()) ==> Lossless()) && (old(Steady()) ==> Steady())
      ensures end.Data? <==> |b| == n
      ensures |b| <= n
      ensures !lost ==> old(Stream()) == b + Stream()
      ensures old(Steady()) && |b| < n ==> Stream() == []
      ensures end.EOF? ==> closed
      ensures end.Stalled? ==> !closed && Stream() == []
    {
      b := [];
      while |b| < n
        invariant |b| <= n
        invariant Valid() && sent == old(sent) && (old(lost) ==> lost) && (old(closed) ==> closed)
        invariant !lost ==> old(Stream()) == b + Stream()
        invariant (old(Lossless()) ==> Lossless()) && (old(Steady()) ==> Steady())
        decreases n - |b|
      {
        var r := Read(n - |b|);
        if !r.Data? {
          return b, r;
        }
        assert forall rest: Bytes :: b + (r.bytes + rest) == (b + r.bytes) + rest;
        b := b + r.bytes;
      }
      end := Data(b);
    }

    /** `ReadFrame`: whatever the chunking and the timing, it reads what `Parse` makes of the flat stream. If a
        close can overtake bytes it may end early, but still reads nothing else. */
    method ReadFrame() returns (r: FrameResult)
      requires Valid()
      modifies this
      ensures Valid() && sent == old(sent) && (old(lost) ==> lost) && (old(closed) ==> closed)
      ensures (old(Lossless()) ==> Lossless()) && (old(Steady()) ==> Steady())
      ensures old(Steady()) || (!lost && !closed) ==>
        match Parse(old(Stream()))
        case Payload(p, rest) => r == FrameResult.Payload(p) && Stream() == rest
        case BadLength(rest) => r == Refused && Stream() == rest
        case Incomplete => r == if closed then Ended else Waiting
      ensures !lost && r.Payload? ==> Parse(old(Stream())) == Parsed.Payload(r.payload, Stream())
      ensures !lost && r.Refused? ==> Parse(old(Stream())) == BadLength(Stream())
      ensures (r.Ended? ==> closed) && (r.Waiting? ==> !closed) && (r.Payload? ==> Framable(r.payload))
    {
      hide Flatten, Carried, Roomy, CloseIsLast, Parse;
      ghost var stream := Stream();
      var header, end := ReadFull(4);
      if !end.Data? {
        ParseShort(stream, header);
        return if end.EOF? then Ended else Waiting;
      }
      ghost var after := Stream();
      var n := Number(header);
      if n == 0 || n > MAX_PAYLOAD {
        ParseHeader(stream, header, after);
        return Refused;
      }
      var body, end' := ReadFull(n);
      ParseBody(stream, header, after, body, Stream());
      if !end'.Data? {
        return if end'.EOF? then Ended else Waiting;
      }
      r := FrameResult.Payload(body);
    }

    method Write(p: Bytes) returns (ok: bool)
      requires Valid()
      modifies this
      ensures Valid() && ok == !closed && closed == old(closed) && lost == old(lost)
      ensures arrivals == old(arrivals) && Stream() == old(Stream()) && Queue() == old(Queue())
      ensures sent == if ok then old(sent) + [p] else old(sent)
    {
      if closed {
        return false;
      }
      sent := sent + [p];
      ok := true;
    }

    /** `WriteFrame`: header and payload leave as two messages whose bytes are the frame. */
    method WriteFrame(payload: Bytes) returns (ok: bool)
      requires Valid()
      modifies this
      ensures Valid() && Queue() == old(Queue()) && arrivals == old(arrivals) && Stream() == old(Stream())
      ensures ok <==> Framable(payload) && !closed
      ensures Flatten(sent) == old(Flatten(sent)) + if ok then Frame(payload) else []
    {
      hide Flatten, Digits, Carried;
      if |payload| == 0 || |payload| > MAX_PAYLOAD {
        return false;
      }
      var header := Digits(|payload|, 4);
      ok := Write(header);
      if ok {
        ghost var mid := sent;
        FlattenSnoc(old(sent), header);
        ok := Write(payload);
        FlattenSnoc(mid, payload);
        assert sent == mid + [payload];
        assert Flatten(old(sent)) + header + payload == Flatten(old(sent)) + (header + payload);
      }
    }

    method Close()
      requires Valid()
      modifies this
      ensures Valid() && closed && lost == old(lost) && sent == old(sent) && Stream() == old(Stream())
    {
      closed := true;
    }
  }

  /** Repeated `ReadFrame` recovers the written list exactly, however the bytes were split into messages
      and whenever they arrive, if the arrivals are roomy and no close overtakes them; and a prefix of the list
      if the arrivals are roomy. */
  method ReadFrames(conn: DCConn, ghost payloads: seq<Bytes>, count: nat) returns (out: seq<Bytes>)
    requires conn.Valid() && AllFramable(payloads) && count == |payloads|
    requires Encode(payloads) <= conn.Stream()
    modifies conn
    ensures conn.Valid()
    ensures old(conn.Steady()) ==>
      conn.Steady() && out == payloads && conn.Stream() == old(conn.Stream())[|Encode(payloads)|..]
    ensures old(conn.Lossless()) ==> conn.Lossless() && out <= payloads
  {
    out := [];
    ghost var rest := conn.Stream()[|Encode(payloads)|..];
    assert conn.Stream() == Encode(payloads) + rest;
    var i := 0;
    while i < count
      invariant 0 <= i <= count && conn.Valid()
      invariant (old(conn.Lossless()) ==> conn.Lossless()) && (old(conn.Steady()) ==> conn.Steady())
      invariant !conn.lost ==> out == payloads[..i] && conn.Stream() == Encode(payloads[i..]) + rest
    {
      ghost var tail := payloads[i..];
      assert tail[0] == payloads[i] && tail[1..] == payloads[i + 1..];
      assert Encode(tail) + rest == Frame(tail[0]) + (Encode(tail[1..]) + rest);
      ParseFrame(tail[0], Encode(tail[1..]) + rest);
      var r := conn.ReadFrame();
      if !r.Payload? {
        return;
      }
      assert payloads[..i] + [payloads[i]] == payloads[..i + 1];
      out := out + [r.payload];
      i := i + 1;
    }
    assert payloads[..count] == payloads && Encode(payloads[count..]) == [];
  }
}

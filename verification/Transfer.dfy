/** Whole sessions as objects: `Session` over `DCConn`, from the calls of `Send` on one side to the results of
    `Recv` on the other (internal/p2p/session.go, internal/p2p/frame.go, internal/webrtcx/conn.go). */
module Transfer {
  import opened Octets
  import opened Crypto
  import opened Frames
  import opened Messages
  import opened Sessions
  import DataChannel
  import Replay
  import D = Delivery

  /** The record with this number and text can be sealed and fits a frame. */
  predicate Fits(c: Suite, k: Codec, d: D.Direction, num: uint64, text: Bytes) {
    |d.key| == KEY_SIZE && Framable(k.encode(SealedData(c, d.key, d.epoch, d.sender, d.receiver, num, text)))
  }

  /** Of these texts, numbered from start on, the ones that fit. */
  function Fitting(c: Suite, k: Codec, d: D.Direction, start: nat, texts: seq<Bytes>): seq<Bytes>
    requires start + |texts| <= U64
  {
    if texts == [] then []
    else
      var n := |texts| - 1;
      Fitting(c, k, d, start, texts[..n]) + if Fits(c, k, d, start + n, texts[n]) then [texts[n]] else []
  }

  ghost predicate AllRecords(flight: seq<D.Item>) { forall i :: 0 <= i < |flight| ==> flight[i].Record? }

  /** The call of `Send` and the step of the two-party system. */
  lemma SendIsStep(c: Suite, k: Codec, tx: State, l: D.Link, text: Bytes)
    requires !tx.closed && tx.nextSeq < U64 - 1
    ensures
      var (tx', l') := D.Send(c, k, tx, l, text);
      var fits := Fits(c, k, D.Outgoing(tx), tx.nextSeq, text);
      && (SendStep(c, k, tx, text).1.Sent? <==> fits) && tx' == SendStep(c, k, tx, text).0
      && D.Outgoing(tx') == D.Outgoing(tx) && tx'.nextSeq == tx.nextSeq + 1 && !tx'.closed
      && l'.wire == l.wire + (if fits then SendStep(c, k, tx, text).1.frame else [])
      && l'.sent == l.sent + (if fits then [text] else []) && l'.got == l.got
      && |l'.flight| == |l.flight| + (if fits then 1 else 0) && (AllRecords(l.flight) ==> AllRecords(l'.flight))
  {
  }

  /** What the sending side and its link to the receiver are while texts are sent. */
  ghost predicate Sending(s: Session, rx: State, l: D.Link)
    reads s, s.conn, s.replay
  {
    && s.Valid() && !s.closed && !s.conn.closed
    && D.InTransit(s.c, s.k, s.Current(), rx, l) && l.wire == Flatten(s.conn.sent)
  }

  method SendOne(s: Session, text: Bytes, ghost rx: State, ghost l0: D.Link) returns (ok: bool, ghost l: D.Link)
    requires Sending(s, rx, l0) && s.nextSeq < U64 - WINDOW_SIZE
    modifies s, s.conn
    ensures Sending(s, rx, l) && s.nextSeq == old(s.nextSeq) + 1
    ensures D.Outgoing(s.Current()) == D.Outgoing(old(s.Current()))
    ensures ok <==> Fits(s.c, s.k, D.Outgoing(s.Current()), old(s.nextSeq), text)
    ensures l.sent == l0.sent + (if ok then [text] else []) && l.got == l0.got
    ensures |l.flight| == |l0.flight| + (if ok then 1 else 0) && (AllRecords(l0.flight) ==> AllRecords(l.flight))
  {
    hide Fits, SendStep, Flatten, D.InTransit, AllRecords, D.Send;
    ghost var tx := s.Current();
    SendIsStep(s.c, s.k, tx, l0, text);
    D.SendKeeps(s.c, s.k, tx, rx, l0, text);
    ok := s.Send(text);
    l := D.Send(s.c, s.k, tx, l0, text).1;
  }

  /** Sends all texts. The bytes that left the connection are what the two-party system has on its wire, and the
      texts it counts as sent are exactly those that fit under their number. */
  method SendAll(s: Session, texts: seq<Bytes>, ghost rx: State, ghost l0: D.Link)
    returns (sent: nat, ghost l: D.Link)
    requires Sending(s, rx, l0) && s.nextSeq + |texts| <= U64 - WINDOW_SIZE
    modifies s, s.conn
    ensures Sending(s, rx, l)
    ensures l.sent == l0.sent + Fitting(s.c, s.k, D.Outgoing(old(s.Current())), old(s.nextSeq), texts)
    ensures l.got == l0.got && |l.flight| == |l0.flight| + sent && (AllRecords(l0.flight) ==> AllRecords(l.flight))
  {
    hide Fits, Sending, AllRecords, Fitting;
    l, sent := l0, 0;
    ghost var d, start := D.Outgoing(s.Current()), s.nextSeq;
    FittingNone(s.c, s.k, d, start);
    assert texts[..0] == [] && l0.sent + [] == l0.sent;
    for i := 0 to |texts|
      invariant Sending(s, rx, l) && s.nextSeq == start + i && D.Outgoing(s.Current()) == d
      invariant l.got == l0.got && |l.flight| == |l0.flight| + sent && (AllRecords(l0.flight) ==> AllRecords(l.flight))
      invariant l.sent == l0.sent + Fitting(s.c, s.k, d, start, texts[..i])
    {
      FittingSnoc(s.c, s.k, d, start, texts, i);
      var ok;
      ok, l := SendOne(s, texts[i], rx, l);
      sent := if ok then sent + 1 else sent;
    }
    assert texts[..|texts|] == texts;
  }

  lemma FittingNone(c: Suite, k: Codec, d: D.Direction, start: nat)
    requires start <= U64
    ensures Fitting(c, k, d, start, []) == []
  {
  }

  lemma FittingSnoc(c: Suite, k: Codec, d: D.Direction, start: nat, texts: seq<Bytes>, i: nat)
    requires i < |texts| && start + |texts| <= U64
    ensures Fitting(c, k, d, start, texts[..i + 1])
      == Fitting(c, k, d, start, texts[..i]) + if Fits(c, k, d, start + i, texts[i]) then [texts[i]] else []
  {
    assert texts[..i + 1][..i] == texts[..i];
  }

  /** Calls `Recv` once for every message in flight. On a connection that misses nothing, whatever its chunking
      and timing, the results are the texts in flight, in order. */
  method ReceiveAll(s: Session, count: nat, ghost tx: State, ghost l0: D.Link) returns (out: seq<Bytes>)
    requires s.Valid() && s.conn.Steady() && !s.closed && RoundTrips(s.k) && OpenInvertsSeal(s.c)
    requires D.InTransit(s.c, s.k, tx, s.Current(), l0) && l0.wire == s.conn.Stream()
    requires count == |l0.flight| && AllRecords(l0.flight)
    modifies s, s.conn, s.replay
    ensures s.Valid() && s.conn.Steady() && !s.closed && s.conn.Stream() == []
    ensures out == D.Texts(l0.flight)
  {
    out := [];
    ghost var l := l0;
    assert [] + D.Texts(l0.flight) == D.Texts(l0.flight);
    for i := 0 to count
      invariant s.Valid() && s.conn.Steady() && !s.closed
      invariant D.InTransit(s.c, s.k, tx, s.Current(), l) && l.wire == s.conn.Stream()
      invariant |l.flight| == count - i && AllRecords(l.flight) && out + D.Texts(l.flight) == D.Texts(l0.flight)
    {
      hide DataChannel.DCConn.Valid, DataChannel.DCConn.Steady, DataChannel.DCConn.Stream, D.InTransit, D.Texts;
      ghost var rx := s.Current();
      NextText(s.c, s.k, tx, rx, l);
      D.ReceiveKeeps(s.c, s.k, tx, rx, l);
      D.TakeHead(l.flight, out);
      var r := s.Recv();
      if r.Plaintext? {
        out := out + [r.text];
      }
      l := D.Receive(s.c, s.k, rx, l).1;
    }
    NothingOnWire(s.c, s.k, tx, s.Current(), l);
  }

  /** The next message in flight, as `Recv` and as the two-party system see it. */
  lemma NextText(c: Suite, k: Codec, tx: State, rx: State, l: D.Link)
    requires RoundTrips(k) && OpenInvertsSeal(c) && D.InTransit(c, k, tx, rx, l)
    requires !rx.closed && l.flight != [] && AllRecords(l.flight)
    ensures
      var (rx', r, rest) := RecvStep(c, k, rx, l.wire);
      && l.flight[0].Record? && r == Plaintext(l.flight[0].text) && !rx'.closed
      && D.Receive(c, k, rx, l).0 == rx' && D.Receive(c, k, rx, l).1.wire == rest
      && D.Receive(c, k, rx, l).1.flight == l.flight[1..] && AllRecords(l.flight[1..])
  {
    D.HeadIsReceived(c, k, tx, rx, l);
    hide RecvStep, D.InTransit;
  }

  lemma NothingOnWire(c: Suite, k: Codec, tx: State, rx: State, l: D.Link)
    requires D.InTransit(c, k, tx, rx, l) && l.flight == []
    ensures l.wire == [] && D.Texts(l.flight) == []
  {
  }

  /** These arrivals carry the wire in some chunks, and no timing misses any of it. */
  ghost predicate CarriesWire(arrivals: seq<DataChannel.Event>, wire: Bytes) {
    && DataChannel.Carried(arrivals) == wire && DataChannel.Roomy(0, false, arrivals)
    && DataChannel.CloseIsLast(DataChannel.Inbox([], false, false), arrivals)
  }

  /** Two session objects that a handshake has keyed: one sends, its bytes arrive in any chunks and at any time,
      the other receives. It receives exactly the texts that fit a frame under the number they used up. */
  method Transfer(c: Suite, k: Codec, idA: Bytes, idB: Bytes, epoch: uint64, keyA: Bytes, keyB: Bytes,
                  texts: seq<Bytes>, chunks: Bytes -> seq<DataChannel.Event>) returns (received: seq<Bytes>)
    requires RoundTrips(k) && OpenInvertsSeal(c) && |texts| <= U64 - WINDOW_SIZE
    requires forall wire :: CarriesWire(chunks(wire), wire)
    ensures received == Fitting(c, k, D.Direction(keyA, epoch, idA, idB), 0, texts)
  {
    hide Fitting, CarriesWire, D.InTransit, D.Texts, AllRecords;
    var wire, sent;
    ghost var tx, l;
    wire, sent, tx, l := SendFresh(c, k, idA, idB, epoch, keyA, keyB, texts);
    received := ReceiveFresh(c, k, idB, idA, epoch, keyB, keyA, chunks(wire), sent, tx, l);
  }

  /** The sending half, with a new session on a new connection: the bytes and how many records they are. */
  method SendFresh(c: Suite, k: Codec, idA: Bytes, idB: Bytes, epoch: uint64, keyA: Bytes, keyB: Bytes,
                   texts: seq<Bytes>) returns (wire: Bytes, sent: nat, ghost tx: State, ghost l: D.Link)
    requires |texts| <= U64 - WINDOW_SIZE
    ensures D.InTransit(c, k, tx, Established(idB, idA, epoch, keyB, keyA), l) && l.wire == wire
    ensures |l.flight| == sent && AllRecords(l.flight)
    ensures D.Texts(l.flight) == Fitting(c, k, D.Direction(keyA, epoch, idA, idB), 0, texts)
  {
    hide Fitting, Flatten;
    NothingSent();
    var conn := new DataChannel.DCConn([]);
    var s := new Session(c, k, conn, idA, idB, epoch, keyA, keyB);
    ghost var rx := Established(idB, idA, epoch, keyB, keyA);
    FreshLink(c, k, s.Current(), rx);
    sent, l := SendAll(s, texts, rx, D.IDLE);
    wire := Concat(conn.sent);
    tx := s.Current();
    SentIsFlight(c, k, tx, rx, l);
  }

  lemma NothingSent()
    ensures Flatten([]) == []
  {
  }

  lemma SentIsFlight(c: Suite, k: Codec, tx: State, rx: State, l: D.Link)
    requires D.InTransit(c, k, tx, rx, l) && l.got == []
    ensures D.Texts(l.flight) == l.sent
  {
  }

  /** The receiving half, with a new session on a new connection. */
  method ReceiveFresh(c: Suite, k: Codec, idB: Bytes, idA: Bytes, epoch: uint64, keyB: Bytes, keyA: Bytes,
                      arrivals: seq<DataChannel.Event>, count: nat, ghost tx: State, ghost l: D.Link)
    returns (out: seq<Bytes>)
    requires RoundTrips(k) && OpenInvertsSeal(c) && CarriesWire(arrivals, l.wire)
    requires D.InTransit(c, k, tx, Established(idB, idA, epoch, keyB, keyA), l)
    requires |l.flight| == count && AllRecords(l.flight)
    ensures out == D.Texts(l.flight)
  {
    hide Flatten, D.InTransit, D.Texts, DataChannel.Roomy, DataChannel.CloseIsLast, DataChannel.Carried;
    var conn := new DataChannel.DCConn(arrivals);
    var s := new Session(c, k, conn, idB, idA, epoch, keyB, keyA);
    out := ReceiveAll(s, count, tx, l);
  }

  lemma FreshLink(c: Suite, k: Codec, tx: State, rx: State)
    requires D.Outgoing(tx) == D.Incoming(rx) && tx.nextSeq == 0 && rx.window == Replay.New(WINDOW_SIZE)
    ensures D.InTransit(c, k, tx, rx, D.IDLE) && AllRecords(D.IDLE.flight)
  {
  }
}

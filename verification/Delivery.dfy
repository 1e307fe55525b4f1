/** Two established sessions over reliable ordered byte streams: what one side sends is what the other
    receives (internal/p2p/session.go, Send, Recv and Close). */
module Delivery {
  import opened Octets
  import opened Crypto
  import opened Frames
  import opened Messages
  import opened Replay
  import opened Sessions

  /** What fixes the encoding of one direction. */
  datatype Direction = Direction(key: Bytes, epoch: uint64, sender: Bytes, receiver: Bytes)

  function Outgoing(s: State): Direction { Direction(s.sendKey, s.epochID, s.localID, s.peerID) }
  function Incoming(s: State): Direction { Direction(s.recvKey, s.epochID, s.peerID, s.localID) }

  /** A message in flight. */
  datatype Item = Record(num: uint64, text: Bytes) | Bye(reason: Bytes)

  function MsgOf(c: Suite, d: Direction, i: Item): Msg {
    match i
    case Record(num, text) => SealedData(c, d.key, d.epoch, d.sender, d.receiver, num, text)
    case Bye(reason) => Messages.Close(reason)
  }

  /** One direction of the connection with its history. */
  datatype Link = Link(wire: Bytes, flight: seq<Item>, sent: seq<Bytes>, got: seq<Bytes>)

  const IDLE := Link([], [], [], [])

  function Send(c: Suite, k: Codec, tx: State, l: Link, text: Bytes): (State, Link) {
    var (tx', r) := SendStep(c, k, tx, text);
    (tx', match r
          case Sent(frame) => l.(wire := l.wire + frame, flight := l.flight + [Record(tx.nextSeq, text)],
                                 sent := l.sent + [text])
          case NotSent => l)
  }

  function Close(k: Codec, tx: State, l: Link, reason: Bytes): (State, Link) {
    var (tx', r) := CloseStep(k, tx, reason);
    (tx', match r
          case Some(frame) => l.(wire := l.wire + frame, flight := l.flight + [Bye(reason)])
          case None => l)
  }

  function Receive(c: Suite, k: Codec, rx: State, l: Link): (State, Link)
    requires rx.window.size > 0
  {
    var (rx', r, rest) := RecvStep(c, k, rx, l.wire);
    if rx.closed || r.Blocked? then (rx', l)
    else (rx', l.(wire := rest, flight := if l.flight == [] then [] else l.flight[1..],
                  got := if r.Plaintext? then l.got + [r.text] else l.got))
  }

  /** Both parties and both directions, with the (key, nonce) pair of every DATA seal. */
  datatype System = System(a: State, b: State, ab: Link, ba: Link, seals: seq<(Bytes, Bytes)>)

  datatype Side = A | B
  datatype Action = Sends(who: Side, text: Bytes) | Receives(who: Side) | Closes(who: Side, reason: Bytes)

  function Sealed(s: State): seq<(Bytes, Bytes)> {
    if s.closed || |s.sendKey| != KEY_SIZE then [] else [(s.sendKey, NonceFromSeq(s.nextSeq))]
  }

  function Step(c: Suite, k: Codec, y: System, act: Action): System
    requires y.a.window.size > 0 && y.b.window.size > 0
  {
    match act
    case Sends(A, text) =>
      var (a, l) := Send(c, k, y.a, y.ab, text); y.(a := a, ab := l, seals := y.seals + Sealed(y.a))
    case Sends(B, text) =>
      var (b, l) := Send(c, k, y.b, y.ba, text); y.(b := b, ba := l, seals := y.seals + Sealed(y.b))
    case Receives(A) => var (a, l) := Receive(c, k, y.a, y.ba); y.(a := a, ba := l)
    case Receives(B) => var (b, l) := Receive(c, k, y.b, y.ab); y.(b := b, ab := l)
    case Closes(A, reason) => var (a, l) := Close(k, y.a, y.ab, reason); y.(a := a, ab := l)
    case Closes(B, reason) => var (b, l) := Close(k, y.b, y.ba, reason); y.(b := b, ba := l)
  }

  lemma StepKeepsWindows(c: Suite, k: Codec, y: System, act: Action)
    requires y.a.window.size > 0 && y.b.window.size > 0
    ensures Step(c, k, y, act).a.window.size == y.a.window.size
    ensures Step(c, k, y, act).b.window.size == y.b.window.size
  {
  }

  function Run(c: Suite, k: Codec, start: System, acts: seq<Action>): (y: System)
    requires start.a.window.size > 0 && start.b.window.size > 0
    ensures y.a.window.size > 0 && y.b.window.size > 0
  {
    if acts == [] then start
    else
      var y := Run(c, k, start, acts[..|acts| - 1]);
      StepKeepsWindows(c, k, y, acts[|acts| - 1]);
      Step(c, k, y, acts[|acts| - 1])
  }

  /** Two sessions as a completed handshake leaves them. */
  ghost predicate Paired(a: State, b: State) {
    && a.nextSeq == 0 && b.nextSeq == 0 && !a.closed && !b.closed
    && a.window == New(WINDOW_SIZE) && b.window == New(WINDOW_SIZE)
    && Outgoing(a) == Incoming(b) && Outgoing(b) == Incoming(a)
  }

  function Start(a: State, b: State): System { System(a, b, IDLE, IDLE, []) }

  function SendCount(acts: seq<Action>, side: Side): nat {
    if acts == [] then 0
    else SendCount(acts[..|acts| - 1], side) + if acts[|acts| - 1].Sends? && acts[|acts| - 1].who == side then 1 else 0
  }

  // ------------------------------------------------------------------ one direction

  function WireOf(c: Suite, k: Codec, d: Direction, flight: seq<Item>): Bytes {
    if flight == [] then [] else Frame(k.encode(MsgOf(c, d, flight[0]))) + WireOf(c, k, d, flight[1..])
  }

  function Texts(flight: seq<Item>): seq<Bytes> {
    if flight == [] then []
    else (if flight[0].Record? then [flight[0].text] else []) + Texts(flight[1..])
  }

  lemma {:induction false} WireSnoc(c: Suite, k: Codec, d: Direction, flight: seq<Item>, i: Item)
    ensures WireOf(c, k, d, flight + [i]) == WireOf(c, k, d, flight) + Frame(k.encode(MsgOf(c, d, i)))
  {
    hide MsgOf, Frame;
    if flight == [] {
      assert [] + [i] == [i] && WireOf(c, k, d, []) == [] && [i][1..] == [];
      assert WireOf(c, k, d, [i]) == Frame(k.encode(MsgOf(c, d, i))) + [];
    } else {
      assert (flight + [i])[0] == flight[0] && (flight + [i])[1..] == flight[1..] + [i];
      WireSnoc(c, k, d, flight[1..], i);
    }
  }

  lemma {:induction false} TextsSnoc(flight: seq<Item>, i: Item)
    ensures Texts(flight + [i]) == Texts(flight) + if i.Record? then [i.text] else []
  {
    if flight == [] {
      assert [] + [i] == [i] && [i][1..] == [];
    } else {
      assert (flight + [i])[0] == flight[0] && (flight + [i])[1..] == flight[1..] + [i];
      TextsSnoc(flight[1..], i);
    }
  }

  /** Numbers in flight increase, lie below the sender's counter and above all the receiver has seen. */
  ghost predicate NumbersAhead(flight: seq<Item>, nextSeq: int, w: Window) {
    && w.size == WINDOW_SIZE && nextSeq <= U64 - WINDOW_SIZE
    && (w.inited ==> w.maxSeq < nextSeq)
    && (!w.inited ==> w.seen == {})
    && (forall x :: x in w.seen ==> x <= w.maxSeq)
    && (forall i :: 0 <= i < |flight| && flight[i].Record? ==>
          flight[i].num < nextSeq && (w.inited ==> w.maxSeq < flight[i].num))
    && (forall i, j :: 0 <= i < j < |flight| && flight[i].Record? && flight[j].Record? ==>
          flight[i].num < flight[j].num)
  }

  ghost predicate Deliverable(c: Suite, k: Codec, d: Direction, flight: seq<Item>) {
    forall i :: 0 <= i < |flight| ==>
      Framable(k.encode(MsgOf(c, d, flight[i]))) && (flight[i].Record? ==> |d.key| == KEY_SIZE)
  }

  /** The invariant of one direction. */
  ghost predicate InTransit(c: Suite, k: Codec, tx: State, rx: State, l: Link) {
    && Outgoing(tx) == Incoming(rx)
    && l.wire == WireOf(c, k, Outgoing(tx), l.flight)
    && l.sent == l.got + Texts(l.flight)
    && Deliverable(c, k, Outgoing(tx), l.flight)
    && NumbersAhead(l.flight, tx.nextSeq, rx.window)
  }

  /** Writing one more message keeps wire, history and flight in step. */
  lemma WriteKeeps(c: Suite, k: Codec, d: Direction, l: Link, item: Item)
    requires l.wire == WireOf(c, k, d, l.flight) && l.sent == l.got + Texts(l.flight) && Deliverable(c, k, d, l.flight)
    requires Framable(k.encode(MsgOf(c, d, item))) && (item.Record? ==> |d.key| == KEY_SIZE)
    ensures
      var flight := l.flight + [item];
      && l.wire + Frame(k.encode(MsgOf(c, d, item))) == WireOf(c, k, d, flight)
      && l.sent + (if item.Record? then [item.text] else []) == l.got + Texts(flight)
      && Deliverable(c, k, d, flight)
  {
    hide Frame, WireOf, Texts, MsgOf, Framable;
    WireSnoc(c, k, d, l.flight, item);
    TextsSnoc(l.flight, item);
  }

  lemma SendKeeps(c: Suite, k: Codec, tx: State, rx: State, l: Link, text: Bytes)
    requires InTransit(c, k, tx, rx, l) && tx.nextSeq < U64 - WINDOW_SIZE
    ensures InTransit(c, k, Send(c, k, tx, l, text).0, rx, Send(c, k, tx, l, text).1)
  {
    var item := Record(tx.nextSeq, text);
    if SendStep(c, k, tx, text).1.Sent? {
      assert MsgOf(c, Outgoing(tx), item)
        == SealedData(c, tx.sendKey, tx.epochID, tx.localID, tx.peerID, tx.nextSeq, text);
      hide SealedData, Frame, WireOf, Texts, MsgOf, Deliverable, Framable;
      WriteKeeps(c, k, Outgoing(tx), l, item);
    }
  }

  lemma CloseKeeps(c: Suite, k: Codec, tx: State, rx: State, l: Link, reason: Bytes)
    requires InTransit(c, k, tx, rx, l)
    ensures InTransit(c, k, Close(k, tx, l, reason).0, rx, Close(k, tx, l, reason).1)
  {
    if CloseStep(k, tx, reason).1.Some? {
      assert MsgOf(c, Outgoing(tx), Bye(reason)) == Messages.Close(reason);
      hide Frame, WireOf, Texts, MsgOf, Deliverable, Framable;
      WriteKeeps(c, k, Outgoing(tx), l, Bye(reason));
      assert l.sent + [] == l.sent;
    }
  }

  /** A number ahead of the window is admitted, and the window moves to it. */
  lemma AheadIsAdmitted(w: Window, num: uint64)
    requires w.size == WINDOW_SIZE && num + WINDOW_SIZE < U64
    requires forall x :: x in w.seen ==> x <= w.maxSeq
    requires (w.inited ==> w.maxSeq < num) && (!w.inited ==> w.seen == {})
    ensures
      var (w', ok) := Admit(w, num);
      ok && w'.inited && w'.maxSeq == num && w'.size == w.size && (forall x :: x in w'.seen ==> x <= num)
  {
    ModUnique(num + w.size, U64, 0, num + w.size);
  }

  /** The receiver's next `Recv` on a non-empty flight returns exactly its first message. */
  lemma HeadIsReceived(c: Suite, k: Codec, tx: State, rx: State, l: Link)
    requires RoundTrips(k) && OpenInvertsSeal(c)
    requires InTransit(c, k, tx, rx, l) && !rx.closed && l.flight != []
    ensures
      var (rx', r, rest) := RecvStep(c, k, rx, l.wire);
      && rest == WireOf(c, k, Outgoing(tx), l.flight[1..])
      && (match l.flight[0]
          case Record(num, text) => r == Plaintext(text) && rx' == rx.(window := Admit(rx.window, num).0)
          case Bye(_) => r == PeerClosed && rx' == rx.(closed := true))
  {
    var d := Outgoing(tx);
    var m := MsgOf(c, d, l.flight[0]);
    var rest := WireOf(c, k, d, l.flight[1..]);
    assert l.wire == Frame(k.encode(m)) + rest;
    ParseFrame(k.encode(m), rest);
    match l.flight[0]
    case Bye(_) =>
      assert k.head(k.encode(m)) == Some(TYPE_CLOSE);
    case Record(num, text) =>
      assert k.head(k.encode(m)) == Some(TYPE_DATA) && k.decode(k.encode(m)) == Some(m);
      AheadIsAdmitted(rx.window, num);
      OwnDataOpens(c, rx, num, text);
      hide Parse, Frame, WireOf, RecvData, MsgOf, Admit;
  }

  lemma OwnDataOpens(c: Suite, rx: State, num: uint64, text: Bytes)
    requires OpenInvertsSeal(c) && |rx.recvKey| == KEY_SIZE && rx.window.size > 0 && Admit(rx.window, num).1
    ensures RecvData(c, rx, SealedData(c, rx.recvKey, rx.epochID, rx.peerID, rx.localID, num, text)) ==
      (rx.(window := Admit(rx.window, num).0), Plaintext(text))
  {
    hide Admit, BuildAAD, NonceFromSeq;
    var nonce := NonceFromSeq(num);
    var aad := BuildAAD(VERSION, rx.epochID, rx.peerID, rx.localID, num);
    assert c.open(rx.recvKey, nonce, aad, c.seal(rx.recvKey, nonce, aad, text)) == Some(text);
  }

  lemma ReceiveKeeps(c: Suite, k: Codec, tx: State, rx: State, l: Link)
    requires RoundTrips(k) && OpenInvertsSeal(c) && InTransit(c, k, tx, rx, l)
    ensures InTransit(c, k, tx, Receive(c, k, rx, l).0, Receive(c, k, rx, l).1)
  {
    if rx.closed {
    } else if l.flight == [] {
      assert Parse(l.wire) == Incomplete;
    } else {
      HeadIsReceived(c, k, tx, rx, l);
      TakeHead(l.flight, l.got);
      if l.flight[0].Record? {
        AheadIsAdmitted(rx.window, l.flight[0].num);
      }
      hide RecvStep, WireOf, Texts, MsgOf, Admit, Framable;
      var rest := l.flight[1..];
      assert forall i :: 0 <= i < |rest| ==> rest[i] == l.flight[i + 1];
    }
  }

  lemma TakeHead(flight: seq<Item>, got: seq<Bytes>)
    requires flight != []
    ensures flight[0].Record? ==> (got + [flight[0].text]) + Texts(flight[1..]) == got + Texts(flight)
    ensures flight[0].Bye? ==> Texts(flight[1..]) == Texts(flight)
  {
  }

  // ------------------------------------------------------------------ whole runs

  ghost predicate Linked(c: Suite, k: Codec, y: System) {
    InTransit(c, k, y.a, y.b, y.ab) && InTransit(c, k, y.b, y.a, y.ba)
  }

  /** What one party does to its own sending side leaves the other direction alone. */
  lemma OtherDirection(c: Suite, k: Codec, tx: State, rx: State, rx': State, l: Link)
    requires InTransit(c, k, tx, rx, l) && Incoming(rx') == Incoming(rx) && rx'.window == rx.window
    ensures InTransit(c, k, tx, rx', l)
  {
  }

  lemma OtherDirectionTx(c: Suite, k: Codec, tx: State, tx': State, rx: State, l: Link)
    requires InTransit(c, k, tx, rx, l) && Outgoing(tx') == Outgoing(tx) && tx'.nextSeq == tx.nextSeq
    ensures InTransit(c, k, tx', rx, l)
  {
  }

  lemma RecvFrame(c: Suite, k: Codec, rx: State, stream: Bytes)
    requires rx.window.size > 0
    ensures
      var rx' := RecvStep(c, k, rx, stream).0;
      Outgoing(rx') == Outgoing(rx) && Incoming(rx') == Incoming(rx) && rx'.nextSeq == rx.nextSeq
  {
  }

  lemma StepKeeps(c: Suite, k: Codec, y: System, act: Action)
    requires RoundTrips(k) && OpenInvertsSeal(c) && Linked(c, k, y)
    requires act.Sends? ==> (if act.who == A then y.a else y.b).nextSeq < U64 - WINDOW_SIZE
    ensures Linked(c, k, Step(c, k, y, act))
  {
    var y' := Step(c, k, y, act);
    match act
    case Sends(A, text) =>
      SendKeeps(c, k, y.a, y.b, y.ab, text);
      OtherDirection(c, k, y.b, y.a, y'.a, y.ba);
    case Sends(B, text) =>
      SendKeeps(c, k, y.b, y.a, y.ba, text);
      OtherDirection(c, k, y.a, y.b, y'.b, y.ab);
    case Receives(A) =>
      ReceiveKeeps(c, k, y.b, y.a, y.ba);
      RecvFrame(c, k, y.a, y.ba.wire);
      OtherDirectionTx(c, k, y.a, y'.a, y.b, y.ab);
    case Receives(B) =>
      ReceiveKeeps(c, k, y.a, y.b, y.ab);
      RecvFrame(c, k, y.b, y.ab.wire);
      OtherDirectionTx(c, k, y.b, y'.b, y.a, y.ba);
    case Closes(A, reason) =>
      CloseKeeps(c, k, y.a, y.b, y.ab, reason);
      OtherDirection(c, k, y.b, y.a, y'.a, y.ba);
    case Closes(B, reason) =>
      CloseKeeps(c, k, y.b, y.a, y.ba, reason);
      OtherDirection(c, k, y.a, y.b, y'.b, y.ab);
  }

  lemma {:induction false} RunKeeps(c: Suite, k: Codec, a: State, b: State, acts: seq<Action>)
    requires RoundTrips(k) && OpenInvertsSeal(c) && Paired(a, b)
    requires SendCount(acts, A) <= U64 - WINDOW_SIZE && SendCount(acts, B) <= U64 - WINDOW_SIZE
    ensures
      var y := Run(c, k, Start(a, b), acts);
      Linked(c, k, y) && y.a.nextSeq <= SendCount(acts, A) && y.b.nextSeq <= SendCount(acts, B)
  {
    if acts != [] {
      var front, last := acts[..|acts| - 1], acts[|acts| - 1];
      RunKeeps(c, k, a, b, front);
      var y := Run(c, k, Start(a, b), front);
      StepKeeps(c, k, y, last);
      CountsAdvance(c, k, y, last);
    }
  }

  lemma CountsAdvance(c: Suite, k: Codec, y: System, act: Action)
    requires y.a.window.size > 0 && y.b.window.size > 0
    requires act.Sends? ==> (if act.who == A then y.a else y.b).nextSeq < U64 - 1
    ensures
      var y' := Step(c, k, y, act);
      && y'.a.nextSeq == y.a.nextSeq + (if act.Sends? && act.who == A && !y.a.closed then 1 else 0)
      && y'.b.nextSeq == y.b.nextSeq + (if act.Sends? && act.who == B && !y.b.closed then 1 else 0)
  {
    RecvFrame(c, k, y.a, y.ba.wire);
    RecvFrame(c, k, y.b, y.ab.wire);
  }

  /** End-to-end delivery, in both directions and every interleaving with fewer than 2^64-128 sends a side:
      what was received, followed by what is still in flight, is exactly what was sent with success. So the
      received texts are a prefix of the sent ones, although a refused send leaves a gap in the numbers. */
  lemma EndToEnd(c: Suite, k: Codec, a: State, b: State, acts: seq<Action>)
    requires RoundTrips(k) && OpenInvertsSeal(c) && Paired(a, b)
    requires SendCount(acts, A) <= U64 - WINDOW_SIZE && SendCount(acts, B) <= U64 - WINDOW_SIZE
    ensures
      var y := Run(c, k, Start(a, b), acts);
      && y.ab.sent == y.ab.got + Texts(y.ab.flight) && y.ab.got <= y.ab.sent
      && y.ba.sent == y.ba.got + Texts(y.ba.flight) && y.ba.got <= y.ba.sent
  {
    RunKeeps(c, k, a, b, acts);
  }

  /** The next `Recv` waits exactly when nothing is in flight, and otherwise returns the oldest message. */
  ghost predicate NextRecvIsOldest(c: Suite, k: Codec, rx: State, l: Link)
    requires rx.window.size > 0
  {
    var r := RecvStep(c, k, rx, l.wire).1;
    && (r.Blocked? <==> l.flight == [])
    && (l.flight != [] ==> r == if l.flight[0].Record? then Plaintext(l.flight[0].text) else PeerClosed)
  }

  lemma OldestIsNext(c: Suite, k: Codec, tx: State, rx: State, l: Link)
    requires RoundTrips(k) && OpenInvertsSeal(c) && InTransit(c, k, tx, rx, l) && !rx.closed
    ensures NextRecvIsOldest(c, k, rx, l)
  {
    if l.flight == [] {
      assert Parse(l.wire) == Incomplete;
    } else {
      HeadIsReceived(c, k, tx, rx, l);
    }
  }

  /** No `Recv` of an open session is ever refused, on either side, at any point of any such run. */
  lemma RecvNeverFails(c: Suite, k: Codec, a: State, b: State, acts: seq<Action>)
    requires RoundTrips(k) && OpenInvertsSeal(c) && Paired(a, b)
    requires SendCount(acts, A) <= U64 - WINDOW_SIZE && SendCount(acts, B) <= U64 - WINDOW_SIZE
    ensures
      var y := Run(c, k, Start(a, b), acts);
      && (!y.b.closed ==> NextRecvIsOldest(c, k, y.b, y.ab))
      && (!y.a.closed ==> NextRecvIsOldest(c, k, y.a, y.ba))
  {
    RunKeeps(c, k, a, b, acts);
    var y := Run(c, k, Start(a, b), acts);
    if !y.b.closed {
      OldestIsNext(c, k, y.a, y.b, y.ab);
    }
    if !y.a.closed {
      OldestIsNext(c, k, y.b, y.a, y.ba);
    }
  }

  // ------------------------------------------------------------------ seal uniqueness

  /** The seal was made under one side's key with a number below that side's counter. */
  ghost predicate Spent(seal: (Bytes, Bytes), keyA: Bytes, nextA: int, keyB: Bytes, nextB: int) {
    exists n: uint64 :: seal.1 == NonceFromSeq(n) &&
      ((seal.0 == keyA && n < nextA) || (seal.0 == keyB && n < nextB))
  }

  ghost predicate SealsDistinct(y: System, keyA: Bytes, keyB: Bytes) {
    && y.a.sendKey == keyA && y.b.sendKey == keyB
    && (forall i :: 0 <= i < |y.seals| ==> Spent(y.seals[i], keyA, y.a.nextSeq, keyB, y.b.nextSeq))
    && (forall i, j :: 0 <= i < j < |y.seals| ==> y.seals[i] != y.seals[j])
  }

  lemma SpentStays(seal: (Bytes, Bytes), keyA: Bytes, nextA: int, keyB: Bytes, nextB: int, nextA': int, nextB': int)
    requires Spent(seal, keyA, nextA, keyB, nextB) && nextA <= nextA' && nextB <= nextB'
    ensures Spent(seal, keyA, nextA', keyB, nextB')
  {
    var n: uint64 :| seal.1 == NonceFromSeq(n) && ((seal.0 == keyA && n < nextA) || (seal.0 == keyB && n < nextB));
    hide NonceFromSeq;
    assert seal.1 == NonceFromSeq(n) && ((seal.0 == keyA && n < nextA') || (seal.0 == keyB && n < nextB'));
  }

  lemma UnspentIsNew(seal: (Bytes, Bytes), keyA: Bytes, nextA: int, keyB: Bytes, nextB: int, key: Bytes, num: uint64)
    requires Spent(seal, keyA, nextA, keyB, nextB) && keyA != keyB
    requires (key == keyA && num >= nextA) || (key == keyB && num >= nextB)
    ensures seal != (key, NonceFromSeq(num))
  {
    var n: uint64 :| seal.1 == NonceFromSeq(n) && ((seal.0 == keyA && n < nextA) || (seal.0 == keyB && n < nextB));
    if seal == (key, NonceFromSeq(num)) {
      NonceInjective(n, num);
    }
  }

  lemma SealStep(c: Suite, k: Codec, y: System, act: Action, keyA: Bytes, keyB: Bytes)
    requires keyA != keyB && y.a.window.size > 0 && y.b.window.size > 0 && SealsDistinct(y, keyA, keyB)
    requires act.Sends? ==> (if act.who == A then y.a else y.b).nextSeq < U64 - 1
    ensures SealsDistinct(Step(c, k, y, act), keyA, keyB)
  {
    var y' := Step(c, k, y, act);
    CountsAdvance(c, k, y, act);
    RecvFrame(c, k, y.a, y.ba.wire);
    RecvFrame(c, k, y.b, y.ab.wire);
    var s := if act.who == A then y.a else y.b;
    var latest := (s.sendKey, NonceFromSeq(s.nextSeq));
    assert y'.a.sendKey == keyA && y'.b.sendKey == keyB;
    assert y'.seals == y.seals || (act.Sends? && !s.closed && y'.seals == y.seals + [latest]);
    hide Step, NonceFromSeq, Spent;
    forall i | 0 <= i < |y.seals|
      ensures Spent(y.seals[i], keyA, y'.a.nextSeq, keyB, y'.b.nextSeq) && y.seals[i] != latest
    {
      SpentStays(y.seals[i], keyA, y.a.nextSeq, keyB, y.b.nextSeq, y'.a.nextSeq, y'.b.nextSeq);
      UnspentIsNew(y.seals[i], keyA, y.a.nextSeq, keyB, y.b.nextSeq, s.sendKey, s.nextSeq);
    }
    if act.Sends? && !s.closed {
      LatestIsSpent(s.sendKey, s.nextSeq, keyA, y'.a.nextSeq, keyB, y'.b.nextSeq);
    }
  }

  lemma LatestIsSpent(key: Bytes, num: uint64, keyA: Bytes, nextA: int, keyB: Bytes, nextB: int)
    requires (key == keyA && num < nextA) || (key == keyB && num < nextB)
    ensures Spent((key, NonceFromSeq(num)), keyA, nextA, keyB, nextB)
  {
    hide NonceFromSeq;
  }

  lemma {:induction false} RunSeals(c: Suite, k: Codec, a: State, b: State, acts: seq<Action>)
    requires Paired(a, b) && a.sendKey != b.sendKey
    requires SendCount(acts, A) < U64 && SendCount(acts, B) < U64
    ensures
      var y := Run(c, k, Start(a, b), acts);
      && SealsDistinct(y, a.sendKey, b.sendKey)
      && y.a.nextSeq <= SendCount(acts, A) && y.b.nextSeq <= SendCount(acts, B)
  {
    if acts != [] {
      var front, last := acts[..|acts| - 1], acts[|acts| - 1];
      RunSeals(c, k, a, b, front);
      var y := Run(c, k, Start(a, b), front);
      SealStep(c, k, y, last, a.sendKey, b.sendKey);
      CountsAdvance(c, k, y, last);
    }
  }

  /** Over a whole session below 2^64 sends a side, no (key, nonce) pair seals twice, in either direction:
      the requirement of section 2.8 of RFC 8439. */
  lemma NonceNeverReused(c: Suite, k: Codec, a: State, b: State, acts: seq<Action>, i: nat, j: nat)
    requires Paired(a, b) && a.sendKey != b.sendKey
    requires SendCount(acts, A) < U64 && SendCount(acts, B) < U64
    requires i < j < |Run(c, k, Start(a, b), acts).seals|
    ensures Run(c, k, Start(a, b), acts).seals[i] != Run(c, k, Start(a, b), acts).seals[j]
  {
    RunSeals(c, k, a, b, acts);
  }

  /** The two send keys must differ: with equal ones the first record of each side reuses a pair. */
  lemma EqualKeysReuseNonce(c: Suite, k: Codec, a: State, b: State, x: Bytes, y: Bytes)
    requires Paired(a, b) && a.sendKey == b.sendKey && |a.sendKey| == KEY_SIZE
    ensures
      var seals := Run(c, k, Start(a, b), [Sends(A, x), Sends(B, y)]).seals;
      |seals| == 2 && seals[0] == seals[1]
  {
    var s0 := Start(a, b);
    var acts := [Sends(A, x), Sends(B, y)];
    assert acts[..1] == [Sends(A, x)] && acts[..1][..0] == [];
    assert Run(c, k, s0, []) == s0;
    var s1 := Run(c, k, s0, acts[..1]);
    assert s1 == Step(c, k, s0, Sends(A, x));
    assert s1.b == b && s1.seals == Sealed(a);
    assert Run(c, k, s0, acts) == Step(c, k, s1, Sends(B, y));
  }

  function StateOf(y: System, who: Side): State { if who == A then y.a else y.b }
  function LinkOf(y: System, who: Side): Link { if who == A then y.ab else y.ba }

  /** Closing closes, and a closed session stays as it is: whatever happens later, its state does not change and it
      sends nothing more. */
  lemma {:induction false} ClosedForGood(c: Suite, k: Codec, y: System, who: Side, reason: Bytes, acts: seq<Action>)
    requires y.a.window.size > 0 && y.b.window.size > 0
    ensures
      var y1 := Step(c, k, y, Closes(who, reason));
      && StateOf(y1, who).closed && y1.a.window.size > 0 && y1.b.window.size > 0
      && var z := Run(c, k, y1, acts);
      StateOf(z, who) == StateOf(y1, who) && LinkOf(z, who).sent == LinkOf(y1, who).sent
  {
    StepKeepsWindows(c, k, y, Closes(who, reason));
    var y1 := Step(c, k, y, Closes(who, reason));
    assert StateOf(y1, who).closed;
    hide Step, RecvStep;
    if acts != [] {
      var front := acts[..|acts| - 1];
      ClosedForGood(c, k, y, who, reason, front);
      ClosedStep(c, k, Run(c, k, y1, front), who, acts[|acts| - 1]);
    }
  }

  lemma ClosedStep(c: Suite, k: Codec, y: System, who: Side, act: Action)
    requires y.a.window.size > 0 && y.b.window.size > 0 && StateOf(y, who).closed
    ensures
      var z := Step(c, k, y, act);
      StateOf(z, who) == StateOf(y, who) && LinkOf(z, who).sent == LinkOf(y, who).sent
  {
    hide RecvPayload, Parse;
  }
}

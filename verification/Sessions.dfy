/** An established session: `Send`, `Recv` and `Close` of internal/p2p/session.go. */
module Sessions {
  import opened Octets
  import opened Crypto
  import opened Frames
  import opened Messages
  import opened Replay
  import DataChannel

  const VERSION: Byte := 1
  const WINDOW_SIZE: uint64 := 128

  datatype State = State(
    localID: Bytes, peerID: Bytes, epochID: uint64, sendKey: Bytes, recvKey: Bytes,
    nextSeq: uint64, window: Window, closed: bool)

  function Established(localID: Bytes, peerID: Bytes, epoch: uint64, sendKey: Bytes, recvKey: Bytes): State {
    State(localID, peerID, epoch, sendKey, recvKey, 0, New(WINDOW_SIZE), false)
  }

  /** The DATA message sealed under a key for one direction. */
  function SealedData(c: Suite, key: Bytes, epoch: uint64, sender: Bytes, receiver: Bytes, num: uint64,
                      text: Bytes): Msg
  {
    Data(epoch, num, NonceFromSeq(num),
         c.seal(key, NonceFromSeq(num), BuildAAD(VERSION, epoch, sender, receiver, num), text))
  }

  datatype SendResult = Sent(frame: Bytes) | NotSent

  /** The number is used up before anything can fail. */
  function SendStep(c: Suite, k: Codec, s: State, text: Bytes): (State, SendResult) {
    if s.closed then (s, NotSent)
    else
      var s' := s.(nextSeq := Succ64(s.nextSeq));
      if |s.sendKey| != KEY_SIZE then (s', NotSent)
      else
        var payload := k.encode(SealedData(c, s.sendKey, s.epochID, s.localID, s.peerID, s.nextSeq, text));
        (s', if Framable(payload) then Sent(Frame(payload)) else NotSent)
  }

  datatype RecvResult = Plaintext(text: Bytes) | PeerClosed | Failed | Blocked

  /** The window moves before the ciphertext is opened. */
  function RecvData(c: Suite, s: State, m: Msg): (State, RecvResult)
    requires s.window.size > 0 && m.Data?
  {
    if m.epochID != s.epochID then (s, Failed)
    else
      var (w, ok) := Admit(s.window, m.num);
      if !ok then (s, Failed)
      else
        var nonce := if m.nonce == [] then NonceFromSeq(m.num) else m.nonce;
        var aad := BuildAAD(VERSION, s.epochID, s.peerID, s.localID, m.num);
        var text := Open(c, s.recvKey, nonce, aad, m.ciphertext);
        (s.(window := w), if text.None? then Failed else Plaintext(text.value))
  }

  function RecvPayload(c: Suite, k: Codec, s: State, b: Bytes): (State, RecvResult)
    requires s.window.size > 0
  {
    match k.head(b)
    case None => (s, Failed)
    case Some(t) =>
      if t == TYPE_CLOSE then (s.(closed := true), PeerClosed)
      else if t != TYPE_DATA then (s, Failed)
      else
        var m := k.decode(b);
        if m.None? || !m.value.Data? then (s, Failed)
        else RecvData(c, s, m.value)
  }

  /** `Recv` on the byte stream ahead of it: new state, outcome and what is left of the stream. */
  function RecvStep(c: Suite, k: Codec, s: State, stream: Bytes): (State, RecvResult, Bytes)
    requires s.window.size > 0
  {
    if s.closed then (s, Failed, stream)
    else
      match Parse(stream)
      case Incomplete => (s, Blocked, stream)
      case BadLength(rest) => (s, Failed, rest)
      case Payload(b, rest) => var (s', r) := RecvPayload(c, k, s, b); (s', r, rest)
  }

  /** `Close`: the CLOSE frame it writes, if any. */
  function CloseStep(k: Codec, s: State, reason: Bytes): (State, Option<Bytes>) {
    if s.closed then (s, None)
    else (s.(closed := true),
          if Framable(k.encode(Close(reason))) then Some(Frame(k.encode(Close(reason)))) else None)
  }

  class Session {
    const c: Suite
    const k: Codec
    const conn: DataChannel.DCConn
    const replay: ReplayWindow
    const localID: Bytes
    const peerID: Bytes
    const epochID: uint64
    const sendKey: Bytes
    const recvKey: Bytes
    var nextSeq: uint64
    var closed: bool

    ghost predicate Valid()
      reads this, conn, replay
    {
      conn.Valid() && replay.Valid()
    }

    function Current(): State
      reads this, replay
    {
      State(localID, peerID, epochID, sendKey, recvKey, nextSeq, replay.State(), closed)
    }

    constructor (c: Suite, k: Codec, conn: DataChannel.DCConn, localID: Bytes, peerID: Bytes, epochID: uint64,
                 sendKey: Bytes, recvKey: Bytes)
      requires conn.Valid()
      ensures Valid() && fresh(replay) && this.conn == conn && this.c == c && this.k == k
      ensures Current() == Established(localID, peerID, epochID, sendKey, recvKey) && replay.State() == New(128)
    {
      this.c, this.k, this.conn := c, k, conn;
      this.localID, this.peerID, this.epochID := localID, peerID, epochID;
      this.sendKey, this.recvKey := sendKey, recvKey;
      nextSeq, closed := 0, false;
      replay := new ReplayWindow(WINDOW_SIZE);
    }

    method Send(text: Bytes) returns (ok: bool)
      requires Valid()
      modifies this, conn
      ensures Valid() && replay.State() == old(replay.State())
      ensures conn.Stream() == old(conn.Stream())
      ensures conn.Queue() == old(conn.Queue()) && conn.arrivals == old(conn.arrivals)
      ensures Current() == SendStep(c, k, old(Current()), text).0
      ensures ok <==> SendStep(c, k, old(Current()), text).1.Sent? && !old(conn.closed)
      ensures Flatten(conn.sent) ==
        old(Flatten(conn.sent)) + if ok then SendStep(c, k, old(Current()), text).1.frame else []
    {
      hide Flatten;
      if closed {
        return false;
      }
      var num := nextSeq;
      nextSeq := Succ64(nextSeq);
      var nonce := EncodeNonce(num);
      var aad := EncodeAAD(VERSION, epochID, localID, peerID, num);
      var ct := Seal(c, sendKey, nonce, aad, text);
      if ct.None? {
        return false;
      }
      ok := conn.WriteFrame(k.encode(Data(epochID, num, nonce, ct.value)));
    }

    /** Whatever the chunking and timing of roomy arrivals, `Recv` acts on the flat stream; what it returns
        comes from there even when the channel closes meanwhile. */
    method Recv() returns (r: RecvResult)
      requires Valid()
      modifies this, conn, replay
      ensures Valid() && (old(conn.Lossless()) ==> conn.Lossless()) && (old(conn.Steady()) ==> conn.Steady())
      ensures old(conn.Steady()) || (!conn.lost && !conn.closed) ==>
        var (s, r', rest) := RecvStep(c, k, old(Current()), old(conn.Stream()));
        && Current() == s && (r'.Blocked? || conn.Stream() == rest)
        && r == if r'.Blocked? && conn.closed then Failed else r'
      ensures old(conn.Lossless()) && (r.Plaintext? || r.PeerClosed?) ==>
        RecvStep(c, k, old(Current()), old(conn.Stream())) == (Current(), r, conn.Stream())
    {
      if closed {
        return Failed;
      }
      var frame := conn.ReadFrame();
      if frame.Waiting? {
        return Blocked;
      }
      if !frame.Payload? {
        return Failed;
      }
      r := Handle(frame.payload);
    }

    method Handle(b: Bytes) returns (r: RecvResult)
      requires Valid() && !closed
      modifies this, replay
      ensures Valid() && (Current(), r) == RecvPayload(c, k, old(Current()), b) && !r.Blocked?
    {
      var t := k.head(b);
      if t.None? {
        return Failed;
      }
      if t.value == TYPE_CLOSE {
        closed := true;
        return PeerClosed;
      }
      if t.value != TYPE_DATA {
        return Failed;
      }
      var m := k.decode(b);
      if m.None? || !m.value.Data? {
        return Failed;
      }
      var msg := m.value;
      if msg.epochID != epochID {
        return Failed;
      }
      hide Admit, BuildAAD, NonceFromSeq, Open;
      ghost var before := Current();
      var accepted := replay.Accept(msg.num);
      if !accepted {
        RefusalKeepsWindow(before.window, msg.num);
        return Failed;
      }
      var nonce := msg.nonce;
      if nonce == [] {
        nonce := EncodeNonce(msg.num);
      }
      var aad := EncodeAAD(VERSION, epochID, peerID, localID, msg.num);
      var text := Open(c, recvKey, nonce, aad, msg.ciphertext);
      r := if text.None? then Failed else Plaintext(text.value);
    }

    method Close(reason: Bytes)
      requires Valid()
      modifies this, conn
      ensures Valid() && Current() == CloseStep(k, old(Current()), reason).0
      ensures Flatten(conn.sent) == old(Flatten(conn.sent)) +
        match CloseStep(k, old(Current()), reason).1
        case Some(frame) => if old(conn.closed) then [] else frame
        case None => []
      ensures !old(closed) ==> conn.closed
    {
      hide Flatten;
      if closed {
        return;
      }
      closed := true;
      var _ := conn.WriteFrame(k.encode(Messages.Close(reason)));
      conn.Close();
    }
  }
}

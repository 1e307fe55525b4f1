/** One session and whatever it is handed: replayed, reordered, forged or strange payloads, not only those of its
    peer (internal/p2p/session.go, Recv; internal/p2p/replay.go). */
module Intake {
  import opened Octets
  import opened Crypto
  import opened Messages
  import opened Sessions
  import R = Replay

  /** The number a payload offers to the replay window of a session of this epoch. */
  function Offer(k: Codec, epoch: uint64, b: Bytes): Option<uint64> {
    if k.head(b) != Some(4) then None
    else
      match k.decode(b)
      case Some(Data(e, num, _, _)) => if e == epoch then Some(num) else None
      case _ => None
  }

  predicate Closes(k: Codec, b: Bytes) { k.head(b) == Some(5) }

  /** The payload opens under the session's receive key, bound to peer, self, epoch and number, to this text. */
  predicate OpensTo(c: Suite, k: Codec, s: State, b: Bytes, text: Bytes) {
    match k.decode(b)
    case Some(Data(_, num, nonce, ct)) =>
      var n := if nonce == [] then NonceFromSeq(num) else nonce;
      && |s.recvKey| == 32 && |n| == 12
      && c.open(s.recvKey, n, BuildAAD(1, s.epochID, s.peerID, s.localID, num), ct) == Some(text)
    case _ => false
  }

  /** What an open session returns as plaintext, and when: a record of its epoch whose number the window admits and
      whose ciphertext opens. Then exactly the window has moved. */
  lemma PlaintextIff(c: Suite, k: Codec, s: State, b: Bytes, text: Bytes)
    requires s.window.size > 0
    ensures RecvPayload(c, k, s, b).1 == Plaintext(text) <==>
      var n := Offer(k, s.epochID, b);
      n.Some? && R.Admit(s.window, n.value).1 && OpensTo(c, k, s, b, text)
    ensures RecvPayload(c, k, s, b).1.Plaintext? ==>
      RecvPayload(c, k, s, b).0 == s.(window := R.Admit(s.window, Offer(k, s.epochID, b).value).0)
  {
    hide R.Admit, BuildAAD, NonceFromSeq;
  }

  /** A number the window has, or one below the window, is refused and leaves the session as it was. */
  lemma KnownNumberRefused(c: Suite, k: Codec, s: State, b: Bytes, num: uint64)
    requires s.window.size > 0 && s.window.inited && Offer(k, s.epochID, b) == Some(num)
    requires num in s.window.seen || (num + s.window.size < U64 && num + s.window.size < s.window.maxSeq)
    ensures RecvPayload(c, k, s, b) == (s, Failed)
  {
    if num + s.window.size < U64 {
      ModUnique(num + s.window.size, U64, 0, num + s.window.size);
    }
    hide BuildAAD, NonceFromSeq;
  }

  /** So are a payload that is no DATA of this epoch and no CLOSE, and everything once the session is closed. */
  lemma StrangeRefused(c: Suite, k: Codec, s: State, b: Bytes, stream: Bytes)
    requires s.window.size > 0
    ensures Offer(k, s.epochID, b).None? && !Closes(k, b) ==> RecvPayload(c, k, s, b) == (s, Failed)
    ensures Closes(k, b) ==> RecvPayload(c, k, s, b) == (s.(closed := true), PeerClosed)
    ensures s.closed ==> RecvStep(c, k, s, stream) == (s, Failed, stream)
  {
    hide R.Admit, BuildAAD, NonceFromSeq;
  }

  // ------------------------------------------------------------------ runs

  /** A session and the numbers of the records it returned as plaintext, oldest first. */
  datatype Taken = Taken(s: State, plain: seq<uint64>)

  function Step(c: Suite, k: Codec, t: Taken, b: Bytes): Taken
    requires t.s.window.size > 0
  {
    if t.s.closed then t
    else
      var (s, r) := RecvPayload(c, k, t.s, b);
      var n := Offer(k, t.s.epochID, b);
      Taken(s, if r.Plaintext? then t.plain + [if n.Some? then n.value else 0] else t.plain)
  }

  lemma StepKeepsSize(c: Suite, k: Codec, t: Taken, b: Bytes)
    requires t.s.window.size > 0
    ensures Step(c, k, t, b).s.window.size == t.s.window.size
  {
    hide BuildAAD, NonceFromSeq;
  }

  function Run(c: Suite, k: Codec, s: State, payloads: seq<Bytes>): (t: Taken)
    requires s.window.size > 0
    ensures t.s.window.size > 0
  {
    if payloads == [] then Taken(s, [])
    else
      var t := Run(c, k, s, payloads[..|payloads| - 1]);
      StepKeepsSize(c, k, t, payloads[|payloads| - 1]);
      Step(c, k, t, payloads[|payloads| - 1])
  }

  predicate ClosedBy(k: Codec, payloads: seq<Bytes>) {
    payloads != [] && (Closes(k, payloads[|payloads| - 1]) || ClosedBy(k, payloads[..|payloads| - 1]))
  }

  /** The numbers offered before the session is closed. */
  function Offers(k: Codec, epoch: uint64, payloads: seq<Bytes>): seq<uint64> {
    if payloads == [] then []
    else
      var front, b := payloads[..|payloads| - 1], payloads[|payloads| - 1];
      Offers(k, epoch, front) +
        if !ClosedBy(k, front) && Offer(k, epoch, b).Some? then [Offer(k, epoch, b).value] else []
  }

  /** The session against the replay window over the offers alone. */
  ghost predicate Guarded(s: State, t: Taken, offers: seq<uint64>, closed: bool) {
    var w := R.Run(128, offers);
    && t.s == s.(window := w.w, closed := closed)
    && forall x: uint64 :: R.Count(t.plain, x) <= R.Count(w.log, x)
  }

  lemma RunSnoc(offers: seq<uint64>, n: uint64)
    ensures R.Run(128, offers + [n]) == R.Step(R.Run(128, offers), n)
  {
    assert (offers + [n])[..|offers|] == offers;
    hide R.Step;
  }

  lemma StepGuarded(c: Suite, k: Codec, s: State, t: Taken, offers: seq<uint64>, b: Bytes)
    requires s.window.size > 0 && !s.closed && Guarded(s, t, offers, false) && t.s.window.size > 0
    ensures
      var n := Offer(k, s.epochID, b);
      Guarded(s, Step(c, k, t, b), offers + (if n.Some? then [n.value] else []), Closes(k, b))
  {
    hide BuildAAD, NonceFromSeq;
    var n := Offer(k, s.epochID, b);
    StrangeRefused(c, k, t.s, b, []);
    if n.Some? {
      var w := R.Run(128, offers);
      RunSnoc(offers, n.value);
      R.CountStep(w.log, n.value);
      R.CountStep(t.plain, n.value);
      R.RefusalKeepsWindow(t.s.window, n.value);
      hide R.Admit, R.Run, R.Count;
    } else {
      assert offers + [] == offers;
      hide R.Run, R.Count, RecvPayload;
    }
  }

  /** After any payloads at all, the window of a new session is the one of the offers alone, and no number yielded
      plaintext more often than that window accepted it. */
  lemma {:induction false} RunGuarded(c: Suite, k: Codec, s: State, payloads: seq<Bytes>)
    requires s.window == R.New(128) && !s.closed
    ensures Guarded(s, Run(c, k, s, payloads), Offers(k, s.epochID, payloads), ClosedBy(k, payloads))
  {
    hide Guarded, Step;
    if payloads == [] {
      NothingTaken(s);
    } else {
      var front, b := payloads[..|payloads| - 1], payloads[|payloads| - 1];
      var t, offers := Run(c, k, s, front), Offers(k, s.epochID, front);
      RunGuarded(c, k, s, front);
      if ClosedBy(k, front) {
        ClosedStays(c, k, s, t, offers, b);
        assert offers + [] == offers;
      } else {
        StepGuarded(c, k, s, t, offers, b);
      }
    }
  }

  lemma NothingTaken(s: State)
    requires s.window == R.New(128) && !s.closed
    ensures Guarded(s, Taken(s, []), [], false)
  {
  }

  lemma ClosedStays(c: Suite, k: Codec, s: State, t: Taken, offers: seq<uint64>, b: Bytes)
    requires Guarded(s, t, offers, true) && t.s.window.size > 0
    ensures Step(c, k, t, b) == t
  {
    hide R.Run;
  }

  /** No record yields plaintext three times, and none twice if the offers do not repeat, on the window's edge, a
      number offered inside it. */
  lemma PlaintextOnce(c: Suite, k: Codec, s: State, payloads: seq<Bytes>, x: uint64)
    requires s.window == R.New(128) && !s.closed && R.NoWrap(128, Offers(k, s.epochID, payloads))
    ensures
      var n, offers := R.Count(Run(c, k, s, payloads).plain, x), Offers(k, s.epochID, payloads);
      n <= 2 && (R.NoEdgeRepeat(128, offers) ==> n <= 1)
  {
    var offers := Offers(k, s.epochID, payloads);
    RunGuarded(c, k, s, payloads);
    R.RunKeeps(128, offers);
    R.AcceptedOnceIff(128, offers);
    hide Run, Offers, R.Run, R.NoEdgeRepeat, R.Count;
  }

  /** Every payload that offers a number opens. */
  ghost predicate AllOpen(c: Suite, k: Codec, s: State, payloads: seq<Bytes>) {
    forall i :: 0 <= i < |payloads| && Offer(k, s.epochID, payloads[i]).Some? ==>
      exists text :: OpensTo(c, k, s, payloads[i], text)
  }

  lemma StepPlain(c: Suite, k: Codec, t: Taken, b: Bytes)
    requires t.s.window.size > 0 && !t.s.closed
    requires Offer(k, t.s.epochID, b).Some? ==> exists text :: OpensTo(c, k, t.s, b, text)
    ensures
      var n := Offer(k, t.s.epochID, b);
      Step(c, k, t, b).plain == if n.Some? && R.Admit(t.s.window, n.value).1 then t.plain + [n.value] else t.plain
  {
    var n := Offer(k, t.s.epochID, b);
    hide R.Admit, OpensTo;
    if n.Some? && R.Admit(t.s.window, n.value).1 {
      var text :| OpensTo(c, k, t.s, b, text);
      PlaintextIff(c, k, t.s, b, text);
    }
    var r := RecvPayload(c, k, t.s, b).1;
    if r.Plaintext? {
      PlaintextIff(c, k, t.s, b, r.text);
    }
    hide RecvPayload;
  }

  /** If they all do, the session returns exactly what the window accepts. */
  lemma {:induction false} AllOpenReturnsLog(c: Suite, k: Codec, s: State, payloads: seq<Bytes>)
    requires s.window == R.New(128) && !s.closed && AllOpen(c, k, s, payloads)
    ensures Run(c, k, s, payloads).plain == R.Run(128, Offers(k, s.epochID, payloads)).log
  {
    if payloads != [] {
      var front, b := payloads[..|payloads| - 1], payloads[|payloads| - 1];
      assert forall i :: 0 <= i < |front| ==> front[i] == payloads[i];
      var t, offers := Run(c, k, s, front), Offers(k, s.epochID, front);
      AllOpenReturnsLog(c, k, s, front);
      RunGuarded(c, k, s, front);
      hide R.Run, R.Count, R.Admit, OpensTo;
      if ClosedBy(k, front) {
        assert offers + [] == offers;
      } else {
        SameOpening(c, k, s, t.s, b);
        assert payloads[|payloads| - 1] == b;
        StepPlain(c, k, t, b);
        hide Step;
        if Offer(k, s.epochID, b).Some? {
          RunSnoc(offers, Offer(k, s.epochID, b).value);
        } else {
          assert offers + [] == offers;
        }
      }
    }
  }

  lemma SameOpening(c: Suite, k: Codec, s: State, s': State, b: Bytes)
    requires s' == s.(window := s'.window, closed := s'.closed)
    ensures forall text :: OpensTo(c, k, s', b, text) <==> OpensTo(c, k, s, b, text)
  {
    hide BuildAAD, NonceFromSeq;
  }

  /** With genuine records, replayed in any order, the condition is exact. */
  lemma GenuineOnceIff(c: Suite, k: Codec, s: State, payloads: seq<Bytes>)
    requires s.window == R.New(128) && !s.closed && AllOpen(c, k, s, payloads)
    requires R.NoWrap(128, Offers(k, s.epochID, payloads))
    ensures R.Distinct(Run(c, k, s, payloads).plain) <==> R.NoEdgeRepeat(128, Offers(k, s.epochID, payloads))
  {
    AllOpenReturnsLog(c, k, s, payloads);
    R.AcceptedOnceIff(128, Offers(k, s.epochID, payloads));
    hide Run, Offers, R.Run, R.NoEdgeRepeat, R.Distinct;
  }

  /** After any payloads: a record whose number yielded plaintext before and is less than 128 below the window's
      maximum, or is more than 128 below it whether it did or not, is refused and leaves the session as it was. */
  lemma RepeatRefused(c: Suite, k: Codec, s: State, payloads: seq<Bytes>, b: Bytes, num: uint64)
    requires s.window == R.New(128) && !s.closed && !ClosedBy(k, payloads)
    requires R.NoWrap(128, Offers(k, s.epochID, payloads)) && num + 128 < U64
    requires Offer(k, s.epochID, b) == Some(num)
    ensures
      var t := Run(c, k, s, payloads);
      var max := t.s.window.maxSeq;
      t.s.window.inited && ((num in t.plain && num + 128 > max) || num + 128 < max) ==>
        RecvPayload(c, k, t.s, b) == (t.s, Failed)
  {
    var t, offers := Run(c, k, s, payloads), Offers(k, s.epochID, payloads);
    RunGuarded(c, k, s, payloads);
    R.RunKeeps(128, offers);
    var w := R.Run(128, offers);
    assert num in t.plain ==> R.Count(t.plain, num) >= 1;
    assert R.Count(w.log, num) >= 1 ==> num in w.log;
    hide Run, Offers, R.Run, RecvPayload;
    if t.s.window.inited && ((num in t.plain && num + 128 > t.s.window.maxSeq) || num + 128 < t.s.window.maxSeq) {
      KnownNumberRefused(c, k, t.s, b, num);
    }
  }
}

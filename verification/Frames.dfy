/** Length-prefixed frames: internal/p2p/frame.go. */
module Frames {
  import opened Octets

  const MAX_PAYLOAD: int := 65536

  predicate Framable(payload: Bytes) {
    0 < |payload| <= MAX_PAYLOAD
  }

  function Frame(payload: Bytes): Bytes {
    Digits(|payload|, 4) + payload
  }

  datatype Parsed = Payload(payload: Bytes, rest: Bytes) | BadLength(rest: Bytes) | Incomplete

  /** What `ReadFrame` makes of a byte stream. */
  function Parse(stream: Bytes): Parsed {
    if |stream| < 4 then Incomplete
    else
      var n := Number(stream[..4]);
      if n == 0 || n > MAX_PAYLOAD then BadLength(stream[4..])
      else if |stream| < 4 + n then Incomplete
      else Payload(stream[4..4 + n], stream[4 + n..])
  }

  /** The limits, in bytes: 1 to 65536, behind a header of four. */
  lemma FrameSize(payload: Bytes)
    ensures Framable(payload) <==> 1 <= |payload| <= 65536
    ensures |Frame(payload)| == 4 + |payload|
  {
  }

  /** A frame is refused exactly for a length of 0 or above 65536, before its payload is read. */
  lemma RefusedIff(stream: Bytes)
    requires |stream| >= 4
    ensures Parse(stream).BadLength? <==> Number(stream[..4]) == 0 || Number(stream[..4]) > 65536
    ensures Parse(stream).BadLength? ==> Parse(stream).rest == stream[4..]
  {
  }

  lemma HeaderValue(n: nat)
    requires n <= MAX_PAYLOAD
    ensures Number(Digits(n, 4)) == n
  {
    PowerValues();
    NumberOfDigits(n, 4);
  }

  lemma ParseFrame(payload: Bytes, rest: Bytes)
    requires Framable(payload)
    ensures Parse(Frame(payload) + rest) == Payload(payload, rest)
  {
    var header := Digits(|payload|, 4);
    var stream := Frame(payload) + rest;
    HeaderValue(|payload|);
    assert stream[..4] == header;
    assert stream[4..4 + |payload|] == payload && stream[4 + |payload|..] == rest;
  }

  ghost predicate AllFramable(payloads: seq<Bytes>) {
    forall i :: 0 <= i < |payloads| ==> Framable(payloads[i])
  }

  function Encode(payloads: seq<Bytes>): Bytes {
    if payloads == [] then [] else Frame(payloads[0]) + Encode(payloads[1..])
  }

  /** Repeated `ReadFrame` until the stream runs dry or is refused. */
  function ParseAll(stream: Bytes): seq<Bytes>
    decreases |stream|
  {
    match Parse(stream)
    case Payload(p, rest) => [p] + ParseAll(rest)
    case BadLength(_) => []
    case Incomplete => []
  }

  lemma CutFrameIncomplete(payload: Bytes, later: Bytes, n: nat)
    requires Framable(payload) && n < 4 + |payload|
    ensures Parse((Frame(payload) + later)[..n]) == Incomplete
  {
    var stream := (Frame(payload) + later)[..n];
    if n >= 4 {
      HeaderValue(|payload|);
      assert stream[..4] == Digits(|payload|, 4);
    }
  }

  /** Any prefix of a written stream reads back as a prefix of what was written, and never as a
      malformed frame; the whole stream reads back as the whole list. */
  lemma {:induction false} PrefixReadsPrefix(payloads: seq<Bytes>, n: nat)
    requires AllFramable(payloads) && n <= |Encode(payloads)|
    ensures ParseAll(Encode(payloads)[..n]) <= payloads
    ensures n == |Encode(payloads)| ==> ParseAll(Encode(payloads)[..n]) == payloads
    ensures !Parse(Encode(payloads)[..n]).BadLength?
    decreases |payloads|
  {
    if payloads != [] {
      var p, tail := payloads[0], payloads[1..];
      if n < 4 + |p| {
        CutFrameIncomplete(p, Encode(tail), n);
      } else {
        var cut := Encode(tail)[..n - 4 - |p|];
        assert Encode(payloads)[..n] == Frame(p) + cut;
        ParseFrame(p, cut);
        PrefixReadsPrefix(tail, n - 4 - |p|);
        hide Parse, Encode, Frame;
        assert [p] + tail == payloads;
      }
    }
  }

  /** Frames written one after another are recovered exactly. */
  lemma StreamRoundTrip(payloads: seq<Bytes>)
    requires AllFramable(payloads)
    ensures ParseAll(Encode(payloads)) == payloads
  {
    PrefixReadsPrefix(payloads, |Encode(payloads)|);
    assert Encode(payloads)[..|Encode(payloads)|] == Encode(payloads);
  }
}

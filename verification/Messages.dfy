/** The peer messages and their encoding: internal/p2p/msg.go. The JSON codec is a parameter. */
module Messages {
  import opened Octets

  datatype Msg =
    | Hello(ver: Byte, deviceID: Bytes, epochID: uint64, identityPK: Bytes, ephPK: Bytes,
            sessionNonce: Bytes, keySerial: uint64, profile: Bytes)
    | HelloAck(ver: Byte, deviceID: Bytes, epochID: uint64, identityPK: Bytes, ephPK: Bytes,
               sessionNonce: Bytes, keySerial: uint64, profile: Bytes, accept: bool)
    | KeyOffer(epochID: uint64, nonce: Bytes, ciphertext: Bytes)
    | Data(epochID: uint64, num: uint64, nonce: Bytes, ciphertext: Bytes)
    | Close(reason: Bytes)

  const TYPE_DATA: Byte := 4
  const TYPE_CLOSE: Byte := 5

  function TypeOf(m: Msg): Byte {
    match m
    case Hello(_, _, _, _, _, _, _, _) => 1
    case HelloAck(_, _, _, _, _, _, _, _, _) => 2
    case Data(_, _, _, _) => TYPE_DATA
    case Close(_) => TYPE_CLOSE
    case KeyOffer(_, _, _) => 7
  }

  /** `encode` is json.Marshal, `head` reads only the type field, `decode` the whole message. */
  datatype Codec = Codec(encode: Msg -> Bytes, head: Bytes -> Option<Byte>, decode: Bytes -> Option<Msg>)

  ghost predicate RoundTrips(k: Codec) {
    forall m: Msg :: k.head(k.encode(m)) == Some(TypeOf(m)) && k.decode(k.encode(m)) == Some(m)
  }
}

/**
 * The binary-to-text encoding of stored values. The key store writes
 * base64 text (RFC 4648, section 4) produced by the runtime's buffer type and
 * reads it back leniently. That encoder is not part of this model: the
 * functions below are a stand-in with exactly the two properties the store
 * relies on, proved as lemmas: decoding inverts encoding, and only the empty
 * byte string encodes to the empty text.
 */
module Codec {

  newtype byte = x: int | 0 <= x < 256

  function EncodeByte(b: byte): char
  {
    (b as int) as char
  }

  function DecodeChar(c: char): byte
  {
    ((c as int) % 256) as byte
  }

  /** key.toString('base64') */
  function Encode(bytes: seq<byte>): (text: string)
  {
    if bytes == [] then "" else [EncodeByte(bytes[0])] + Encode(bytes[1..])
  }

  /** Buffer.from(text, 'base64'): total, it never reports malformed input. */
  function Decode(text: string): (bytes: seq<byte>)
  {
    if text == [] then [] else [DecodeChar(text[0])] + Decode(text[1..])
  }

  lemma {:induction false} RoundTrip(bytes: seq<byte>)
    ensures Decode(Encode(bytes)) == bytes
  {
    if bytes != [] {
      RoundTrip(bytes[1..]);
      assert Encode(bytes)[0] == EncodeByte(bytes[0]);
      assert Encode(bytes)[1..] == Encode(bytes[1..]);
    }
  }

  lemma {:induction false} EncodeEmptyIff(bytes: seq<byte>)
    ensures Encode(bytes) == "" <==> bytes == []
  {
    if bytes != [] {
      assert Encode(bytes)[0] == EncodeByte(bytes[0]);
    }
  }
}

/** Bytes, object ids and the one-byte type tag. */
module Bytes {

  type byte = bv8

  /** GIT_OID_RAWSZ: a raw SHA-1 object id is 20 bytes. */
  const OID_RAWSZ: nat := 20

  /** A raw object id; it is also the LMDB key of the record. */
  type Oid = s: seq<byte> | |s| == OID_RAWSZ witness seq(20, _ => 0 as byte)

  /** `git_odb_hash`: the object id of (payload, length, type). Its
      internals (SHA-1 over the object header and payload) are not modelled. */
  type Hasher = (seq<byte>, nat, int) -> Oid

  /** The all-zero object id. */
  const ZERO_OID: Oid := seq(20, _ => 0 as byte)

  /** A `git_otype` survives the trip through a (signed) `char` tag. */
  predicate FitsTag(otype: int) {
    -128 <= otype < 128
  }

  /** `static_cast<char>(type)`: the low eight bits of the type's two's-complement form. */
  function TagByte(otype: int): byte {
    (otype % 256) as byte
  }

  /** `static_cast<git_otype>(char)`: the tag byte read back as a signed char. */
  function TagType(tag: byte): (otype: int)
    ensures FitsTag(otype)
  {
    if tag < 128 then tag as int else tag as int - 256
  }

  /** Narrowing a type to its tag and widening it back is the identity
      exactly on the types a signed char can hold. */
  lemma TagRoundTrip(otype: int)
    ensures TagType(TagByte(otype)) == otype <==> FitsTag(otype)
  {
    var r := otype % 256;
    assert (r as byte) as int == r;
    if 0 <= otype < 128 {
      assert r == otype;
    } else if -128 <= otype < 0 {
      assert r == otype + 256;
    }
  }

  /** Every tag byte is the narrowing of the type it is read back as. */
  lemma TagCanonical(tag: byte)
    ensures TagByte(TagType(tag)) == tag
  {
    var t := TagType(tag);
    if tag < 128 {
      assert t % 256 == tag as int;
    } else {
      assert t % 256 == tag as int;
    }
  }
}

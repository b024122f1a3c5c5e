/** The two on-disk value layouts. The transactional backend stores the type
    tag in front of the payload, the plain backend stores it after the
    payload; the two are not interchangeable. */
module Layout {
  import opened Bytes

  /** What a read hands back to libgit2: the payload, its length and its type. */
  datatype Object = Object(data: seq<byte>, length: nat, otype: int)

  /** A well-formed read result: the reported length is the payload's length. */
  predicate Consistent(obj: Object) {
    obj.length == |obj.data|
  }

  /** Transactional layout: `[type] ++ payload`. */
  function PrefixEncode(data: seq<byte>, otype: int): (v: seq<byte>)
    ensures |v| == |data| + 1
    ensures v[0] == TagByte(otype) && v[1..] == data
  {
    [TagByte(otype)] + data
  }

  /** Transactional decode: length `size - 1`, type from byte 0, payload from byte 1 on. */
  function PrefixDecode(v: seq<byte>): (obj: Object)
    requires |v| >= 1
    ensures Consistent(obj)
    ensures FitsTag(obj.otype)
  {
    Object(v[1..], |v| - 1, TagType(v[0]))
  }

  /** Plain layout: `payload ++ [type]`. */
  function SuffixEncode(data: seq<byte>, otype: int): (v: seq<byte>)
    ensures |v| == |data| + 1
    ensures v[|data|] == TagByte(otype) && v[..|data|] == data
  {
    data + [TagByte(otype)]
  }

  /** Plain decode: length `size - 1`, type from byte `length`, payload before it. */
  function SuffixDecode(v: seq<byte>): (obj: Object)
    requires |v| >= 1
    ensures Consistent(obj)
    ensures FitsTag(obj.otype)
  {
    Object(v[..|v| - 1], |v| - 1, TagType(v[|v| - 1]))
  }

  /** Decoding a prefix-layout value gives back the payload and length
      always, and the type exactly when it fits the signed tag byte. */
  lemma PrefixRoundTrip(data: seq<byte>, otype: int)
    ensures PrefixDecode(PrefixEncode(data, otype)).data == data
    ensures PrefixDecode(PrefixEncode(data, otype)).length == |data|
    ensures PrefixDecode(PrefixEncode(data, otype)) == Object(data, |data|, otype) <==> FitsTag(otype)
  {
    TagRoundTrip(otype);
  }

  /** Every non-empty stored value is the prefix encoding of what it decodes to. */
  lemma PrefixCanonical(v: seq<byte>)
    requires |v| >= 1
    ensures PrefixEncode(PrefixDecode(v).data, PrefixDecode(v).otype) == v
  {
    TagCanonical(v[0]);
    assert [v[0]] + v[1..] == v;
  }

  /** The suffix layout round-trips under the same conditions. */
  lemma SuffixRoundTrip(data: seq<byte>, otype: int)
    ensures SuffixDecode(SuffixEncode(data, otype)).data == data
    ensures SuffixDecode(SuffixEncode(data, otype)).length == |data|
    ensures SuffixDecode(SuffixEncode(data, otype)) == Object(data, |data|, otype) <==> FitsTag(otype)
  {
    TagRoundTrip(otype);
  }

  /** Every non-empty stored value is the suffix encoding of what it decodes to. */
  lemma SuffixCanonical(v: seq<byte>)
    requires |v| >= 1
    ensures SuffixEncode(SuffixDecode(v).data, SuffixDecode(v).otype) == v
  {
    TagCanonical(v[|v| - 1]);
    assert v[..|v| - 1] + [v[|v| - 1]] == v;
  }

  /** A blob with payload `[1]` written in the transactional layout and read
      with the plain decoder comes back as an object of type 1 (a commit)
      whose payload is the blob's tag byte: the layouts do not mix. */
  lemma LayoutsDoNotMix()
    ensures SuffixDecode(PrefixEncode([1], 3)) == Object([3], 1, 1)
    ensures PrefixDecode(SuffixEncode([1], 3)) == Object([3], 1, 1)
    ensures SuffixDecode(PrefixEncode([1], 3)) != Object([1], 1, 3)
  {
    assert TagByte(3) == 3;
    assert PrefixEncode([1], 3) == [3, 1];
    assert SuffixEncode([1], 3) == [1, 3];
  }
}

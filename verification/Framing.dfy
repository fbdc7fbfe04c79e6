/** The length-framed encoding of one action (src/coalesce.rs): each component is preceded by its
    length in eight big-endian bytes, so the hashed bytes determine the components. */
module Framing {

  newtype Byte = x: int | 0 <= x < 256

  const LENGTH_WIDTH := 8
  const MAX_LENGTH := 0x1_0000_0000_0000_0000

  function Power256(width: nat): nat {
    if width == 0 then 1 else 256 * Power256(width - 1)
  }

  function BigEndian(n: nat, width: nat): (bytes: seq<Byte>)
    ensures |bytes| == width
  {
    if width == 0 then [] else BigEndian(n / 256, width - 1) + [(n % 256) as Byte]
  }

  function FromBigEndian(bytes: seq<Byte>): nat {
    if bytes == [] then 0 else FromBigEndian(bytes[..|bytes| - 1]) * 256 + bytes[|bytes| - 1] as nat
  }

  lemma {:induction false} BigEndianRoundTrip(n: nat, width: nat)
    requires n < Power256(width)
    ensures FromBigEndian(BigEndian(n, width)) == n
    decreases width
  {
    if width > 0 {
      var high := BigEndian(n / 256, width - 1);
      BigEndianRoundTrip(n / 256, width - 1);
      assert BigEndian(n, width)[..width - 1] == high;
    }
  }

  lemma EightBytes()
    ensures Power256(LENGTH_WIDTH) == MAX_LENGTH
  {
    assert Power256(4) == 0x1_0000_0000;
    assert Power256(8) == 256 * (256 * (256 * (256 * Power256(4))));
  }

  function Framed(component: seq<Byte>): seq<Byte> {
    BigEndian(|component|, LENGTH_WIDTH) + component
  }

  function Frame(components: seq<seq<Byte>>): seq<Byte> {
    if components == [] then [] else Framed(components[0]) + Frame(components[1..])
  }

  datatype Parsed = Components(list: seq<seq<Byte>>) | Malformed

  /** Read the components back. */
  function Parse(bytes: seq<Byte>): Parsed
    decreases |bytes|
  {
    if bytes == [] then Components([])
    else if |bytes| < LENGTH_WIDTH then Malformed
    else
      var length := FromBigEndian(bytes[..LENGTH_WIDTH]);
      if |bytes| < LENGTH_WIDTH + length then Malformed
      else
        match Parse(bytes[LENGTH_WIDTH + length..])
        case Malformed => Malformed
        case Components(rest) => Components([bytes[LENGTH_WIDTH..LENGTH_WIDTH + length]] + rest)
  }

  predicate Encodable(components: seq<seq<Byte>>) {
    forall i :: 0 <= i < |components| ==> |components[i]| < MAX_LENGTH
  }

  /** Framing then parsing gives the components back. */
  lemma {:induction false} FrameRoundTrip(components: seq<seq<Byte>>)
    requires Encodable(components)
    ensures Parse(Frame(components)) == Components(components)
    decreases |components|
  {
    if components != [] {
      var first, rest := components[0], components[1..];
      FrameRoundTrip(rest);
      EightBytes();
      BigEndianRoundTrip(|first|, LENGTH_WIDTH);
      var head, bytes := BigEndian(|first|, LENGTH_WIDTH), Frame(components);
      assert bytes == head + first + Frame(rest);
      assert bytes[..LENGTH_WIDTH] == head;
      assert bytes[LENGTH_WIDTH..LENGTH_WIDTH + |first|] == first;
      assert bytes[LENGTH_WIDTH + |first|..] == Frame(rest);
      assert components == [first] + rest;
    }
  }

  /** Two actions with the same hashed bytes are the same action. */
  lemma FrameInjective(a: seq<seq<Byte>>, b: seq<seq<Byte>>)
    requires Encodable(a) && Encodable(b) && Frame(a) == Frame(b)
    ensures a == b
  {
    FrameRoundTrip(a);
    FrameRoundTrip(b);
  }

  /** The three updates of the hasher, in order. */
  method HashedBytes(components: seq<seq<Byte>>) returns (bytes: seq<Byte>)
    requires Encodable(components)
    ensures Parse(bytes) == Components(components)
  {
    bytes := [];
    var i := 0;
    while i < |components|
      invariant i <= |components|
      invariant bytes + Frame(components[i..]) == Frame(components)
    {
      assert components[i..][0] == components[i] && components[i..][1..] == components[i + 1..];
      bytes := bytes + Framed(components[i]);
      i := i + 1;
    }
    assert bytes == Frame(components);
    FrameRoundTrip(components);
  }
}

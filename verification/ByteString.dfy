// Bytes as a string of one code unit each, and back.
module ByteString {
  const CHUNK_SIZE: nat := 4096

  // A UTF-16 code unit, and an element of a byte array.
  type Unit = x: nat | x < 0x1_0000
  type Byte = x: nat | x < 0x100

  // The string that has each byte for a code unit.
  function UnitsOf(bytes: seq<Byte>): (units: seq<Unit>)
    ensures |units| == |bytes| && forall i :: 0 <= i < |bytes| ==> units[i] == bytes[i]
  {
    seq(|bytes|, i requires 0 <= i < |bytes| => bytes[i])
  }

  // The low eight bits of each code unit.
  function BytesOf(units: seq<Unit>): (bytes: seq<Byte>)
    ensures |bytes| == |units| && forall i :: 0 <= i < |units| ==> bytes[i] == units[i] % 256
  {
    seq(|units|, i requires 0 <= i < |units| => units[i] % 256)
  }

  lemma UnitsOfConcat(a: seq<Byte>, b: seq<Byte>)
    ensures UnitsOf(a + b) == UnitsOf(a) + UnitsOf(b)
  {
  }

  method ByteStringFromBytes(bytes: seq<Byte>) returns (out: seq<Unit>)
    ensures out == UnitsOf(bytes)
  {
    out := [];
    var offset := 0;
    ghost var done := 0;
    assert UnitsOf(bytes[..0]) == [];
    while offset < |bytes|
      invariant 0 <= offset && done == if offset < |bytes| then offset else |bytes|
      invariant out == UnitsOf(bytes[..done])
    {
      hide UnitsOf;
      var end := if offset + CHUNK_SIZE < |bytes| then offset + CHUNK_SIZE else |bytes|;
      UnitsOfConcat(bytes[..offset], bytes[offset..end]);
      assert bytes[..end] == bytes[..offset] + bytes[offset..end];
      out := out + UnitsOf(bytes[offset..end]);
      offset, done := offset + CHUNK_SIZE, end;
    }
    assert bytes[..|bytes|] == bytes;
  }

  method BytesFromByteString(value: seq<Unit>) returns (bytes: array<Byte>)
    ensures fresh(bytes) && bytes[..] == BytesOf(value)
  {
    bytes := new Byte[|value|];
    for index := 0 to |value|
      invariant bytes[..index] == BytesOf(value)[..index]
    {
      bytes[index] := value[index] % 256;
    }
    assert bytes[..] == bytes[..|value|] && BytesOf(value)[..|value|] == BytesOf(value);
  }

  // Bytes always survive the trip; a string does exactly when every code unit of
  // it is a byte.
  lemma RoundTrips(bytes: seq<Byte>, units: seq<Unit>)
    ensures BytesOf(UnitsOf(bytes)) == bytes
    ensures UnitsOf(BytesOf(units)) == units <==> forall i :: 0 <= i < |units| ==> units[i] < 256
  {
    if UnitsOf(BytesOf(units)) == units {
      forall i | 0 <= i < |units| ensures units[i] < 256 {
        assert UnitsOf(BytesOf(units))[i] == units[i];
      }
    }
  }
}

// Octets and the big-endian integers the wire formats are made of.
module Bytes {
  type Byte = x: int | 0 <= x < 0x100
  type Bytes = seq<Byte>

  type Uint16 = x: int | 0 <= x < 0x1_0000
  type Uint32 = x: int | 0 <= x < 0x1_0000_0000

  datatype Option<+T> = None | Some(value: T)

  function PutUint16(x: Uint16): (b: Bytes) {
    [x / 0x100, x % 0x100]
  }

  function GetUint16(b: Bytes): (x: Uint16)
    requires |b| == 2
  {
    b[0] as int * 0x100 + b[1]
  }

  function PutUint32(x: Uint32): (b: Bytes) {
    PutUint16(x / 0x1_0000) + PutUint16(x % 0x1_0000)
  }

  function GetUint32(b: Bytes): (x: Uint32)
    requires |b| == 4
  {
    GetUint16(b[..2]) as int * 0x1_0000 + GetUint16(b[2..])
  }

  lemma Uint16RoundTrip(x: Uint16, b: Bytes)
    requires |b| == 2
    ensures GetUint16(PutUint16(x)) == x
    ensures PutUint16(GetUint16(b)) == b
  {
  }

  // Writing and reading an integer are inverse to each other.
  lemma Uint32RoundTrip(x: Uint32, b: Bytes)
    requires |b| == 4
    ensures |PutUint32(x)| == 4 && GetUint32(PutUint32(x)) == x
    ensures PutUint32(GetUint32(b)) == b
  {
    var w := PutUint32(x);
    assert w[..2] == PutUint16(x / 0x1_0000) && w[2..] == PutUint16(x % 0x1_0000);
    Uint16RoundTrip(x / 0x1_0000, b[..2]);
    Uint16RoundTrip(x % 0x1_0000, b[2..]);
    var hi: int, lo: int := GetUint16(b[..2]), GetUint16(b[2..]);
    assert (hi * 0x1_0000 + lo) / 0x1_0000 == hi && (hi * 0x1_0000 + lo) % 0x1_0000 == lo;
    assert b == b[..2] + b[2..];
  }

  // The most significant octet comes first, in both directions.
  lemma BigEndian(x: Uint16, y: Uint32, a: Byte, b: Byte, c: Byte, d: Byte)
    ensures |PutUint16(x)| == 2 && PutUint16(x)[0] as int * 256 + PutUint16(x)[1] == x
    ensures |PutUint32(y)| == 4
    ensures
      var p := PutUint32(y);
      p[0] as int * 16777216 + p[1] as int * 65536 + p[2] as int * 256 + p[3] == y
    ensures GetUint16([a, b]) == a as int * 256 + b
    ensures GetUint32([a, b, c, d]) == a as int * 16777216 + b as int * 65536 + c as int * 256 + d
  {
    var hi: int, lo: int := y / 0x1_0000, y % 0x1_0000;
    assert PutUint32(y) == [hi / 0x100, hi % 0x100, lo / 0x100, lo % 0x100];
    assert [a, b, c, d][..2] == [a, b] && [a, b, c, d][2..] == [c, d];
  }
}

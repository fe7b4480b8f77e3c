/** Big-endian codecs of test_data/netutil.lua; htonl there is the identity, its guard never being set. */
module NetUtil {

  const WORD32: nat := 0x1_0000_0000

  type Byte = x: int | 0 <= x < 256 witness 0

  function PackInt16(x: nat): (r: seq<Byte>)
    requires x < 0x1_0000
    ensures |r| == 2
  {
    [x / 256, x % 256]
  }

  function UnpackInt16(s: seq<Byte>): nat
    requires |s| == 2
  {
    s[0] as int * 256 + s[1] as int
  }

  function PackInt32(x: nat): (r: seq<Byte>)
    requires x < WORD32
    ensures |r| == 4
  {
    PackInt16(x / 0x1_0000) + PackInt16(x % 0x1_0000)
  }

  function UnpackInt32(s: seq<Byte>): (x: nat)
    requires |s| == 4
    ensures x < WORD32
  {
    0x1_0000 * UnpackInt16(s[..2]) + UnpackInt16(s[2..])
  }

  // ntohl read into an int: the upper half of the range turns negative.
  function ReadInt(s: seq<Byte>): int
    requires |s| == 4
  {
    var v := UnpackInt32(s);
    if v < 0x8000_0000 then v else v - WORD32
  }

  lemma PackUnpack(x: nat)
    requires x < WORD32
    ensures UnpackInt32(PackInt32(x)) == x
  {
    var s := PackInt32(x);
    assert s[..2] == PackInt16(x / 0x1_0000) && s[2..] == PackInt16(x % 0x1_0000);
  }

  lemma UnpackPack(s: seq<Byte>)
    requires |s| == 4
    ensures PackInt32(UnpackInt32(s)) == s
  {
    var hi, lo := UnpackInt16(s[..2]), UnpackInt16(s[2..]);
    var x := UnpackInt32(s);
    assert x == 0x1_0000 * hi + lo && lo < 0x1_0000;
    assert x / 0x1_0000 == hi && x % 0x1_0000 == lo;
    Pack16Unpack(s[..2]);
    Pack16Unpack(s[2..]);
    assert s == s[..2] + s[2..];
  }

  lemma Pack16Unpack(s: seq<Byte>)
    requires |s| == 2
    ensures UnpackInt16(s) < 0x1_0000 && PackInt16(UnpackInt16(s)) == s
  {
    var v := UnpackInt16(s);
    assert v / 256 == s[0] && v % 256 == s[1];
  }

  // Byte k of a packed number is its k-th from the top.
  lemma BigEndian(x: nat)
    requires x < WORD32
    ensures PackInt32(x) == [x / 0x100_0000, x / 0x1_0000 % 0x100, x / 0x100 % 0x100, x % 0x100]
    ensures x < 0x1_0000 ==> PackInt16(x) == [x / 0x100, x % 0x100]
  {
    var hi, lo := x / 0x1_0000, x % 0x1_0000;
    assert x == hi * 0x1_0000 + lo;
    assert hi / 0x100 == x / 0x100_0000 && lo % 0x100 == x % 0x100 && lo / 0x100 == x / 0x100 % 0x100;
  }

  lemma ReadPacked(x: nat)
    requires x < 0x8000_0000
    ensures ReadInt(PackInt32(x)) == x
  {
    PackUnpack(x);
  }

  lemma PackRead(s: seq<Byte>)
    requires |s| == 4 && 0 <= ReadInt(s)
    ensures ReadInt(s) < WORD32 && PackInt32(ReadInt(s)) == s
  {
    UnpackPack(s);
  }
}

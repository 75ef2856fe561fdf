/**
 * Byte-level vocabulary of the nus3audio container: byte and u32 ranges,
 * the little-endian u32 encoding every length and table entry uses, and the
 * four- and eight-byte ASCII section tags.
 */
module Format {

  type u8 = x: int | 0 <= x < 0x100
  type u32 = x: int | 0 <= x < 0x1_0000_0000

  const U32_LIMIT: int := 0x1_0000_0000

  /** The four bytes `write_u32::<LittleEndian>` emits: least significant first. */
  function U32Le(v: u32): (r: seq<u8>)
    ensures |r| == 4
  {
    [v % 0x100, (v / 0x100) % 0x100, (v / 0x1_0000) % 0x100, (v / 0x100_0000) % 0x100]
  }

  /** The value nom's `le_u32` reads from the first four bytes of `b`. */
  function ReadU32Le(b: seq<u8>): (v: u32)
    requires |b| >= 4
  {
    b[0] as int + 0x100 * b[1] as int + 0x1_0000 * b[2] as int + 0x100_0000 * b[3] as int
  }

  /** Reading back what was written gives the value that was written. */
  lemma {:induction false} ReadWriteU32(v: u32)
    ensures ReadU32Le(U32Le(v)) == v
  {
    var b := U32Le(v);
    var q1 := v / 0x100;
    var q2 := q1 / 0x100;
    var q3 := q2 / 0x100;
    assert v == b[0] + 0x100 * q1;
    assert q1 == b[1] + 0x100 * q2;
    assert q2 == b[2] + 0x100 * q3;
    assert q2 == v / 0x1_0000;
    assert q3 == v / 0x100_0000;
    assert q3 < 0x100;
  }

  /** Writing what was read reproduces the four bytes that were read. */
  lemma {:induction false} WriteReadU32(b: seq<u8>)
    requires |b| >= 4
    ensures U32Le(ReadU32Le(b)) == b[..4]
  {
    var v := ReadU32Le(b);
    assert v / 0x100 == b[1] as int + 0x100 * b[2] as int + 0x1_0000 * b[3] as int;
    assert v / 0x1_0000 == b[2] as int + 0x100 * b[3] as int;
    assert v / 0x100_0000 == b[3];
  }

  /** `vec![0u8; n]` */
  function Zeros(n: nat): (r: seq<u8>)
    ensures |r| == n && forall i :: 0 <= i < n ==> r[i] == 0
  {
    seq(n, _ => 0)
  }

  // Section tags, as ASCII bytes.
  const NUS3: seq<u8> := [0x4E, 0x55, 0x53, 0x33]                              // "NUS3"
  const AUDIINDX: seq<u8> := [0x41, 0x55, 0x44, 0x49, 0x49, 0x4E, 0x44, 0x58]  // "AUDIINDX"
  const TNID: seq<u8> := [0x54, 0x4E, 0x49, 0x44]                              // "TNID"
  const NMOF: seq<u8> := [0x4E, 0x4D, 0x4F, 0x46]                              // "NMOF"
  const ADOF: seq<u8> := [0x41, 0x44, 0x4F, 0x46]                              // "ADOF"
  const TNNM: seq<u8> := [0x54, 0x4E, 0x4E, 0x4D]                              // "TNNM"
  const JUNK: seq<u8> := [0x4A, 0x55, 0x4E, 0x4B]                              // "JUNK"
  const PACK: seq<u8> := [0x50, 0x41, 0x43, 0x4B]                              // "PACK"
}

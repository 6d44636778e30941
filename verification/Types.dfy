/** Fixed-width integers and the option type shared by every module. */
module Types {
  type byte = x: int | 0 <= x < 0x100
  type uint16 = x: int | 0 <= x < 0x1_0000
  type uint32 = x: int | 0 <= x < 0x1_0000_0000
  type int32 = x: int | -0x8000_0000 <= x < 0x8000_0000

  datatype Option<+T> = None | Some(value: T)

  /** The value of four bytes, most significant first. */
  function BigEndian32(b: seq<byte>): uint32
    requires |b| >= 4
  {
    var b0: int, b1: int, b2: int := b[0], b[1], b[2];
    b0 * 0x100_0000 + b1 * 0x1_0000 + b2 * 0x100 + b[3]
  }

  /** What bytes are worth when read as one number, most significant byte first. */
  ghost function Positional(b: seq<byte>): nat {
    if b == [] then 0 else Positional(b[..|b| - 1]) * 0x100 + b[|b| - 1]
  }

  lemma Positional1(b0: byte)
    ensures Positional([b0]) == b0
  {
    assert [b0][..0] == [];
  }

  lemma Positional2(b0: byte, b1: byte)
    ensures Positional([b0, b1]) == b0 * 0x100 + b1
  {
    Positional1(b0);
    assert [b0, b1][..1] == [b0];
  }

  lemma BigEndian32IsPositional(b: seq<byte>)
    requires |b| >= 4
    ensures BigEndian32(b) == Positional(b[..4])
  {
    var b0, b1, b2, b3 := b[0], b[1], b[2], b[3];
    Positional2(b0, b1);
    assert [b0, b1, b2][..2] == [b0, b1] && [b0, b1, b2, b3][..3] == [b0, b1, b2];
    assert b[..4] == [b0, b1, b2, b3];
  }

  /** Conversion to an unsigned 32-bit integer. */
  function Wrap32(n: nat): uint32 {
    n % 0x1_0000_0000
  }

  /** `++` on an unsigned 32-bit integer. */
  function Increment32(m: uint32): uint32 {
    if m == 0xFFFF_FFFF then 0 else m + 1
  }

  lemma IncrementWraps(n: nat, m: uint32, n': nat, m': uint32)
    requires m == Wrap32(n)
    requires (n' == n && m' == m) || (n' == n + 1 && m' == Increment32(m))
    ensures m' == Wrap32(n')
  {
  }

  ghost predicate NoDuplicates<T>(s: seq<T>) {
    forall i, j | 0 <= i < j < |s| :: s[i] != s[j]
  }
}

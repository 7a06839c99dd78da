/** Byte-addressed memory: little-endian 32-bit words at any address. */
module Memory {

  const WORDS: nat := 0x1_0000_0000    // values of a u32
  const PAGE_SIZE: nat := 4096

  type Byte = b: int | 0 <= b < 256
  type Word = w: int | 0 <= w < 0x1_0000_0000

  function Read(m: seq<Byte>, a: nat): Word
    requires a + 4 <= |m|
  {
    m[a] as int + 0x100 * m[a + 1] as int + 0x1_0000 * m[a + 2] as int + 0x100_0000 * m[a + 3] as int
  }

  function Write(m: seq<Byte>, a: nat, w: Word): (m': seq<Byte>)
    requires a + 4 <= |m|
    ensures |m'| == |m|
    ensures forall x :: 0 <= x < |m| && !(a <= x < a + 4) ==> m'[x] == m[x]
  {
    m[a := w % 256][a + 1 := w / 256 % 256][a + 2 := w / 0x1_0000 % 256][a + 3 := w / 0x100_0000]
  }

  /** Low byte first. */
  lemma ReadBytes(m: seq<Byte>, a: nat)
    requires a + 4 <= |m|
    ensures Read(m, a) ==
            m[a] as int + 0x100 * m[a + 1] as int + 0x1_0000 * m[a + 2] as int + 0x100_0000 * m[a + 3] as int
    ensures m[a] as int % 2 == Read(m, a) % 2
  {
    var rest := 0x80 * m[a + 1] as int + 0x8000 * m[a + 2] as int + 0x80_0000 * m[a + 3] as int;
    assert Read(m, a) == m[a] as int + 2 * rest;
  }

  lemma ReadBack(m: seq<Byte>, a: nat, w: Word)
    requires a + 4 <= |m|
    ensures Read(Write(m, a, w), a) == w
  {
    var w1, w2, w3 := w / 256, w / 0x1_0000, w / 0x100_0000;
    assert w == 256 * w1 + w % 256 && w1 == 256 * w2 + w1 % 256 && w2 == 256 * w3 + w2 % 256;
  }

  lemma ReadElsewhere(m: seq<Byte>, a: nat, w: Word, b: nat)
    requires a + 4 <= |m| && b + 4 <= |m| && (a + 4 <= b || b + 4 <= a)
    ensures Read(Write(m, a, w), b) == Read(m, b)
  {
  }

  /** Equal bytes read as equal words. */
  lemma ReadSame(m: seq<Byte>, m': seq<Byte>, a: nat)
    requires a + 4 <= |m| == |m'|
    requires forall x :: a <= x < a + 4 ==> m'[x] == m[x]
    ensures Read(m', a) == Read(m, a)
  {
  }

  predicate WordsApart(a: nat, b: nat) { a + 4 <= b || b + 4 <= a }

  /** Two writes to disjoint words: both are there, and nothing else has changed. */
  lemma WriteTwo(m: seq<Byte>, a: nat, x: Word, b: nat, y: Word)
    requires a + 4 <= |m| && b + 4 <= |m| && WordsApart(a, b)
    ensures var m' := Write(Write(m, a, x), b, y);
            && Read(m', a) == x && Read(m', b) == y
            && forall i :: 0 <= i < |m| && !(a <= i < a + 4) && !(b <= i < b + 4) ==> m'[i] == m[i]
  {
    ReadBack(m, a, x);
    ReadElsewhere(Write(m, a, x), b, y, a);
    ReadBack(Write(m, a, x), b, y);
  }

  /** Four writes to pairwise disjoint words. */
  lemma WriteFour(m: seq<Byte>, a: nat, x: Word, b: nat, y: Word, c: nat, z: Word, d: nat, w: Word)
    requires a + 4 <= |m| && b + 4 <= |m| && c + 4 <= |m| && d + 4 <= |m|
    requires WordsApart(a, b) && WordsApart(a, c) && WordsApart(a, d)
    requires WordsApart(b, c) && WordsApart(b, d) && WordsApart(c, d)
    ensures var m' := Write(Write(Write(Write(m, a, x), b, y), c, z), d, w);
            && Read(m', a) == x && Read(m', b) == y && Read(m', c) == z && Read(m', d) == w
            && forall i ::
                 0 <= i < |m| && !(a <= i < a + 4) && !(b <= i < b + 4) && !(c <= i < c + 4) && !(d <= i < d + 4) ==>
                   m'[i] == m[i]
  {
    var m2 := Write(Write(m, a, x), b, y);
    WriteTwo(m, a, x, b, y);
    WriteTwo(m2, c, z, d, w);
    var m4 := Write(Write(m2, c, z), d, w);
    ReadSame(m2, m4, a);
    ReadSame(m2, m4, b);
  }

  method Load(mem: array<Byte>, a: nat) returns (w: Word)
    requires a + 4 <= mem.Length
    ensures w == Read(mem[..], a)
  {
    w := mem[a] as int + 0x100 * mem[a + 1] as int + 0x1_0000 * mem[a + 2] as int + 0x100_0000 * mem[a + 3] as int;
  }

  method Store(mem: array<Byte>, a: nat, w: Word)
    requires a + 4 <= mem.Length
    modifies mem
    ensures mem[..] == Write(old(mem[..]), a, w)
  {
    mem[a] := w % 256;
    mem[a + 1] := w / 256 % 256;
    mem[a + 2] := w / 0x1_0000 % 256;
    mem[a + 3] := w / 0x100_0000;
  }
}

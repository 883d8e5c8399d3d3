/** Bytes, machine words and their little-endian layout, and the few text operations that several files share. */
module Bytes {
  const TWO_32: int := 0x1_0000_0000
  const TWO_64: int := 0x1_0000_0000_0000_0000

  type byte = x: int | 0 <= x < 256
  type u32 = x: int | 0 <= x < 0x1_0000_0000
  type u64 = x: int | 0 <= x < 0x1_0000_0000_0000_0000
  type i32 = x: int | -0x8000_0000 <= x < 0x8000_0000
  type i64 = x: int | -0x8000_0000_0000_0000 <= x < 0x8000_0000_0000_0000

  datatype Option<+T> = None | Some(value: T)

  /** A character literal string as the bytes of a std::string. */
  function Ascii(s: string): (r: seq<byte>)
    ensures |r| == |s|
  {
    seq(|s|, i requires 0 <= i < |s| => (s[i] as int) % 256)
  }

  predicate IsSpace(c: char) {
    c == ' ' || c == '\t' || c == '\r' || c == '\n'
  }

  /** Every x becomes y. */
  function Replaced<T(==)>(s: seq<T>, x: T, y: T): (r: seq<T>)
    ensures |r| == |s|
  {
    seq(|s|, i requires 0 <= i < |s| => if s[i] == x then y else s[i])
  }

  function DropEnd<T>(s: seq<T>, drop: T -> bool): (r: seq<T>)
    ensures r <= s
  {
    if s != [] && drop(s[|s| - 1]) then DropEnd(s[..|s| - 1], drop) else s
  }

  function Flatten<T>(pieces: seq<seq<T>>): seq<T> {
    if pieces == [] then [] else pieces[0] + Flatten(pieces[1..])
  }

  lemma FlattenFirst<T>(pieces: seq<seq<T>>)
    requires pieces != []
    ensures Flatten(pieces) == pieces[0] + Flatten(pieces[1..])
  {
  }

  lemma FlattenNone<T>()
    ensures Flatten<T>([]) == []
  {
  }

  lemma {:induction false} FlattenMore<T>(pieces: seq<seq<T>>, last: seq<T>)
    ensures Flatten(pieces + [last]) == Flatten(pieces) + last
  {
    if pieces == [] {
      assert (pieces + [last])[1..] == [];
    } else {
      assert (pieces + [last])[1..] == pieces[1..] + [last];
      FlattenMore(pieces[1..], last);
    }
  }

  /** The four bytes of a 32-bit word, least significant first; each division by 256 is one shift by 8 bits. */
  function LE32(v: u32): (r: seq<byte>)
    ensures |r| == 4
  {
    [v % 256, v / 256 % 256, v / 256 / 256 % 256, v / 256 / 256 / 256 % 256]
  }

  function FromLE32(b: seq<byte>): u32
    requires |b| == 4
  {
    var b0: int, b1: int, b2: int, b3: int := b[0], b[1], b[2], b[3];
    b0 + 256 * (b1 + 256 * (b2 + 256 * b3))
  }

  /** The least significant byte comes first. */
  lemma LE32Value(v: u32)
    ensures
      var b := LE32(v);
      v as int == b[0] as int + 0x100 * b[1] as int + 0x1_0000 * b[2] as int + 0x100_0000 * b[3] as int
  {
  }

  lemma LE32RoundTrip(v: u32)
    ensures FromLE32(LE32(v)) == v
  {
  }

  lemma Digit(b: byte, q: nat)
    ensures (b as int + 256 * q) / 256 == q && (b as int + 256 * q) % 256 == b
  {
  }

  lemma LE32OfFromLE32(b: seq<byte>)
    requires |b| == 4
    ensures LE32(FromLE32(b)) == b
  {
    var q3: int := b[3];
    var q2 := b[2] as int + 256 * q3;
    var q1 := b[1] as int + 256 * q2;
    Digit(b[2], q3);
    Digit(b[1], q2);
    Digit(b[0], q1);
  }
}

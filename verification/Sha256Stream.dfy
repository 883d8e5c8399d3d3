/** The streaming Sha256 class: a 64-byte carry buffer in front of the compression function. */
module Sha256Stream {
  import opened Bytes
  import opened Sha256Spec

  lemma HashBlocksEmpty()
    ensures HashBlocks([]) == H0()
  {
  }

  /** The 64-bit count of the bits of n bytes. */
  function BitCount(n: nat): u64 {
    8 * n % TWO_64
  }

  lemma BitLengthStep(n: nat, take: nat)
    ensures (BitCount(n) + take * 8) % TWO_64 == BitCount(n + take)
  {
  }

  lemma BlockMark(n: nat, mark: nat)
    requires mark < 64 && mark <= n && (n - mark) % 64 == 0
    ensures n % 64 == mark
  {
  }

  lemma ZeroCountUnique(len: nat, k: nat)
    requires k < 64 && (len + 1 + k) % 64 == 56
    ensures k == ZeroCount(len)
  {
  }

  class Sha256 {
    var state: array<Word>
    var bitLength: u64
    var buffer: array<byte>
    var bufferLen: nat

    /** Every byte absorbed since the last reset. */
    ghost var absorbed: seq<byte>

    /** The buffer holds the tail of `absorbed` and the state is the chaining value of the blocks before it. */
    ghost predicate Streaming()
      reads this, state, buffer
    {
      && state.Length == 8 && buffer.Length == 64
      && bufferLen <= 64 && bufferLen <= |absorbed| && (|absorbed| - bufferLen) % 64 == 0
      && buffer[..bufferLen] == absorbed[|absorbed| - bufferLen..]
      && state[..] == HashBlocks(absorbed[..|absorbed| - bufferLen])
    }

    ghost predicate Valid()
      reads this, state, buffer
    {
      Streaming() && bufferLen < 64 && bitLength == BitCount(|absorbed|)
    }

    constructor ()
      ensures Valid() && absorbed == [] && fresh(state) && fresh(buffer)
    {
      hide Valid;
      state := new Word[8];
      buffer := new byte[64];
      bitLength, bufferLen := 0, 0;
      absorbed := [];
      new;
      Reset();
    }

    method Reset()
      requires state.Length == 8 && buffer.Length == 64
      modifies this`bitLength, this`bufferLen, this`absorbed, state
      ensures Valid() && absorbed == []
      ensures bitLength == 0 && bufferLen == 0
    {
      hide HashBlocks, H0, Streaming, Valid;
      LoadInitialHash();
      bitLength := 0;
      bufferLen := 0;
      absorbed := [];
      StartsValid();
    }

    lemma StartsValid()
      requires state.Length == 8 && buffer.Length == 64 && state[..] == H0()
      requires bitLength == 0 && bufferLen == 0 && absorbed == []
      ensures Valid()
    {
      hide *;
      NothingStreamed();
      NothingCounted();
    }

    lemma NothingStreamed()
      requires state.Length == 8 && buffer.Length == 64 && state[..] == H0()
      requires bufferLen == 0 && absorbed == []
      ensures Streaming()
    {
      hide HashBlocks, H0;
      HashBlocksEmpty();
      assert absorbed[..0] == [];
    }

    lemma NothingCounted()
      requires Streaming() && bitLength == 0 && bufferLen == 0 && absorbed == []
      ensures Valid()
    {
      hide Streaming;
    }

    method LoadInitialHash()
      requires state.Length == 8
      modifies state
      ensures state[..] == H0()
    {
      hide H0;
      var init := H0();
      for i := 0 to 8
        invariant state[..i] == init[..i]
      {
        state[i] := init[i];
      }
      assert state[..] == state[..8];
    }

    /** One application of the compression function. */
    method Transform(chunk: seq<byte>)
      requires state.Length == 8 && |chunk| == 64
      modifies state
      ensures state[..] == Compress(old(state[..]), chunk)
    {
      hide Rounds, Schedule, Add;
      ghost var h := state[..];
      var w := FillSchedule(chunk);
      var v := RunRounds(Load(state[..]), w, chunk);
      state[0], state[1], state[2], state[3] :=
        Add(state[0], v.a), Add(state[1], v.b), Add(state[2], v.c), Add(state[3], v.d);
      state[4], state[5], state[6], state[7] :=
        Add(state[4], v.e), Add(state[5], v.f), Add(state[6], v.g), Add(state[7], v.h);
    }

    static method FillSchedule(chunk: seq<byte>) returns (w: array<Word>)
      requires |chunk| == 64
      ensures fresh(w) && w.Length == 64
      ensures forall j :: 0 <= j < 64 ==> w[j] == Schedule(chunk, j)
    {
      hide Sig0, Sig1, BigEndianWord, Add;
      w := new Word[64];
      for i := 0 to 16
        invariant forall j :: 0 <= j < i ==> w[j] == Schedule(chunk, j)
      {
        w[i] := BigEndianWord(chunk[i * 4 + 0], chunk[i * 4 + 1], chunk[i * 4 + 2], chunk[i * 4 + 3]);
      }
      for i := 16 to 64
        invariant forall j :: 0 <= j < i ==> w[j] == Schedule(chunk, j)
      {
        w[i] := Add(Add(Add(Sig1(w[i - 2]), w[i - 7]), Sig0(w[i - 15])), w[i - 16]);
      }
    }

    static method RunRounds(v0: Vars, w: array<Word>, ghost chunk: seq<byte>) returns (v: Vars)
      requires |chunk| == 64 && w.Length == 64
      requires forall j :: 0 <= j < 64 ==> w[j] == Schedule(chunk, j)
      ensures v == Rounds(v0, chunk, 64)
    {
      hide Ep0, Ep1, Ch, Maj, Add;
      var a, b, c, d := v0.a, v0.b, v0.c, v0.d;
      var e, f, g, h := v0.e, v0.f, v0.g, v0.h;
      for i := 0 to 64
        invariant Vars(a, b, c, d, e, f, g, h) == Rounds(v0, chunk, i)
      {
        var t1 := Add(Add(Add(Add(h, Ep1(e)), Ch(e, f, g)), K[i]), w[i]);
        var t2 := Add(Ep0(a), Maj(a, b, c));
        h := g;
        g := f;
        f := e;
        e := Add(d, t1);
        d := c;
        c := b;
        b := a;
        a := Add(t1, t2);
      }
      v := Vars(a, b, c, d, e, f, g, h);
    }

    /** Compresses the full buffer and empties it. */
    method Flush()
      requires Streaming() && bufferLen == 64
      modifies this`bufferLen, state
      ensures Streaming() && bufferLen == 0
    {
      hide Compress;
      ghost var cut := |absorbed| - 64;
      assert buffer[..] == buffer[..64] == absorbed[cut..];
      assert HashBlocks(absorbed) == Compress(HashBlocks(absorbed[..cut]), absorbed[cut..]);
      Transform(buffer[..]);
      bufferLen := 0;
      assert absorbed[..|absorbed|] == absorbed;
    }

    method Update(data: seq<byte>)
      requires Valid()
      modifies this`bitLength, this`bufferLen, this`absorbed, state, buffer
      ensures Valid() && absorbed == old(absorbed) + data
    {
      hide HashBlocks, BitCount, Streaming;
      var p, len := 0, |data|;
      while len > 0
        invariant 0 <= p <= |data| && len == |data| - p
        invariant Valid() && absorbed == old(absorbed) + data[..p]
      {
        var take := 64 - bufferLen;
        if take > len {
          take := len;
        }
        assert data[..p] + data[p..p + take] == data[..p + take];
        Absorb(data[p..p + take]);
        p := p + take;
        len := len - take;
      }
    }

    /** One turn of the update loop: copy, count the bits, compress a full buffer. */
    method Absorb(piece: seq<byte>)
      requires Valid() && bufferLen + |piece| <= 64
      modifies this`bitLength, this`bufferLen, this`absorbed, state, buffer
      ensures Valid() && absorbed == old(absorbed) + piece
    {
      hide HashBlocks, BitCount;
      BitLengthStep(|absorbed|, |piece|);
      Append(piece);
      bitLength := (bitLength + |piece| * 8) % TWO_64;
      if bufferLen == 64 {
        Flush();
      }
    }

    /** The memcpy at the fill mark. */
    method Append(piece: seq<byte>)
      requires Streaming() && bufferLen + |piece| <= 64
      modifies this`bufferLen, this`absorbed, buffer
      ensures Streaming() && bufferLen == old(bufferLen) + |piece|
      ensures absorbed == old(absorbed) + piece
    {
      hide HashBlocks;
      ghost var cut, tail := |absorbed| - bufferLen, buffer[..bufferLen];
      forall i | 0 <= i < |piece| {
        buffer[bufferLen + i] := piece[i];
      }
      bufferLen := bufferLen + |piece|;
      absorbed := absorbed + piece;
      assert buffer[..bufferLen] == tail + piece;
      assert absorbed[..cut] == old(absorbed)[..cut];
      assert absorbed[cut..] == tail + piece;
    }

    /** Pads, compresses once or twice, emits the digest and resets. */
    method Finalize() returns (out: seq<byte>)
      requires Valid()
      modifies this`bitLength, this`bufferLen, this`absorbed, state, buffer
      ensures out == Sha256Spec.Sha256(old(absorbed))
      ensures Valid() && absorbed == []
    {
      hide HashBlocks, DigestBytes, BE64, ZeroCount, Zeros;
      var totalBits := bitLength;
      ghost var m := absorbed;
      AppendEndMark();
      AppendLength(totalBits);
      assert absorbed == Pad(m);
      Flush();
      assert absorbed[..|absorbed|] == absorbed;
      out := Emit();
      Reset();
    }

    /** The 0x80 byte and the zeros up to the length field, through a second block when the first has no room for it. */
    method AppendEndMark()
      requires Valid()
      modifies this`bufferLen, this`absorbed, state, buffer
      ensures Streaming() && bufferLen == 56
      ensures absorbed == old(absorbed) + [0x80] + Zeros(ZeroCount(old(|absorbed|)))
    {
      hide HashBlocks, ZeroCount, Zeros, Streaming, Valid;
      ghost var m := absorbed;
      MarksOf();
      Append([0x80]);
      assert Zeros(0) == [];
      if bufferLen > 56 {
        FillZeros(64, m);
        Flush();
      }
      FillZeros(56, m);
      ZeroCountUnique(|m|, |absorbed| - |m| - 1);
    }

    /** The fill mark is the message length within its block. */
    lemma MarksOf()
      requires Valid()
      ensures Streaming() && bufferLen < 64 && |absorbed| % 64 == bufferLen
    {
      hide HashBlocks, BitCount;
      BlockMark(|absorbed|, bufferLen);
    }

    /** Zero bytes up to the given fill mark. */
    method FillZeros(mark: nat, ghost m: seq<byte>)
      requires Streaming() && bufferLen <= mark <= 64
      requires |absorbed| > |m| && absorbed == m + [0x80] + Zeros(|absorbed| - |m| - 1)
      modifies this`bufferLen, this`absorbed, buffer
      ensures Streaming() && bufferLen == mark
      ensures |absorbed| == old(|absorbed|) + mark - old(bufferLen)
      ensures absorbed == m + [0x80] + Zeros(|absorbed| - |m| - 1)
    {
      hide HashBlocks;
      while bufferLen < mark
        invariant Streaming() && bufferLen <= mark
        invariant |absorbed| - bufferLen == old(|absorbed| - bufferLen)
        invariant |absorbed| > |m| && absorbed == m + [0x80] + Zeros(|absorbed| - |m| - 1)
      {
        Append([0]);
      }
    }

    /** The eight length bytes, most significant first. */
    method AppendLength(totalBits: u64)
      requires Streaming() && bufferLen == 56
      modifies this`bufferLen, this`absorbed, buffer
      ensures Streaming() && bufferLen == 64
      ensures absorbed == old(absorbed) + BE64(totalBits)
    {
      hide HashBlocks;
      var i := 7;
      while i >= 0
        invariant -1 <= i <= 7
        invariant Streaming() && bufferLen == 56 + (7 - i)
        invariant absorbed == old(absorbed) + BE64(totalBits)[..7 - i]
      {
        Append([totalBits / Pow256(i) % 256]);
        i := i - 1;
      }
    }

    method Emit() returns (out: seq<byte>)
      requires state.Length == 8
      ensures out == DigestBytes(state[..])
    {
      hide WordByte;
      out := [];
      for j := 0 to 8
        invariant out == DigestBytes(state[..])[..4 * j]
      {
        out := out + [WordByte(state[j], 0), WordByte(state[j], 1), WordByte(state[j], 2), WordByte(state[j], 3)];
      }
    }

    static method Digest(data: seq<byte>) returns (out: seq<byte>)
      ensures out == Sha256Spec.Sha256(data)
    {
      hide *;
      var h := new Sha256();
      assert [] + data == data;
      h.Update(data);
      out := h.Finalize();
    }

    /** Any division of the message into update calls gives the digest of the whole. */
    static method DigestOfPieces(pieces: seq<seq<byte>>) returns (out: seq<byte>)
      ensures out == Sha256Spec.Sha256(Flatten(pieces))
    {
      hide *;
      var h := new Sha256();
      for i := 0 to |pieces|
        invariant fresh(h) && fresh(h.state) && fresh(h.buffer)
        invariant h.Valid() && h.absorbed + Flatten(pieces[i..]) == Flatten(pieces)
      {
        FlattenFirst(pieces[i..]);
        assert pieces[i..][1..] == pieces[i + 1..];
        h.Update(pieces[i]);
      }
      FlattenNone<byte>();
      assert h.absorbed + [] == h.absorbed;
      out := h.Finalize();
    }

    static method ToHex(d: seq<byte>) returns (out: string)
      requires |d| == 32
      ensures out == Hex(d)
    {
      var hex := "0123456789abcdef";
      out := "";
      for i := 0 to 32
        invariant out == Hex(d)[..2 * i]
      {
        out := out + [hex[d[i] / 16], hex[d[i] % 16]];
      }
    }
  }

  // ---- Hexadecimal digests ----

  function HexDigit(n: nat): char
    requires n < 16
  {
    "0123456789abcdef"[n]
  }

  predicate IsHexDigit(c: char) {
    '0' <= c <= '9' || 'a' <= c <= 'f'
  }

  function HexValue(c: char): (n: nat)
    requires IsHexDigit(c)
    ensures n < 16
  {
    if c <= '9' then (c as int) - ('0' as int) else (c as int) - ('a' as int) + 10
  }

  lemma HexDigitRoundTrip(n: nat)
    requires n < 16
    ensures IsHexDigit(HexDigit(n)) && HexValue(HexDigit(n)) == n
  {
  }

  function Hex(d: seq<byte>): (s: string)
    ensures |s| == 2 * |d|
  {
    seq(2 * |d|, i requires 0 <= i < 2 * |d| => HexDigit(if i % 2 == 0 then d[i / 2] / 16 else d[i / 2] % 16))
  }

  predicate HexKey(s: string) {
    |s| == 64 && forall i :: 0 <= i < 64 ==> IsHexDigit(s[i])
  }

  function FromHex(s: string): (d: seq<byte>)
    requires HexKey(s)
  {
    seq(32, i requires 0 <= i < 32 => 16 * HexValue(s[2 * i]) + HexValue(s[2 * i + 1]))
  }

  lemma HexAt(d: seq<byte>, i: nat)
    requires i < 2 * |d|
    ensures IsHexDigit(Hex(d)[i]) && HexValue(Hex(d)[i]) == if i % 2 == 0 then d[i / 2] / 16 else d[i / 2] % 16
  {
    HexDigitRoundTrip(if i % 2 == 0 then d[i / 2] / 16 else d[i / 2] % 16);
  }

  /** A digest prints as a key, and the digest can be read back from it. */
  lemma HexRoundTrip(d: seq<byte>)
    requires |d| == 32
    ensures HexKey(Hex(d)) && FromHex(Hex(d)) == d
  {
    hide Hex, IsHexDigit, HexValue;
    forall i | 0 <= i < 64
      ensures IsHexDigit(Hex(d)[i])
    {
      HexAt(d, i);
    }
    forall i | 0 <= i < 32
      ensures FromHex(Hex(d))[i] == d[i]
    {
      HexAt(d, 2 * i);
      HexAt(d, 2 * i + 1);
    }
  }
}

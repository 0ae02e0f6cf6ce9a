/** Bytes and fixed-width machine words in the two byte orders the codec can run in. */
module Words {
  import opened Seqs

  type byte = n: int | 0 <= n < 256

  const TWO_8: int := 0x100
  const TWO_16: int := 0x1_0000
  const TWO_32: int := 0x1_0000_0000
  const TWO_63: int := 0x8000_0000_0000_0000
  const TWO_64: int := 0x1_0000_0000_0000_0000

  type u32 = n: int | 0 <= n < TWO_32
  type u64 = n: int | 0 <= n < TWO_64
  type i64 = n: int | -TWO_63 <= n < TWO_63

  /** Unsigned 64-bit wrap-around, as `fetch_add` and `fetch_sub` do it. */
  function Wrapping(n: int): (u: u64)
  {
    n % TWO_64
  }

  lemma WrappingSame(n: u64)
    ensures Wrapping(n) == n
  {
  }

  lemma WrappingStep(n: int)
    ensures Wrapping(Wrapping(n) + 1) == Wrapping(n + 1)
  {
  }

  lemma WrappingDown(n: int)
    ensures Wrapping(Wrapping(n) - 1) == Wrapping(n - 1)
  {
  }

  function Pow256(k: nat): (p: nat)
    ensures p >= 1
  {
    if k == 0 then 1 else 256 * Pow256(k - 1)
  }

  lemma PowersOf256()
    ensures Pow256(1) == TWO_8 && Pow256(2) == TWO_16 && Pow256(4) == TWO_32 && Pow256(8) == TWO_64
  {
    assert Pow256(3) == 256 * Pow256(2);
    assert Pow256(5) == 256 * Pow256(4);
    assert Pow256(6) == 256 * Pow256(5);
    assert Pow256(7) == 256 * Pow256(6);
  }

  function BigEndian(n: nat, k: nat): (s: seq<byte>)
    requires n < Pow256(k)
    ensures |s| == k
  {
    if k == 0 then [] else BigEndian(n / 256, k - 1) + [n % 256]
  }

  function LittleEndian(n: nat, k: nat): (s: seq<byte>)
    requires n < Pow256(k)
    ensures |s| == k
  {
    if k == 0 then [] else [n % 256] + LittleEndian(n / 256, k - 1)
  }

  function FromBigEndian(s: seq<byte>): (n: nat)
    ensures n < Pow256(|s|)
  {
    if s == [] then 0 else 256 * FromBigEndian(s[..|s| - 1]) + s[|s| - 1]
  }

  function FromLittleEndian(s: seq<byte>): (n: nat)
    ensures n < Pow256(|s|)
  {
    if s == [] then 0 else s[0] + 256 * FromLittleEndian(s[1..])
  }

  /** What `put_u16/32/64` (or their `_le` forms) append. */
  function PutWord(le: bool, n: nat, k: nat): (s: seq<byte>)
    requires n < Pow256(k)
    ensures |s| == k
  {
    if le then LittleEndian(n, k) else BigEndian(n, k)
  }

  /** What `get_u16/32/64` (or their `_le` forms) return for the bytes they remove. */
  function GetWord(le: bool, s: seq<byte>): (n: nat)
    ensures n < Pow256(|s|)
  {
    if le then FromLittleEndian(s) else FromBigEndian(s)
  }

  lemma {:induction false} GetPut(le: bool, n: nat, k: nat)
    requires n < Pow256(k)
    ensures GetWord(le, PutWord(le, n, k)) == n
  {
    if k != 0 {
      GetPut(le, n / 256, k - 1);
      var s := PutWord(le, n, k);
      if le {
        assert s[1..] == LittleEndian(n / 256, k - 1);
      } else {
        assert s[..|s| - 1] == BigEndian(n / 256, k - 1);
      }
    }
  }

  lemma {:induction false} PutGetLittle(s: seq<byte>)
    ensures LittleEndian(FromLittleEndian(s), |s|) == s
  {
    if s != [] {
      PutGetLittle(s[1..]);
      assert FromLittleEndian(s) / 256 == FromLittleEndian(s[1..]);
      assert s == [s[0]] + s[1..];
    }
  }

  lemma {:induction false} PutGetBig(s: seq<byte>)
    ensures BigEndian(FromBigEndian(s), |s|) == s
  {
    if s != [] {
      var init := s[..|s| - 1];
      PutGetBig(init);
      assert FromBigEndian(s) / 256 == FromBigEndian(init);
      assert s == init + [s[|s| - 1]];
    }
  }

  lemma PutGet(le: bool, s: seq<byte>)
    ensures PutWord(le, GetWord(le, s), |s|) == s
  {
    if le {
      PutGetLittle(s);
    } else {
      PutGetBig(s);
    }
  }

  /** The two byte orders of one word are mirror images. */
  lemma {:induction false} LittleIsReversedBig(n: nat, k: nat)
    requires n < Pow256(k)
    ensures Reverse(LittleEndian(n, k)) == BigEndian(n, k)
  {
    if k != 0 {
      LittleIsReversedBig(n / 256, k - 1);
      assert LittleEndian(n, k)[1..] == LittleEndian(n / 256, k - 1);
    }
  }

  /** The j-th byte of n from the low end. */
  function Digit(n: nat, j: nat): (d: byte)
  {
    if j == 0 then n % 256 else Digit(n / 256, j - 1)
  }

  /** Which byte goes where: low end first in one order, last in the other. */
  lemma {:induction false} BytePositions(n: nat, k: nat, i: nat)
    requires n < Pow256(k) && i < k
    ensures PutWord(true, n, k)[i] == Digit(n, i)
    ensures PutWord(false, n, k)[i] == Digit(n, k - 1 - i)
  {
    if i > 0 {
      BytePositions(n / 256, k - 1, i - 1);
    }
    if i < k - 1 {
      BytePositions(n / 256, k - 1, i);
    }
  }
}

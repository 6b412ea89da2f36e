/**
 The Internet checksum (`software_checksum` in `src/ethernet.c`), against RFC 1071.

 The code adds 16-bit words into a 32-bit accumulator and folds at the end. The reference is
 RFC 1071's one's complement addition with an end-around carry after every word.
 */
module Checksum {
  import opened Util

  /** The plain sum of big-endian words, an odd last byte padded with zero. */
  function WordSum(s: seq<byte>): nat
  {
    if |s| == 0 then 0
    else if |s| == 1 then 0x100 * s[0]
    else ShortAt(s, 0) as int + WordSum(s[2..])
  }

  /** The folding loop: add the high half to the low half until the high half is empty. */
  function Fold(n: nat): u16
  {
    if n < 0x1_0000 then n else Fold(n % 0x1_0000 + n / 0x1_0000)
  }

  /** RFC 1071, section 1: one's complement addition of two words. */
  function OnesAdd(a: u16, b: u16): u16
  {
    if a as int + b < 0x1_0000 then a as int + b else a as int + b - 0xFFFF
  }

  /** RFC 1071, section 1: the one's complement sum of all words, starting from `acc`. */
  function OnesSum(s: seq<byte>, acc: u16): u16
  {
    if |s| == 0 then acc
    else if |s| == 1 then OnesAdd(acc, 0x100 * s[0] as int)
    else OnesSum(s[2..], OnesAdd(acc, ShortAt(s, 0)))
  }

  /** The value the code returns: the one's complement of the folded sum. */
  function Sum16(s: seq<byte>, start: nat): u16 { 0xFFFF - Fold(start + WordSum(s)) }

  // ----- arithmetic modulo 65535 -----------------------------------------------------------

  lemma {:induction false} FoldMod(n: nat)
    ensures Fold(n) % 0xFFFF == n % 0xFFFF
    ensures Fold(n) == 0 <==> n == 0
    decreases n
  {
    if n >= 0x1_0000 {
      var m := n % 0x1_0000 + n / 0x1_0000;
      assert n == m + n / 0x1_0000 * 0xFFFF;
      ModShift(m, n / 0x1_0000);
      FoldMod(m);
    }
  }

  lemma ModShift(x: int, k: int)
    ensures (x + k * 0xFFFF) % 0xFFFF == x % 0xFFFF
  {
  }

  lemma ModAdd(x: int, y: int, z: int)
    requires x % 0xFFFF == y % 0xFFFF
    ensures (x + z) % 0xFFFF == (y + z) % 0xFFFF
  {
  }

  /** A word is fixed by its residue and by whether it is zero. */
  lemma WordUnique(a: u16, b: u16)
    requires a % 0xFFFF == b % 0xFFFF
    requires a == 0 <==> b == 0
    ensures a == b
  {
  }

  lemma {:induction false} OnesSumMod(s: seq<byte>, acc: u16)
    ensures OnesSum(s, acc) % 0xFFFF == (acc + WordSum(s)) % 0xFFFF
    ensures OnesSum(s, acc) == 0 <==> acc + WordSum(s) == 0
  {
    if |s| >= 2 {
      var next := OnesAdd(acc, ShortAt(s, 0));
      OnesSumMod(s[2..], next);
      ModAdd(next, acc as int + ShortAt(s, 0), WordSum(s[2..]));
    }
  }

  /** Folding the wide sum once at the end is the end-around-carry sum of RFC 1071. */
  lemma FoldIsOnesSum(s: seq<byte>, acc: u16)
    ensures Fold(acc + WordSum(s)) == OnesSum(s, acc)
  {
    FoldMod(acc + WordSum(s));
    OnesSumMod(s, acc);
    WordUnique(Fold(acc + WordSum(s)), OnesSum(s, acc));
  }

  /** Hence the code returns the one's complement of RFC 1071's sum. */
  lemma Sum16IsOnesComplement(s: seq<byte>, start: u16)
    ensures Sum16(s, start) == 0xFFFF - OnesSum(s, start)
  {
    FoldIsOnesSum(s, start);
  }

  /** The checksum is minus the sum modulo 65535. */
  lemma Sum16Negates(s: seq<byte>, start: nat)
    ensures (Sum16(s, start) + start + WordSum(s)) % 0xFFFF == 0
  {
    FoldMod(start + WordSum(s));
    ModAdd(start + WordSum(s), Fold(start + WordSum(s)), Sum16(s, start));
  }

  /** A sum folds to 0xFFFF exactly when it is a positive multiple of 65535. */
  lemma FoldsToOnes(n: nat)
    ensures Fold(n) == 0xFFFF <==> n != 0 && n % 0xFFFF == 0
  {
    FoldMod(n);
  }

  // ----- splitting -------------------------------------------------------------------------

  lemma {:induction false} WordSumConcat(s: seq<byte>, t: seq<byte>)
    requires |s| % 2 == 0
    ensures WordSum(s + t) == WordSum(s) + WordSum(t)
  {
    if s == [] {
      assert s + t == t;
    } else {
      assert (s + t)[2..] == s[2..] + t;
      WordSumConcat(s[2..], t);
    }
  }

  lemma {:induction false} WordSumBound(s: seq<byte>)
    ensures WordSum(s) <= (|s| + 1) / 2 * 0xFFFF
  {
    if |s| >= 2 { WordSumBound(s[2..]); }
  }

  /** `s` with the word at `k` overwritten. */
  function WithShort(s: seq<byte>, k: nat, v: u16): seq<byte>
    requires k + 2 <= |s|
  {
    Patch(s, k, ShortBytes(v))
  }

  lemma WordSumField(s: seq<byte>, k: nat, v: u16)
    requires k % 2 == 0 && k + 2 <= |s|
    ensures WordSum(WithShort(s, k, v)) == WordSum(WithShort(s, k, 0)) + v
  {
    WordSumAround(s, k, v);
    WordSumAround(s, k, 0);
  }

  lemma WordSumAround(s: seq<byte>, k: nat, v: u16)
    requires k % 2 == 0 && k + 2 <= |s|
    ensures WordSum(WithShort(s, k, v)) == WordSum(s[..k]) + v + WordSum(s[k + 2..])
  {
    var mid := ShortBytes(v);
    assert WithShort(s, k, v) == s[..k] + (mid + s[k + 2..]);
    WordSumConcat(s[..k], mid + s[k + 2..]);
    WordSumConcat(mid, s[k + 2..]);
    assert mid[2..] == [];
    assert WordSum(mid) == v;
  }

  // ----- the two uses of a checksum --------------------------------------------------------

  /** RFC 1071's receiver test: the sum including the stored checksum is all ones. */
  ghost predicate Verifies(s: seq<byte>, start: nat) { Fold(start + WordSum(s)) == 0xFFFF }

  /** Storing the checksum computed over a zeroed field makes the whole sum come out right. */
  lemma StoredChecksumVerifies(s: seq<byte>, k: nat, start: nat)
    requires k % 2 == 0 && k + 2 <= |s|
    ensures Verifies(WithShort(s, k, Sum16(WithShort(s, k, 0), start)), start)
    ensures Sum16(WithShort(s, k, Sum16(WithShort(s, k, 0), start)), start) == 0
  {
    var z := WithShort(s, k, 0);
    var c := Sum16(z, start);
    WordSumField(s, k, c);
    Sum16Negates(z, start);
    FoldMod(start + WordSum(z));
    FoldsToOnes(start + WordSum(WithShort(s, k, c)));
  }

  /** Recomputing over a zeroed field and comparing, against the receiver test of the RFC: they
      differ only for a stored 0xFFFF, which the code never accepts. */
  lemma RecomputeVersusTest(s: seq<byte>, k: nat, start: nat)
    requires k % 2 == 0 && k + 2 <= |s| && start > 0
    ensures ShortAt(s, k) == Sum16(WithShort(s, k, 0), start)
            <==> Verifies(s, start) && ShortAt(s, k) != 0xFFFF
  {
    var d := ShortAt(s, k);
    var z := WithShort(s, k, 0);
    assert WithShort(s, k, d) == s by {
      assert ShortBytes(d)[0] == s[k] && ShortBytes(d)[1] == s[k + 1];
    }
    WordSumField(s, k, d);
    FoldComplement(start + WordSum(z), d);
  }

  /** A word is the complement of a positive folded sum iff adding it gives all ones, 0xFFFF aside. */
  lemma FoldComplement(n: nat, d: u16)
    requires n > 0
    ensures d == 0xFFFF - Fold(n) <==> Fold(n + d) == 0xFFFF && d != 0xFFFF
  {
    FoldMod(n);
    FoldsToOnes(n + d);
    ModAdd(n, Fold(n), d);
    Residues(Fold(n), 0xFFFF - Fold(n), d);
  }

  lemma Residues(n: int, c: u16, d: u16)
    requires (c + n) % 0xFFFF == 0
    ensures (d + n) % 0xFFFF == 0 <==> d % 0xFFFF == c % 0xFFFF
  {
  }

  // ----- the code ----------------------------------------------------------------------------

  /** `software_checksum` over `len` bytes of `a` from `from`. The declared types of `sum` and `len`
      carry the obligation that neither the 32-bit accumulator nor the 16-bit counter wraps. */
  method SoftwareChecksum(a: array<byte>, from: nat, length: u16, start: u32) returns (r: u16)
    requires from + length <= a.Length
    requires start < 0x8000_0000
    ensures r == Sum16(a[from..from + length], start)
  {
    ghost var all := a[from..from + length];
    var p, len, sum: u32 := from, length, start;
    WordSumBound(all);
    while len > 1
      invariant 0 <= len <= length && p == from + length - len && p + len <= a.Length
      invariant sum + WordSum(a[p..p + len]) == start + WordSum(all)
      decreases len
    {
      assert a[p..p + len][2..] == a[p + 2..p + len];
      sum := sum + (0x100 * a[p] as int + a[p + 1]);
      p := p + 2;
      len := len - 2;
    }
    if len != 0 {
      sum := sum + 0x100 * a[p] as int;
    }
    assert sum == start + WordSum(all);
    while sum / 0x1_0000 != 0
      invariant Fold(sum) == Fold(start + WordSum(all))
      decreases sum
    {
      sum := sum % 0x1_0000 + sum / 0x1_0000;
    }
    r := 0xFFFF - sum;
  }
}

/**
 Bytes, 16- and 32-bit words, and the helpers of `src/util.c`.

 Machine integers are subset types of `int`, so every assignment to one of them carries the
 obligation that the value fits; wrap-around is written out with `Wrap16`/`Wrap32` where the C
 code relies on it. Words travel in network byte order (most significant byte first).
 */
module Util {
  type byte = x: int | 0 <= x < 0x100
  type u16 = x: int | 0 <= x < 0x1_0000
  type u32 = x: int | 0 <= x < 0x1_0000_0000

  datatype Option<+T> = None | Some(value: T)

  function Min(a: int, b: int): int { if a < b then a else b }

  function Wrap16(x: int): u16 { x % 0x1_0000 }

  function Wrap32(x: int): u32 { x % 0x1_0000_0000 }

  function High(v: u16): byte { v / 0x100 }

  function Low(v: u16): byte { v % 0x100 }

  /** `CharsToShort(p + i)`. */
  function ShortAt(p: seq<byte>, i: nat): u16
    requires i + 2 <= |p|
  {
    p[i] as int * 0x100 + p[i + 1]
  }

  /** `CharsToLong(p + i)`. */
  function LongAt(p: seq<byte>, i: nat): u32
    requires i + 4 <= |p|
  {
    p[i] as int * 0x100_0000 + p[i + 1] as int * 0x1_0000 + p[i + 2] as int * 0x100 + p[i + 3]
  }

  function ShortBytes(v: u16): (r: seq<byte>)
    ensures |r| == 2 && ShortAt(r, 0) == v
  {
    [High(v), Low(v)]
  }

  /** The bytes of a 32-bit word as `TcpSetSequence` stores them. */
  function LongBytes(v: u32): (r: seq<byte>)
    ensures |r| == 4 && LongAt(r, 0) == v
  {
    LongSplits(v);
    [v / 0x100_0000, v / 0x1_0000 % 0x100, v / 0x100 % 0x100, v % 0x100]
  }

  lemma LongSplits(v: u32)
    ensures v / 0x100_0000 * 0x100_0000 + v / 0x1_0000 % 0x100 * 0x1_0000 + v / 0x100 % 0x100 * 0x100 + v % 0x100 == v
  {
    var a := v / 0x100;
    var b := a / 0x100;
    assert v / 0x1_0000 == b && v / 0x100_0000 == b / 0x100;
    assert v == 0x100 * a + v % 0x100 && a == 0x100 * b + a % 0x100 && b == 0x100 * (b / 0x100) + b % 0x100;
  }

  /** What `memcpy(s + at, bytes, |bytes|)` leaves behind. */
  function Patch(s: seq<byte>, at: nat, bytes: seq<byte>): (r: seq<byte>)
    requires at + |bytes| <= |s|
    ensures |r| == |s|
  {
    s[..at] + bytes + s[at + |bytes|..]
  }

  method Put(a: array<byte>, at: nat, bytes: seq<byte>)
    requires at + |bytes| <= a.Length
    modifies a
    ensures forall k | at <= k < at + |bytes| :: a[k] == bytes[k - at]
    ensures forall k | 0 <= k < a.Length && !(at <= k < at + |bytes|) :: a[k] == old(a[k])
  {
    forall k | 0 <= k < |bytes| {
      a[at + k] := bytes[k];
    }
  }

  /** A slice around a patch is the patched slice. */
  lemma SlicePatch(s: seq<byte>, from: nat, to: nat, at: nat, bytes: seq<byte>)
    requires from <= at && at + |bytes| <= to <= |s|
    ensures Patch(s, at, bytes)[from..to] == Patch(s[from..to], at - from, bytes)
  {
  }

  function Concat(chunks: seq<seq<byte>>): seq<byte>
  {
    if chunks == [] then [] else chunks[0] + Concat(chunks[1..])
  }

  lemma {:induction false} ConcatSnoc(chunks: seq<seq<byte>>, last: seq<byte>)
    ensures Concat(chunks + [last]) == Concat(chunks) + last
  {
    if chunks == [] {
      assert [last][1..] == [];
    } else {
      assert (chunks + [last])[0] == chunks[0] && (chunks + [last])[1..] == chunks[1..] + [last];
      ConcatSnoc(chunks[1..], last);
    }
  }

  // ----- decimal numbers -------------------------------------------------------------------

  predicate IsDigit(ch: byte) { '0' as int <= ch <= '9' as int }

  function Pow10(n: nat): nat { if n == 0 then 1 else 10 * Pow10(n - 1) }

  /** The value of a decimal digit string, most significant digit first. */
  function Decimal(s: seq<byte>): int
  {
    if s == [] then 0 else 10 * Decimal(s[..|s| - 1]) + (s[|s| - 1] - '0' as int)
  }

  predicate AllDigits(s: seq<byte>) { forall k | 0 <= k < |s| :: IsDigit(s[k]) }

  /** Splitting off the leading digit instead of the last one. */
  lemma {:induction false} DecimalFront(s: seq<byte>)
    requires s != []
    ensures Decimal(s) == (s[0] - '0' as int) * Pow10(|s| - 1) + Decimal(s[1..])
  {
    if |s| > 1 {
      var init := s[..|s| - 1];
      DecimalFront(init);
      assert s[1..][..|s| - 2] == init[1..];
      TimesTen(s[0] - '0' as int, Pow10(|s| - 2), Decimal(init[1..]), s[|s| - 1] - '0' as int);
    }
  }

  lemma TimesTen(d: int, p: nat, x: int, last: int)
    ensures 10 * (d * p + x) + last == d * (10 * p) + (10 * x + last)
  {
    assert 10 * (d * p) == d * (10 * p);
  }

  /** `ParseLong`: right to left, both the number and the weight are 32-bit and wrap. */
  method ParseLong(ch: seq<byte>) returns (ok: bool, number: u32)
    requires |ch| < 0x1_0000
    ensures ok <==> ch != [] && AllDigits(ch)
    ensures ok ==> number == Wrap32(Decimal(ch))
  {
    number := 0;
    if |ch| == 0 {
      return false, 0;
    }
    var i := |ch| - 1;
    var decimalIndex: u32 := 1;
    while true
      invariant 0 <= i < |ch|
      invariant AllDigits(ch[i + 1..])
      invariant number == Wrap32(Decimal(ch[i + 1..]))
      invariant decimalIndex == Wrap32(Pow10(|ch| - 1 - i))
      decreases i
    {
      if !IsDigit(ch[i]) {
        return false, number;
      }
      ghost var rest := ch[i + 1..];
      DecimalFront(ch[i..]);
      assert ch[i..][1..] == rest;
      WrapStep(ch[i] - '0' as int, decimalIndex, Pow10(|rest|), number, Decimal(rest));
      number := Wrap32(number + (ch[i] - '0' as int) * decimalIndex);
      decimalIndex := Wrap32(decimalIndex * 10);
      if i == 0 {
        assert ch[0..] == ch;
        break;
      }
      i := i - 1;
    }
    ok := true;
  }

  /** One digit of `ParseLong` commutes with reduction modulo 2^32. */
  lemma WrapStep(d: nat, w: u32, p: nat, n: u32, v: int)
    requires w == Wrap32(p) && n == Wrap32(v)
    ensures Wrap32(n + d * w) == Wrap32(d * p + v)
    ensures Wrap32(w * 10) == Wrap32(10 * p)
  {
    var m := 0x1_0000_0000;
    var kp, kv := p / m, v / m;
    assert p == kp * m + w && v == kv * m + n;
    assert d * p == d * (kp * m) + d * w;
    assert d * (kp * m) == (d * kp) * m;
    WrapShift(n + d * w, d * kp + kv);
    WrapShift(w * 10, 10 * kp);
  }

  lemma WrapShift(x: int, k: int)
    ensures Wrap32(x + k * 0x1_0000_0000) == Wrap32(x)
  {
  }

  /** The digits `printf("%u")` prints. */
  function Digits(n: nat): (s: seq<byte>)
    ensures s != [] && AllDigits(s) && Decimal(s) == n
  {
    if n < 10 then [n + '0' as int]
    else Digits(n / 10) + [n % 10 + '0' as int]
  }

  /** A printed number below 2^32 survives `ParseLong`, and a 16-bit one has at most five digits. */
  lemma {:induction false} DigitsLength(n: nat)
    requires n < 0x1_0000
    ensures 1 <= |Digits(n)| <= 5
    ensures |Digits(n)| == 5 <==> 10000 <= n
  {
    if n >= 10 {
      assert |Digits(n)| == 1 + |Digits(n / 10)|;
      if n >= 100 { assert |Digits(n / 10)| == 1 + |Digits(n / 100)|; }
      if n >= 1000 { assert |Digits(n / 100)| == 1 + |Digits(n / 1000)|; }
      if n >= 10000 { assert |Digits(n / 1000)| == 1 + |Digits(n / 10000)|; }
    }
  }
}

/**
 The Montgomery coefficients of an RSA public key: to_words and compute_mod_parameters of
 pem_extract_pubkey.py. array.array("I") is four bytes a word, least significant first, as on the
 little-endian hosts the script is written for.
 */
module PemKey {
  import opened Common
  import opened Der
  import opened ModInverse

  /** An item of array.array("I"): four bytes in memory, least significant first. */
  datatype Word = Word(b0: byte, b1: byte, b2: byte, b3: byte)
  {
    function Value(): (n: nat)
      ensures n < 0x1_0000_0000
    {
      b0 + 0x100 * b1 + 0x1_0000 * b2 + 0x100_0000 * b3
    }

    /** One item of array.byteswap(). */
    function Swap(): Word { Word(b3, b2, b1, b0) }
  }

  // ---------------------------------------------------------------------------------------------
  // Numbers as bytes, words and digits

  function Pow(b: nat, e: nat): nat { if e == 0 then 1 else b * Pow(b, e - 1) }

  /** Least significant word first: the sum of w[i] * 2^(32 i). */
  function LimbSum(w: seq<Word>): nat {
    if |w| == 0 then 0 else w[0].Value() + 0x1_0000_0000 * LimbSum(w[1..])
  }

  /** The four bytes at an index, least or most significant first. */
  function LittleAt(s: seq<byte>, at: nat): Word
    requires at + 4 <= |s|
  {
    Word(s[at], s[at + 1], s[at + 2], s[at + 3])
  }

  function BigAt(s: seq<byte>, at: nat): Word
    requires at + 4 <= |s|
  {
    Word(s[at + 3], s[at + 2], s[at + 1], s[at])
  }

  /** array.array("I", s) for a length that is a multiple of four. */
  function Words(s: seq<byte>): (w: seq<Word>)
    requires |s| % 4 == 0
    ensures |w| == |s| / 4
  {
    if |s| == 0 then [] else [LittleAt(s, 0)] + Words(s[4..])
  }

  lemma {:induction false} WordsAt(s: seq<byte>, k: nat)
    requires |s| % 4 == 0 && k < |s| / 4
    ensures Words(s)[k] == LittleAt(s, 4 * k)
  {
    if k == 0 {
    } else {
      WordsAt(s[4..], k - 1);
    }
  }

  // ---------------------------------------------------------------------------------------------
  // The modulus as limbs

  /** The limbs of a big-endian byte string: its last four bytes first. */
  function Limbs(s: seq<byte>): (w: seq<Word>)
    requires |s| % 4 == 0
    ensures |w| == |s| / 4
  {
    if |s| == 0 then []
    else [BigAt(s, |s| - 4)] + Limbs(s[..|s| - 4])
  }

  lemma {:induction false} LimbsAt(s: seq<byte>, k: nat)
    requires |s| % 4 == 0 && k < |s| / 4
    ensures Limbs(s)[k] == BigAt(s, |s| - 4 * k - 4)
  {
    if k == 0 {
    } else {
      LimbsAt(s[..|s| - 4], k - 1);
    }
  }

  lemma LastFour(s: seq<byte>)
    requires |s| >= 4
    ensures Number(s) == BigAt(s, |s| - 4).Value() + 0x1_0000_0000 * Number(s[..|s| - 4])
  {
    var n := |s|;
    assert s[..n - 1][..n - 2] == s[..n - 2] && s[..n - 2][..n - 3] == s[..n - 3] && s[..n - 3][..n - 4] == s[..n - 4];
    assert Number(s[..n - 3]) == Number(s[..n - 4]) * 0x100 + s[n - 4];
    assert Number(s[..n - 2]) == Number(s[..n - 3]) * 0x100 + s[n - 3];
    assert Number(s[..n - 1]) == Number(s[..n - 2]) * 0x100 + s[n - 2];
  }

  lemma {:induction false} LimbsAreTheNumber(s: seq<byte>)
    requires |s| % 4 == 0
    ensures LimbSum(Limbs(s)) == Number(s)
  {
    if |s| == 0 {
    } else {
      var front := s[..|s| - 4];
      LimbsAreTheNumber(front);
      LastFour(s);
      assert Limbs(s)[1..] == Limbs(front);
    }
  }

  /** Limb k of n is the byte-swapped word k from the end. */
  lemma LimbIsSwappedWord(s: seq<byte>, n: nat, k: nat)
    requires |s| == 4 * n && k < n
    ensures Limbs(s)[k] == Words(s)[n - 1 - k].Swap()
  {
    WordsAt(s, n - 1 - k);
    LimbsAt(s, k);
    SwappedAt(s, 4 * (n - 1 - k));
  }

  lemma SwappedAt(s: seq<byte>, at: nat)
    requires at + 4 <= |s|
    ensures BigAt(s, at) == LittleAt(s, at).Swap()
  {
  }

  /** w.reverse(). */
  method ReverseWords(w: array<Word>)
    modifies w
    ensures forall k :: 0 <= k < w.Length ==> w[k] == old(w[w.Length - 1 - k])
  {
    var low, high := 0, w.Length - 1;
    while low < high
      invariant 0 <= low <= high + 1 && high == w.Length - 1 - low
      invariant forall k :: 0 <= k < low || high < k < w.Length ==> w[k] == old(w[w.Length - 1 - k])
      invariant forall k :: low <= k <= high ==> w[k] == old(w[k])
    {
      w[low], w[high] := w[high], w[low];
      low, high := low + 1, high - 1;
    }
  }

  /** w.byteswap(). */
  method SwapWords(w: array<Word>)
    modifies w
    ensures forall k :: 0 <= k < w.Length ==> w[k] == old(w[k]).Swap()
  {
    for i := 0 to w.Length
      invariant forall k :: 0 <= k < i ==> w[k] == old(w[k]).Swap()
      invariant forall k :: i <= k < w.Length ==> w[k] == old(w[k])
    {
      w[i] := w[i].Swap();
    }
  }

  /** The array built from a byte string, reversed and byte-swapped, holds the limbs of its number. */
  method LoadLimbs(s: seq<byte>) returns (w: array<Word>)
    requires |s| % 4 == 0
    ensures fresh(w) && w[..] == Limbs(s) && LimbSum(w[..]) == Number(s)
  {
    var words := Words(s);
    w := new Word[|words|](i requires 0 <= i < |words| => words[i]);
    ReverseWords(w);
    SwapWords(w);
    forall k | 0 <= k < |words|
      ensures w[k] == Limbs(s)[k]
    {
      LimbIsSwappedWord(s, |words|, k);
    }
    assert w[..] == Limbs(s);
    LimbsAreTheNumber(s);
  }

  // ---------------------------------------------------------------------------------------------
  // to_words

  predicate AreDigits(h: seq<nat>) { forall i :: 0 <= i < |h| ==> h[i] < 16 }

  /** '%x' % n: digits, most significant first, at least one. */
  function HexDigits(n: nat): (h: seq<nat>)
    ensures |h| >= 1 && AreDigits(h)
  {
    if n < 16 then [n] else HexDigits(n / 16) + [n % 16]
  }

  function HexNumber(h: seq<nat>): nat {
    if |h| == 0 then 0 else HexNumber(h[..|h| - 1]) * 16 + h[|h| - 1]
  }

  function EvenUp(k: nat): (e: nat)
    ensures e % 2 == 0 && k <= e <= k + 1
  {
    if k % 2 == 1 then k + 1 else k
  }

  /** '0' * (len(h) % 2) + h, then zfill(count * 8). */
  function Padded(h: seq<nat>, count: nat): (p: seq<nat>)
    requires AreDigits(h)
    ensures AreDigits(p) && |p| == Max(EvenUp(|h|), 8 * count) && |p| % 2 == 0
  {
    EvenMax(EvenUp(|h|), 4 * count);
    ZFill(if |h| % 2 == 1 then [0] + h else h, 8 * count)
  }

  lemma EvenMax(a: nat, b: nat)
    requires a % 2 == 0
    ensures Max(a, 2 * b) % 2 == 0
  {
  }

  function ZFill(h: seq<nat>, width: nat): (p: seq<nat>)
    requires AreDigits(h)
    ensures AreDigits(p) && |p| == Max(|h|, width)
    decreases width - |h|
  {
    if |h| >= width then h else ZFill([0] + h, width)
  }

  /** decode('hex'): two digits a byte. */
  function FromHex(h: seq<nat>): (s: seq<byte>)
    requires |h| % 2 == 0 && AreDigits(h)
    ensures |s| == |h| / 2
  {
    if |h| == 0 then [] else FromHex(h[..|h| - 2]) + [16 * h[|h| - 2] + h[|h| - 1]]
  }

  /** s[::-1]. */
  function Backwards(s: seq<byte>): (r: seq<byte>)
    ensures |r| == |s| && forall i :: 0 <= i < |s| ==> r[i] == s[|s| - 1 - i]
  {
    seq(|s|, i requires 0 <= i < |s| => s[|s| - 1 - i])
  }

  /** to_words; None is the ValueError of array.array for bytes that do not fill whole words. */
  function ToWords(n: nat, count: nat): Option<seq<Word>> {
    var s := FromHex(Padded(HexDigits(n), count));
    if |s| % 4 != 0 then None else Some(Words(Backwards(s)))
  }

  lemma {:induction false} HexDigitsValue(n: nat)
    ensures HexNumber(HexDigits(n)) == n
  {
    if n >= 16 {
      HexDigitsValue(n / 16);
      var h := HexDigits(n / 16);
      assert HexDigits(n)[..|h|] == h;
    } else {
      assert [n][..0] == [];
    }
  }

  /** A number of h digits is below 16^h, and not below 16^(h-1). */
  lemma {:induction false} HexDigitsBound(n: nat)
    ensures n < Pow(16, |HexDigits(n)|) && (|HexDigits(n)| > 1 ==> n >= Pow(16, |HexDigits(n)| - 1))
  {
    var h := |HexDigits(n)|;
    if n >= 16 {
      HexDigitsBound(n / 16);
      assert h - 1 == |HexDigits(n / 16)| && Pow(16, h) == 16 * Pow(16, h - 1);
      assert h - 1 > 1 ==> Pow(16, h - 1) == 16 * Pow(16, h - 2);
      assert h - 1 == 1 ==> Pow(16, 1) == 16 * Pow(16, 0);
    } else {
      assert Pow(16, 1) == 16 * Pow(16, 0);
    }
  }

  lemma {:induction false} LeadingZero(h: seq<nat>)
    ensures HexNumber([0] + h) == HexNumber(h)
  {
    if |h| > 0 {
      LeadingZero(h[..|h| - 1]);
      assert ([0] + h)[..|h|] == [0] + h[..|h| - 1];
    } else {
      assert ([0] + h)[..0] == [];
    }
  }

  lemma {:induction false} ZFillValue(h: seq<nat>, width: nat)
    requires AreDigits(h)
    ensures HexNumber(ZFill(h, width)) == HexNumber(h)
    decreases width - |h|
  {
    if |h| >= width {
    } else {
      LeadingZero(h);
      ZFillValue([0] + h, width);
    }
  }

  lemma PaddedValue(h: seq<nat>, count: nat)
    requires AreDigits(h)
    ensures HexNumber(Padded(h, count)) == HexNumber(h)
  {
    LeadingZero(h);
    ZFillValue(if |h| % 2 == 1 then [0] + h else h, 8 * count);
  }

  lemma {:induction false} FromHexValue(h: seq<nat>)
    requires |h| % 2 == 0 && AreDigits(h)
    ensures Number(FromHex(h)) == HexNumber(h)
  {
    if |h| == 0 {
    } else {
      var front := h[..|h| - 2];
      FromHexValue(front);
      assert h[..|h| - 1][..|h| - 2] == front;
      assert HexNumber(h[..|h| - 1]) == HexNumber(front) * 16 + h[|h| - 2];
      assert FromHex(h)[..|h| / 2 - 1] == FromHex(front);
    }
  }

  /** Reading reversed bytes as words gives the limbs. */
  lemma BackwardsWordsAreLimbs(s: seq<byte>)
    requires |s| % 4 == 0
    ensures Words(Backwards(s)) == Limbs(s)
  {
    forall k | 0 <= k < |s| / 4
      ensures Words(Backwards(s))[k] == Limbs(s)[k]
    {
      WordsAt(Backwards(s), k);
      LimbsAt(s, k);
    }
  }

  lemma ProductGrows(b: nat, p: nat)
    requires b >= 1
    ensures b * p >= p
  {
  }

  lemma {:induction false} PowMonotone(b: nat, d: nat, e: nat)
    requires b >= 1 && d <= e
    ensures 1 <= Pow(b, d) <= Pow(b, e)
    decreases e
  {
    if d < e {
      PowMonotone(b, d, e - 1);
      ProductGrows(b, Pow(b, e - 1));
    } else if d > 0 {
      PowMonotone(b, d - 1, d - 1);
      ProductGrows(b, Pow(b, d - 1));
    }
  }

  /** Whenever to_words returns, the limb sum undoes it. */
  lemma ToWordsUndone(n: nat, count: nat)
    ensures ToWords(n, count).Some? ==> LimbSum(ToWords(n, count).value) == n
  {
    var h := HexDigits(n);
    HexDigitsValue(n);
    PaddedValue(h, count);
    var s := FromHex(Padded(h, count));
    FromHexValue(Padded(h, count));
    if |s| % 4 == 0 {
      BackwardsWordsAreLimbs(s);
      LimbsAreTheNumber(s);
    }
  }

  /** A number has at most k hexadecimal digits, for a positive k, exactly when it is below 16^k. */
  lemma DigitCount(n: nat, k: nat)
    requires k > 0
    ensures |HexDigits(n)| <= k <==> n < Pow(16, k)
  {
    var h := |HexDigits(n)|;
    HexDigitsBound(n);
    if h <= k { PowMonotone(16, h, k); } else { PowMonotone(16, k, h - 1); }
  }

  /** Digits padded to an even number, and to eight per word, fill exactly count words if they are at most that many. */
  lemma WholeWords(h: nat, count: nat, bytes: nat)
    requires h >= 1 && 2 * bytes == Max(EvenUp(h), 8 * count)
    ensures bytes % 4 == 0 && bytes / 4 == count <==> count >= 1 && h <= 8 * count
  {
  }

  /** One byte too many does not fill whole words. */
  lemma OneByteMore(h: nat, count: nat, bytes: nat)
    requires 8 * count < h <= 8 * count + 2 && 2 * bytes == Max(EvenUp(h), 8 * count)
    ensures bytes % 4 == 1
  {
    assert bytes == 4 * count + 1;
  }

  /** The bytes to_words decodes, and when they make words. */
  lemma ToWordsLength(n: nat, count: nat) returns (bytes: nat)
    ensures 2 * bytes == Max(EvenUp(|HexDigits(n)|), 8 * count)
    ensures ToWords(n, count).Some? <==> bytes % 4 == 0
    ensures ToWords(n, count).Some? ==> |ToWords(n, count).value| == bytes / 4
  {
    bytes := |FromHex(Padded(HexDigits(n), count))|;
  }

  /** It returns exactly count words if and only if count is positive and n has at most 32 * count bits. */
  lemma ToWordsCount(n: nat, count: nat)
    ensures (ToWords(n, count).Some? && |ToWords(n, count).value| == count) <==> count >= 1 && n < Pow(16, 8 * count)
  {
    var bytes := ToWordsLength(n, count);
    WholeWords(|HexDigits(n)|, count, bytes);
    if count >= 1 { DigitCount(n, 8 * count); }
  }

  /** A number of one byte more than count words makes it fail. */
  lemma ToWordsFails(n: nat, count: nat)
    requires count >= 1 && Pow(16, 8 * count) <= n < Pow(16, 8 * count + 2)
    ensures ToWords(n, count) == None
  {
    DigitCount(n, 8 * count);
    DigitCount(n, 8 * count + 2);
    var bytes := ToWordsLength(n, count);
    OneByteMore(|HexDigits(n)|, count, bytes);
  }

  /** 16^(8k) is the k-th power of a word. */
  lemma {:induction false} WordPower(k: nat)
    ensures Pow(16, 8 * k) == Pow(0x1_0000_0000, k) == Pow(256, 4 * k) == Pow(2, 32 * k)
  {
    if k == 0 {
    } else {
      WordPower(k - 1);
      PowAdd(16, 8, 8 * (k - 1));
      PowAdd(256, 4, 4 * (k - 1));
      PowAdd(2, 32, 32 * (k - 1));
      SmallPowers();
    }
  }

  lemma Associate(a: int, b: int, c: int)
    ensures a * (b * c) == (a * b) * c
  {
  }

  lemma {:induction false} PowAdd(b: nat, d: nat, e: nat)
    ensures Pow(b, d + e) == Pow(b, d) * Pow(b, e)
  {
    if d == 0 {
    } else {
      PowAdd(b, d - 1, e);
      Associate(b, Pow(b, d - 1), Pow(b, e));
    }
  }

  lemma SmallPowers()
    ensures Pow(16, 8) == 0x1_0000_0000 && Pow(256, 4) == 0x1_0000_0000 && Pow(2, 32) == 0x1_0000_0000
  {
    assert Pow(16, 2) == 256 by { assert Pow(16, 1) == 16; }
    PowAdd(16, 2, 2);
    PowAdd(16, 4, 4);
    assert Pow(256, 2) == 0x1_0000 by { assert Pow(256, 1) == 256; }
    PowAdd(256, 2, 2);
    assert Pow(2, 2) == 4 by { assert Pow(2, 1) == 2; }
    PowAdd(2, 2, 2);
    PowAdd(2, 4, 4);
    PowAdd(2, 8, 8);
    PowAdd(2, 16, 16);
  }

  // ---------------------------------------------------------------------------------------------
  // compute_mod_parameters

  /** The exceptions: array.array, w[0], modinv, and PEMError. */
  datatype KeyError = BadArray | NoWord | EvenModulus | KeySize

  datatype Params = Params(len: nat, limbs: seq<Word>, rr: seq<Word>, n0inv: int)

  lemma Distribute(i: int, r: int, k: int)
    ensures (2 * i + r) * k == 2 * (i * k) + r * k
  {
  }

  lemma ProductParity(d: int, k: int)
    ensures (d * k) % 2 == (d % 2) * (k % 2)
  {
    var i, r := d / 2, d % 2;
    Distribute(i, r, k);
    if r == 0 { assert r * k == 0; } else { assert r * k == k; }
  }

  /** A number is odd exactly when it is coprime with 2^e, for any positive e. */
  lemma OddIsCoprime(a: int, e: nat)
    requires e > 0
    ensures a % 2 == 1 <==> Coprime(a, Pow(2, e))
  {
    if a % 2 == 1 {
      forall d: int | d > 0 && Divides(d, a) && Divides(d, Pow(2, e))
        ensures d == 1
      {
        var j :| a == d * j;
        var k :| Pow(2, e) == d * k;
        ProductParity(d, j);
        OddDivisor(d, k, e);
      }
    } else {
      assert a == 2 * (a / 2) && Pow(2, e) == 2 * Pow(2, e - 1);
      assert Divides(2, a) && Divides(2, Pow(2, e));
    }
  }

  lemma {:induction false} OddDivisor(d: int, k: int, e: nat)
    requires d > 0 && d % 2 == 1 && d * k == Pow(2, e)
    ensures d == 1
  {
    if e == 0 {
      FactorOfOne(d, k);
    } else {
      ProductParity(d, k);
      var half := k / 2;
      assert k == 2 * half && d * k == 2 * (d * half);
      OddDivisor(d, half, e - 1);
    }
  }

  lemma {:induction false} NumberCons(b: byte, s: seq<byte>)
    ensures Number([b] + s) == b * Pow(256, |s|) + Number(s)
  {
    if |s| == 0 {
      assert [b] + s == [b] && [b][..0] == [];
    } else {
      var n := |s|;
      NumberCons(b, s[..n - 1]);
      assert ([b] + s)[..n] == [b] + s[..n - 1];
      assert (b * Pow(256, n - 1)) * 256 == b * (256 * Pow(256, n - 1));
    }
  }

  lemma {:induction false} NumberBound(s: seq<byte>)
    ensures Number(s) < Pow(256, |s|)
  {
    if |s| == 0 {
    } else {
      NumberBound(s[..|s| - 1]);
    }
  }

  lemma LowestLimb(w: seq<Word>)
    requires w != []
    ensures LimbSum(w) == w[0].Value() + 0x1_0000_0000 * LimbSum(w[1..])
  {
  }

  /** The modulus with its sign byte, modulo a word, is the lowest limb. */
  lemma LowLimb(modulus: seq<byte>) returns (high: nat)
    requires |modulus| >= 5 && (|modulus| - 1) % 4 == 0
    ensures Number(modulus) == Limbs(modulus[1..])[0].Value() + 0x1_0000_0000 * high
  {
    var body, top := modulus[1..], modulus[0];
    var k := |body| / 4;
    assert modulus == [top] + body;
    NumberCons(top, body);
    LimbsAreTheNumber(body);
    LowestLimb(Limbs(body));
    WordPower(k);
    TopByte(top, k);
    var carry: nat := top * Pow(0x1_0000_0000, k - 1);
    high := LimbSum(Limbs(body)[1..]) + carry;
    assert Number(modulus) == 0x1_0000_0000 * carry + Number(body);
  }

  lemma TopByte(b: byte, k: nat)
    requires k > 0
    ensures b * Pow(0x1_0000_0000, k) == 0x1_0000_0000 * (b * Pow(0x1_0000_0000, k - 1)) >= 0
  {
    var p := Pow(0x1_0000_0000, k - 1);
    assert b * (0x1_0000_0000 * p) == 0x1_0000_0000 * (b * p);
  }

  lemma NegatedProduct(n: int, low: int, high: int, b: int, i: int, m: int)
    requires n == low + m * high && low * b - 1 == m * i
    ensures n * (m - b) == m * (n - i - high * b - 1) + (m - 1)
  {
    assert n * b == low * b + m * (high * b);
    assert n * (m - b) == m * n - n * b;
    assert m * (n - i - high * b - 1) == m * n - m * i - m * (high * b) - m;
  }

  /** Subtracting the inverse of the lowest limb from 2^32 gives the negated inverse of the whole number. */
  lemma NegatedInverse(n: int, low: int, high: int, b: int)
    requires n == low + 0x1_0000_0000 * high && 0 <= b < 0x1_0000_0000 && IsInverse(low, b, 0x1_0000_0000)
    ensures 1 <= 0x1_0000_0000 - b < 0x1_0000_0000 && (n * (0x1_0000_0000 - b)) % 0x1_0000_0000 == 0x1_0000_0000 - 1
  {
    var i :| low * b - 1 == 0x1_0000_0000 * i;
    NegatedProduct(n, low, high, b, i, 0x1_0000_0000);
    LastRemainderOfWord(n * (0x1_0000_0000 - b), n - i - high * b - 1);
    assert b == 0 ==> low * b == 0;
  }

  lemma LastRemainderOfWord(x: int, q: int)
    requires x == 0x1_0000_0000 * q + 0xffff_ffff
    ensures x % 0x1_0000_0000 == 0xffff_ffff
  {
  }

  lemma LimbParity(n: int, low: nat, high: nat)
    requires n == low + 0x1_0000_0000 * high
    ensures Coprime(low, 0x1_0000_0000) <==> n % 2 == 1
  {
    assert n == low + 2 * (0x8000_0000 * high);
    OddIsCoprime(low, 32);
    SmallPowers();
  }

  /** The lowest limb has an inverse modulo 2^32 exactly when the modulus is odd. */
  lemma LimbDecides(modulus: seq<byte>)
    requires |modulus| >= 5 && (|modulus| - 1) % 4 == 0
    ensures Coprime(Limbs(modulus[1..])[0].Value(), 0x1_0000_0000) <==> Number(modulus) % 2 == 1
  {
    var high := LowLimb(modulus);
    LimbParity(Number(modulus), Limbs(modulus[1..])[0].Value(), high);
  }

  /** -1/n modulo 2^32. */
  predicate NegatedInverseOf(x: int, n: int) { 1 <= x < 0x1_0000_0000 && (n * x) % 0x1_0000_0000 == 0x1_0000_0000 - 1 }

  /** Negated, its inverse is one for the modulus. */
  lemma LimbInverse(modulus: seq<byte>, b: int, negated: int)
    requires |modulus| >= 5 && (|modulus| - 1) % 4 == 0 && negated == 0x1_0000_0000 - b
    requires 0 <= b < 0x1_0000_0000 && IsInverse(Limbs(modulus[1..])[0].Value(), b, 0x1_0000_0000)
    ensures NegatedInverseOf(negated, Number(modulus))
  {
    var high := LowLimb(modulus);
    NegatedInverse(Number(modulus), Limbs(modulus[1..])[0].Value(), high, b);
  }

  /** Everything the parameters promise about the modulus they were computed from; square is R^2 modulo it. */
  ghost predicate AreParamsOf(p: Params, modulus: seq<byte>, square: nat) {
    && |modulus| >= 5
    && p.len == (|modulus| - 1) / 4 == |p.limbs| == |p.rr|
    && LimbSum(p.limbs) == Number(modulus[1..])
    && NegatedInverseOf(p.n0inv, Number(modulus))
    && LimbSum(p.rr) == square
    && (modulus[0] == 0 ==> LimbSum(p.limbs) == Number(modulus))
  }

  /** R^2 modulo the modulus, for R = 2^(its size). */
  function RSquared(modulus: seq<byte>): nat
    requires |modulus| > 0 && Number(modulus) > 0
  {
    Pow(2, 16 * (|modulus| - 1)) % Number(modulus)
  }

  /** R^2 is the power of two that pow() is called for. */
  lemma RadixSquared(k: nat)
    ensures Pow(2, 32 * k + 32 * k) == Pow(0x1_0000_0000, k) * Pow(0x1_0000_0000, k)
  {
    WordPower(k);
    PowAdd(2, 32 * k, 32 * k);
  }

  /** So the words of rr denote R^2 modulo the modulus, for R = 2^32 to the number of words. */
  lemma RrIsRadixSquared(p: Params, modulus: seq<byte>)
    requires |modulus| > 4 && (|modulus| - 1) % 4 == 0 && Number(modulus) > 0
    requires AreParamsOf(p, modulus, RSquared(modulus))
    ensures var R := Pow(0x1_0000_0000, p.len); LimbSum(p.rr) == (R * R) % Number(modulus)
  {
    RadixSquared(p.len);
    assert 16 * (|modulus| - 1) == 32 * p.len + 32 * p.len;
  }

  /** The loop that accumulates N. */
  method ReadNumber(modulus: seq<byte>) returns (n: nat)
    ensures n == Number(modulus)
  {
    n := 0;
    for i := 0 to |modulus|
      invariant n == Number(modulus[..i])
    {
      n := n * 256 + modulus[i];
      assert modulus[..i + 1][..i] == modulus[..i];
    }
    assert modulus[..|modulus|] == modulus;
  }

  /** pow(2, modSize * 2, N). */
  method SquareOfR(modulus: seq<byte>, n: nat, modSize: nat) returns (square: nat)
    requires |modulus| > 0 && n == Number(modulus) > 0 && modSize == 8 * (|modulus| - 1)
    ensures square == RSquared(modulus) < n
  {
    square := Pow(2, modSize * 2) % n;
  }

  /** How compute_mod_parameters ends. */
  predicate Computable(modulus: seq<byte>) {
    && |modulus| > 4 && Number(modulus) % 2 == 1 && IsKeySize((|modulus| - 1) * 8)
    && RSquared(modulus) < Pow(16, 8 * ((|modulus| - 1) / 4))
  }

  /** The exception otherwise, in the order of the checks. */
  function Refusal(modulus: seq<byte>): KeyError {
    if |modulus| > 0 && (|modulus| - 1) % 4 != 0 then BadArray
    else if |modulus| <= 1 then NoWord
    else if Number(modulus) % 2 == 0 then EvenModulus
    else if !IsKeySize((|modulus| - 1) * 8) then KeySize
    else BadArray
  }

  /**
   compute_mod_parameters. It succeeds exactly for an odd modulus of a key size whose R^2 modulo itself fits
   its words. Then the limbs denote the modulus, rr denotes R^2 modulo the modulus in exactly len words, and
   n0inv is -1/N modulo 2^32. With a zero sign byte R^2 always fits.
   */
  method ComputeModParameters(modulus: seq<byte>) returns (r: Result<Params, KeyError>)
    ensures r.Success? <==> Computable(modulus)
    ensures r.Success? ==> AreParamsOf(r.value, modulus, RSquared(modulus))
    ensures r.Failure? ==> r.error == Refusal(modulus)
    ensures |modulus| > 4 && Number(modulus) % 2 == 1 && IsKeySize((|modulus| - 1) * 8) && modulus[0] == 0 ==>
      r.Success?
  {
    if |modulus| > 0 && (|modulus| - 1) % 4 != 0 { return Failure(BadArray); }
    var body := if |modulus| == 0 then [] else modulus[1..];
    var w := LoadLimbs(body);
    var n := ReadNumber(modulus);
    if w.Length == 0 { return Failure(NoWord); }
    LimbDecides(modulus);
    var inverse := ModInv(w[0].Value(), 0x1_0000_0000);
    if inverse == NotInvertible { return Failure(EvenModulus); }
    var modSize := (|modulus| - 1) * 8;
    if !IsKeySize(modSize) { return Failure(KeySize); }
    var square := SquareOfR(modulus, n, modSize);
    var rr := ToWords(square, w.Length);
    RrDenotes(modulus, square, w.Length);
    if rr == None { return Failure(BadArray); }
    var p := Params(w.Length, w[..], rr.value, 0x1_0000_0000 - inverse.b);
    LimbInverse(modulus, inverse.b, p.n0inv);
    r := Success(p);
  }

  /** The modulus has at most one byte more than its limbs, and with a zero sign byte it fits them. */
  lemma {:induction false} ModulusFits(modulus: seq<byte>, k: nat)
    requires k > 0 && |modulus| == 4 * k + 1
    ensures Number(modulus) < Pow(16, 8 * k + 2)
    ensures modulus[0] == 0 ==> Number(modulus) == Number(modulus[1..]) < Pow(16, 8 * k)
  {
    var body := modulus[1..];
    assert modulus == [modulus[0]] + body;
    NumberCons(modulus[0], body);
    NumberBound(body);
    NumberBound(modulus);
    WordPower(k);
    OneByte(k);
  }

  lemma OneByte(k: nat)
    requires Pow(16, 8 * k) == Pow(256, 4 * k)
    ensures Pow(256, 4 * k + 1) == Pow(16, 8 * k + 2)
  {
    assert Pow(16, 8 * k + 2) == 16 * Pow(16, 8 * k + 1) == 16 * (16 * Pow(16, 8 * k));
    assert Pow(256, 4 * k + 1) == 256 * Pow(256, 4 * k);
  }

  /** The words of a remainder: there are k of them if it has at most 32 * k bits, and none otherwise. */
  lemma RrDenotes(modulus: seq<byte>, rr: nat, k: nat)
    requires k > 0 && |modulus| == 4 * k + 1 && rr < Number(modulus)
    ensures ToWords(rr, k).Some? <==> rr < Pow(16, 8 * k)
    ensures ToWords(rr, k).Some? ==> LimbSum(ToWords(rr, k).value) == rr && |ToWords(rr, k).value| == k
    ensures modulus[0] == 0 ==> rr < Pow(16, 8 * k) && Number(modulus) == Number(modulus[1..])
  {
    ModulusFits(modulus, k);
    ToWordsUndone(rr, k);
    ToWordsCount(rr, k);
    if rr >= Pow(16, 8 * k) { ToWordsFails(rr, k); }
  }

  lemma AcceptedShape(der: seq<byte>, modulus: seq<byte>)
    requires ModulusOf(der) == Success(modulus)
    ensures IsKeySize((|modulus| - 1) * 8) && |modulus| > 4 && (|modulus| - 1) % 4 == 0 && modulus[0] == 0
  {
    AcceptedSize(ElementAt(der, 0).value.0.data, modulus);
  }

  /** extract_pubkey up to printing: an accepted key fails only when its modulus is even. */
  method ExtractPubkey(der: seq<byte>)
    returns (modulus: Result<seq<byte>, Error>, params: Option<Result<Params, KeyError>>)
    ensures modulus == ModulusOf(der) && (modulus.Failure? <==> params.None?)
    ensures params.Some? && Number(modulus.value) % 2 == 0 ==> params.value == Failure(EvenModulus)
    ensures params.Some? && Number(modulus.value) % 2 == 1 ==>
      && params.value.Success? && |modulus.value| > 4
      && AreParamsOf(params.value.value, modulus.value, RSquared(modulus.value))
  {
    modulus := PemGetMod(der);
    if modulus.Failure? { return modulus, None; }
    AcceptedShape(der, modulus.value);
    var p := ComputeModParameters(modulus.value);
    params := Some(p);
  }
}

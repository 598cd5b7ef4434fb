/** Bytes, C strings and four-byte integers as the two programs lay them out in memory. */
module Bytes {

  newtype Byte = x: int | 0 <= x < 256

  /** A std::string: any bytes, including NUL. */
  type Text = seq<Byte>

  const NUL: Byte := 0

  /** What std::string(const char *) keeps of a buffer: everything before the first NUL. */
  function CutAtNul(s: Text): (r: Text)
    ensures r <= s
    ensures NUL !in r
    ensures |r| < |s| ==> s[|r|] == NUL
  {
    if s == [] || s[0] == NUL then []
    else
      var rest := CutAtNul(s[1..]);
      [s[0]] + rest
  }

  /** The cut is the only NUL-free prefix that is followed by a NUL or by nothing. */
  lemma {:induction false} CutAtNulUnique(s: Text, r: Text)
    requires r <= s
    requires NUL !in r
    requires |r| < |s| ==> s[|r|] == NUL
    ensures r == CutAtNul(s)
  {
    var c := CutAtNul(s);
    assert forall i | 0 <= i < |r| :: r[i] == s[i];
    assert forall i | 0 <= i < |c| :: c[i] == s[i];
    assert |r| == |c|;
  }

  const TWO_31 := 0x8000_0000

  /** The bytes of a non-negative int on a little-endian host. */
  function EncodeInt(n: nat): (r: Text)
    requires n < TWO_31
    ensures |r| == 4
  {
    [(n % 256) as Byte, (n / 256 % 256) as Byte, (n / 65536 % 256) as Byte, (n / 16777216) as Byte]
  }

  /** The number read from up to four bytes copied over an int that held zero. */
  function LowBytes(s: Text): (r: nat)
    requires |s| <= 4
    ensures s == [] ==> r == 0
    ensures |s| == 1 ==> r < 256
    ensures |s| == 2 ==> r < 65536
    ensures |s| == 3 ==> r < 16777216
    ensures r < 2 * TWO_31
  {
    (if |s| > 0 then s[0] as nat else 0)
    + (if |s| > 1 then s[1] as nat * 256 else 0)
    + (if |s| > 2 then s[2] as nat * 65536 else 0)
    + (if |s| > 3 then s[3] as nat * 16777216 else 0)
  }

  /** Two's complement reading of the same four bytes. */
  function SignedInt(n: nat): (r: int)
    requires n < 2 * TWO_31
    ensures -TWO_31 <= r < TWO_31
    ensures n < TWO_31 <==> r >= 0
    ensures (r - n) % (2 * TWO_31) == 0
  {
    if n < TWO_31 then n else n - 2 * TWO_31
  }

  /** 256 to the power w. */
  function Window(w: nat): (r: nat)
    requires 1 <= w <= 4
    ensures r > 0
  {
    if w == 1 then 256 else if w == 2 then 65536 else if w == 3 then 16777216 else 2 * TWO_31
  }

  /** The first w of four bytes show the number modulo 256^w. */
  lemma PrefixOfInt(b: Text, w: nat)
    requires |b| == 4
    requires 1 <= w <= 4
    ensures LowBytes(b[..w]) == LowBytes(b) % Window(w)
  {
    var low := LowBytes(b[..w]);
    var high: nat :=
      if w == 1 then b[1] as nat + 256 * b[2] as nat + 65536 * b[3] as nat
      else if w == 2 then b[2] as nat + 256 * b[3] as nat
      else if w == 3 then b[3] as nat
      else 0;
    assert LowBytes(b) == low + Window(w) * high && low < Window(w);
    RemainderOf(low, high, Window(w));
  }

  lemma RemainderOf(low: nat, high: nat, w: nat)
    requires low < w
    ensures (low + w * high) % w == low
  {
    var n := low + w * high;
    var q := n / w;
    assert n == w * q + n % w;
    Apart(w, high, q);
    Apart(w, q, high);
  }

  lemma Apart(w: nat, a: nat, b: nat)
    ensures a < b ==> w * a + w <= w * b
  {
    if a < b {
      var k := b - a - 1;
      assert w * b == w * a + w * k + w by {
        assert b == a + k + 1;
      }
      assert w * k >= 0;
    }
  }

  /** The four bytes of a length, the low one first, give the length back. */
  lemma IntRoundTrip(n: nat)
    requires n < TWO_31
    ensures
      var b := EncodeInt(n);
      n == b[0] as nat + 256 * b[1] as nat + 65536 * b[2] as nat + 16777216 * b[3] as nat
    ensures LowBytes(EncodeInt(n)) == n
    ensures SignedInt(LowBytes(EncodeInt(n))) == n
  {
    var n1, n2, n3 := n / 256, n / 65536, n / 16777216;
    assert n1 == n1 % 256 + 256 * n2 by { assert n2 == n1 / 256; }
    assert n2 == n2 % 256 + 256 * n3 by { assert n3 == n2 / 256; }
  }
}

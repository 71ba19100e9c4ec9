/** File names, paths and the zero-padded decimal index that the batcher
    writes into every output file name. */
module Text {

  /** Where the last component of `p[..n]` starts: just past its last
      '/', or 0 when it holds none. */
  function NameStart(p: string, n: nat): (k: nat)
    requires n <= |p|
    ensures k <= n && (k > 0 ==> p[k - 1] == '/')
    ensures forall j :: k <= j < n ==> p[j] != '/'
  {
    if n == 0 then 0 else if p[n - 1] == '/' then n else NameStart(p, n - 1)
  }

  /** `os.path.basename` with '/' as the separator: the text after the
      last '/', or the whole path when it holds none. */
  function Basename(p: string): string {
    p[NameStart(p, |p|)..]
  }

  /** The basename is the suffix of the path that holds no '/' and is
      either the whole path or preceded by a '/'. */
  lemma BasenameIsLastComponent(p: string)
    ensures var b := Basename(p);
      |b| <= |p| && b == p[|p| - |b|..] && '/' !in b &&
      (|b| < |p| ==> p[|p| - |b| - 1] == '/')
  {
    var k := NameStart(p, |p|);
    assert forall j :: 0 <= j < |p| - k ==> p[k..][j] == p[k + j];
  }

  /** `Path(dir) / name` rendered as a string. */
  function Join(dir: string, name: string): (p: string)
    ensures |p| == |dir| + 1 + |name| && p[..|dir|] == dir && p[|dir|] == '/'
    ensures p[|dir| + 1..] == name
  {
    dir + "/" + name
  }

  predicate IsDigit(c: char) {
    '0' <= c <= '9'
  }

  function DigitChar(d: nat): (c: char)
    requires d < 10
    ensures IsDigit(c) && DigitValue(c) == d
  {
    ('0' as int + d) as char
  }

  function DigitValue(c: char): nat {
    if IsDigit(c) then c as int - '0' as int else 0
  }

  /** Decimal digits of `n`, most significant first, no leading zero. */
  function Decimal(n: nat): (s: string)
    ensures 1 <= |s|
    ensures forall i :: 0 <= i < |s| ==> IsDigit(s[i])
    ensures 1 < |s| ==> s[0] != '0'
  {
    if n < 10 then [DigitChar(n)] else Decimal(n / 10) + [DigitChar(n % 10)]
  }

  /** Reads a run of decimal digits back as a number. */
  function ParseDecimal(s: string): nat {
    if s == [] then 0 else ParseDecimal(s[..|s| - 1]) * 10 + DigitValue(s[|s| - 1])
  }

  function Zeros(k: nat): (z: string)
    ensures |z| == k && forall i :: 0 <= i < k ==> z[i] == '0'
  {
    if k == 0 then [] else Zeros(k - 1) + ['0']
  }

  /** Python's `f"{n:04d}"`: the decimal digits of `n`, left-padded with
      '0' to at least four characters. */
  function Pad4(n: nat): (s: string)
    ensures 4 <= |s|
    ensures forall i :: 0 <= i < |s| ==> IsDigit(s[i])
  {
    var d := Decimal(n);
    if |d| >= 4 then d else Zeros(4 - |d|) + d
  }

  lemma {:induction false} DecimalRoundTrip(n: nat)
    ensures ParseDecimal(Decimal(n)) == n
  {
    if n >= 10 {
      var s := Decimal(n);
      assert s[..|s| - 1] == Decimal(n / 10);
      DecimalRoundTrip(n / 10);
    }
  }

  lemma {:induction false} ParseZeros(k: nat)
    ensures ParseDecimal(Zeros(k)) == 0
  {
    if k > 0 {
      assert Zeros(k)[..k - 1] == Zeros(k - 1);
      ParseZeros(k - 1);
    }
  }

  lemma {:induction false} ParseLeadingZeros(k: nat, s: string)
    ensures ParseDecimal(Zeros(k) + s) == ParseDecimal(s)
    decreases |s|
  {
    if s == [] {
      assert Zeros(k) + s == Zeros(k);
      ParseZeros(k);
    } else {
      var t := Zeros(k) + s;
      assert t[..|t| - 1] == Zeros(k) + s[..|s| - 1];
      ParseLeadingZeros(k, s[..|s| - 1]);
    }
  }

  /** The padded index reads back as the index it was made from. */
  lemma Pad4RoundTrip(n: nat)
    ensures ParseDecimal(Pad4(n)) == n
  {
    var d := Decimal(n);
    DecimalRoundTrip(n);
    if |d| < 4 {
      ParseLeadingZeros(4 - |d|, d);
    }
  }
}

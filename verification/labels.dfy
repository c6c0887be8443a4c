/**
 * The spot number given to each provisioned spot (app.py:209):
 * the first three characters of the lot name, upper-cased, a hyphen, and the
 * ordinal written in decimal and zero-padded to at least three digits, as in
 * "MAL-001".
 */
module Labels {

  /** Upper-casing of one character; only the ASCII letters a-z change. */
  function UpperChar(c: char): char
  {
    if 'a' <= c <= 'z' then (c as int - 32) as char else c
  }

  /** Upper-casing of a string, character by character. */
  function Upper(s: string): (u: string)
    ensures |u| == |s|
    ensures forall i :: 0 <= i < |s| ==> u[i] == UpperChar(s[i])
  {
    if s == [] then [] else [UpperChar(s[0])] + Upper(s[1..])
  }

  /** The first three characters of the name, or the whole name when it is shorter. */
  function Prefix3(name: string): (p: string)
    ensures |p| == (if |name| < 3 then |name| else 3)
    ensures p == name[..|p|]
  {
    if |name| <= 3 then name else name[..3]
  }

  function DigitChar(d: nat): char
    requires d < 10
  {
    ('0' as int + d) as char
  }

  /** The value of a decimal digit character (0 for any other character). */
  function DigitValue(c: char): nat
  {
    if '0' <= c <= '9' then c as int - '0' as int else 0
  }

  /** The decimal numeral of `n`, without leading zeros. */
  function Digits(n: nat): (s: string)
    ensures 1 <= |s|
    ensures forall i :: 0 <= i < |s| ==> '0' <= s[i] <= '9'
    ensures n >= 1 ==> s[0] != '0'
    ensures n < 10 ==> |s| == 1
    ensures n < 100 ==> |s| <= 2
    ensures n < 1000 ==> |s| <= 3
  {
    if n < 10 then [DigitChar(n)] else Digits(n / 10) + [DigitChar(n % 10)]
  }

  function Zeros(k: nat): (z: string)
    ensures |z| == k && forall i :: 0 <= i < k ==> z[i] == '0'
  {
    if k == 0 then [] else Zeros(k - 1) + ['0']
  }

  /** The numeral of `n` with leading zeros up to width three, as the spot number is formatted. */
  function ZeroPad3(n: nat): (s: string)
    ensures |s| >= 3
    ensures n < 1000 ==> |s| == 3
    ensures |s| > 3 ==> s[0] != '0'
    ensures forall i :: 0 <= i < |s| ==> '0' <= s[i] <= '9'
  {
    var d := Digits(n);
    if |d| < 3 then Zeros(3 - |d|) + d else d
  }

  /** The spot number of the `n`-th spot of a lot called `name`. */
  function SpotLabel(name: string, n: nat): string
  {
    Upper(Prefix3(name)) + "-" + ZeroPad3(n)
  }

  /** Reads a string of decimal digits back as a number. */
  function ParseDecimal(s: string): nat
  {
    if s == [] then 0 else ParseDecimal(s[..|s| - 1]) * 10 + DigitValue(s[|s| - 1])
  }

  lemma {:induction false} ParseDigits(n: nat)
    ensures ParseDecimal(Digits(n)) == n
  {
    if n >= 10 {
      var d := Digits(n);
      assert d[..|d| - 1] == Digits(n / 10);
      ParseDigits(n / 10);
    }
  }

  lemma {:induction false} ParseZeros(k: nat)
    ensures ParseDecimal(Zeros(k)) == 0
  {
    if k > 0 {
      assert Zeros(k)[..k - 1] == Zeros(k - 1);
      ParseZeros(k - 1);
    }
  }

  /** Leading zeros do not change the value of a numeral. */
  lemma {:induction false} ParseLeadingZeros(k: nat, s: string)
    ensures ParseDecimal(Zeros(k) + s) == ParseDecimal(s)
  {
    if s == [] {
      assert Zeros(k) + s == Zeros(k);
      ParseZeros(k);
    } else {
      var t := Zeros(k) + s;
      assert t[..|t| - 1] == Zeros(k) + s[..|s| - 1];
      assert t[|t| - 1] == s[|s| - 1];
      ParseLeadingZeros(k, s[..|s| - 1]);
    }
  }

  /** The padded numeral reads back as the ordinal it was written from. */
  lemma ParseZeroPad3(n: nat)
    ensures ParseDecimal(ZeroPad3(n)) == n
  {
    var d := Digits(n);
    ParseDigits(n);
    if |d| < 3 {
      ParseLeadingZeros(3 - |d|, d);
    }
  }

  /**
   * A spot number splits into the upper-cased name prefix, the hyphen and the
   * padded ordinal, and the ordinal can be read back from it.
   */
  lemma SpotLabelRoundTrip(name: string, n: nat)
    ensures var p := |Prefix3(name)|;
      var l := SpotLabel(name, n);
      |l| > p && l[..p] == Upper(Prefix3(name)) && l[p] == '-' &&
      l[p + 1..] == ZeroPad3(n) && ParseDecimal(l[p + 1..]) == n
  {
    var p := |Prefix3(name)|;
    var l := SpotLabel(name, n);
    assert l[..p] == Upper(Prefix3(name));
    assert l[p + 1..] == ZeroPad3(n);
    ParseZeroPad3(n);
  }

  /** Within one lot, distinct ordinals give distinct spot numbers. */
  lemma SpotLabelInjective(name: string, i: nat, j: nat)
    requires i != j
    ensures SpotLabel(name, i) != SpotLabel(name, j)
  {
    SpotLabelRoundTrip(name, i);
    SpotLabelRoundTrip(name, j);
  }

  /** A lot called "Mall" numbers its first two spots "MAL-001" and "MAL-002". */
  lemma MallSpotNumbers()
    ensures SpotLabel("Mall", 1) == "MAL-001"
    ensures SpotLabel("Mall", 2) == "MAL-002"
  {
    assert Prefix3("Mall") == "Mal";
    assert Upper("Mal") == "MAL";
    assert Digits(1) == "1" && Digits(2) == "2";
    assert Zeros(2) == "00";
  }
}

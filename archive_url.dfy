/**
 * The archive file name for one hour:
 * `fmt.Sprintf("http://data.githubarchive.org/%d-%02d-%02d-%d.json.gz", year, month, day, hour)`.
 * Month and day are zero-padded to two digits; year and hour are plain
 * decimals. A parser for that shape is the builder's partner: every
 * calendar hour round-trips through it, so distinct hours get distinct URLs.
 */
module ArchiveUrl {
  import opened Wrappers
  import opened Clock

  const Prefix: string := "http://data.githubarchive.org/"
  const Suffix: string := ".json.gz"

  predicate IsDigit(c: char) {
    '0' <= c <= '9'
  }

  predicate AllDigits(s: string) {
    forall i :: 0 <= i < |s| ==> IsDigit(s[i])
  }

  function DigitChar(d: nat): (c: char)
    requires d < 10
    ensures IsDigit(c) && (c as int) - ('0' as int) == d
  {
    (('0' as int) + d) as char
  }

  /** The decimal digits of a natural number, without leading zeros. */
  function NatDigits(n: nat): (s: string)
    ensures 1 <= |s| && AllDigits(s)
    ensures '-' !in s
    ensures n < 10 <==> |s| == 1
    ensures |s| > 1 ==> s[0] != '0'
    decreases n
  {
    if n < 10 then [DigitChar(n)] else NatDigits(n / 10) + [DigitChar(n % 10)]
  }

  /** `%d`: a minus sign for negative numbers, then the digits. */
  function Decimal(i: int): string {
    if i < 0 then "-" + NatDigits(-i) else NatDigits(i)
  }

  /** `%02d`: zero-padded to a width of two characters. */
  function Pad2(i: int): (s: string)
    ensures 0 <= i < 100 ==> |s| == 2 && AllDigits(s)
  {
    if 0 <= i < 10 then ['0', DigitChar(i)] else Decimal(i)
  }

  /** The URL of the archive file for one calendar hour. */
  function Url(c: CivilHour): string {
    Prefix + Stem(c) + Suffix
  }

  /** `Y-MM-DD-H`, the part between the fixed prefix and suffix. */
  function Stem(c: CivilHour): string {
    Decimal(c.year) + "-" + (Pad2(c.month) + "-" + (Pad2(c.day) + "-" + Decimal(c.hour)))
  }

  /** The URL fetched for the hour starting at `date`. */
  function UrlOf(date: Time): string {
    Url(Civil(date))
  }

  /** The value of a string of decimal digits (leading zeros allowed). */
  function DigitsValue(s: string): (n: nat)
    requires AllDigits(s)
    decreases |s|
  {
    if s == [] then 0 else DigitsValue(s[..|s| - 1]) * 10 + ((s[|s| - 1] as int) - ('0' as int))
  }

  /** The index of the first c in s, or |s| when there is none. */
  function IndexOf(s: string, c: char): (k: nat)
    ensures k <= |s|
    ensures k < |s| ==> s[k] == c
    ensures forall j :: 0 <= j < k ==> s[j] != c
    decreases |s|
  {
    if s == [] then 0 else if s[0] == c then 0 else 1 + IndexOf(s[1..], c)
  }

  /** The pieces of s between dashes. */
  function SplitDashes(s: string): (parts: seq<string>)
    ensures |parts| >= 1
    ensures forall i :: 0 <= i < |parts| ==> '-' !in parts[i]
    decreases |s|
  {
    var k := IndexOf(s, '-');
    if k == |s| then [s] else [s[..k]] + SplitDashes(s[k + 1..])
  }

  /**
   * Reads a URL of the archive shape back into the calendar hour it names;
   * None for anything else.
   */
  function ParseUrl(u: string): Option<CivilHour> {
    if |u| < |Prefix| + |Suffix| || u[..|Prefix|] != Prefix || u[|u| - |Suffix|..] != Suffix then None
    else ParseStem(u[|Prefix|..|u| - |Suffix|])
  }

  /** Reads `Y-MM-DD-H`, with MM and DD exactly two digits. */
  function ParseStem(stem: string): Option<CivilHour> {
    var parts := SplitDashes(stem);
    if |parts| != 4 || |parts[1]| != 2 || |parts[2]| != 2 then None
    else if !(AllDigits(parts[0]) && AllDigits(parts[1]) && AllDigits(parts[2]) && AllDigits(parts[3])) then None
    else Some(CivilHour(DigitsValue(parts[0]), DigitsValue(parts[1]), DigitsValue(parts[2]), DigitsValue(parts[3])))
  }

  lemma {:induction false} NatDigitsValue(n: nat)
    ensures DigitsValue(NatDigits(n)) == n
    decreases n
  {
    if n >= 10 {
      var s := NatDigits(n);
      assert s[..|s| - 1] == NatDigits(n / 10);
      NatDigitsValue(n / 10);
    }
  }

  lemma {:induction false} Pad2Value(i: int)
    requires 0 <= i < 100
    ensures AllDigits(Pad2(i)) && DigitsValue(Pad2(i)) == i
  {
    if i < 10 {
      var s := Pad2(i);
      assert s[..1] == ['0'];
      assert DigitsValue(s[..1]) == 0;
    } else {
      NatDigitsValue(i);
    }
  }

  lemma {:induction false} SplitDashesCons(a: string, b: string)
    requires '-' !in a
    ensures SplitDashes(a + "-" + b) == [a] + SplitDashes(b)
  {
    var s := a + "-" + b;
    var k := IndexOf(s, '-');
    assert s[|a|] == '-';
    assert k == |a|;
    assert s[..k] == a;
    assert s[k + 1..] == b;
  }

  lemma {:induction false} SplitDashesSingle(a: string)
    requires '-' !in a
    ensures SplitDashes(a) == [a]
  {
    assert IndexOf(a, '-') == |a|;
  }

  lemma {:induction false} StripAffixes(stem: string)
    ensures ParseUrl(Prefix + stem + Suffix) == ParseStem(stem)
  {
    var u := Prefix + stem + Suffix;
    assert u[..|Prefix|] == Prefix;
    assert u[|u| - |Suffix|..] == Suffix;
    assert u[|Prefix|..|u| - |Suffix|] == stem;
  }

  lemma {:induction false} SplitThree(m: string, d: string, h: string)
    requires '-' !in m && '-' !in d && '-' !in h
    ensures SplitDashes(m + "-" + (d + "-" + h)) == [m, d, h]
  {
    SplitDashesSingle(h);
    SplitDashesCons(d, h);
    SplitDashesCons(m, d + "-" + h);
  }

  lemma {:induction false} SplitFour(y: string, m: string, d: string, h: string)
    requires '-' !in y && '-' !in m && '-' !in d && '-' !in h
    ensures SplitDashes(y + "-" + (m + "-" + (d + "-" + h))) == [y, m, d, h]
  {
    SplitThree(m, d, h);
    SplitDashesCons(y, m + "-" + (d + "-" + h));
  }

  lemma {:induction false} StemRoundTrip(c: CivilHour)
    requires 0 <= c.year && 0 <= c.month < 100 && 0 <= c.day < 100 && 0 <= c.hour
    ensures ParseStem(Stem(c)) == Some(c)
  {
    var y, m, d, h := NatDigits(c.year), Pad2(c.month), Pad2(c.day), NatDigits(c.hour);
    Pad2Value(c.month);
    Pad2Value(c.day);
    NatDigitsValue(c.year);
    NatDigitsValue(c.hour);
    assert '-' !in m && '-' !in d by {
      assert AllDigits(m) && AllDigits(d);
    }
    SplitFour(y, m, d, h);
  }

  /** Every calendar hour with a non-negative year round-trips through its URL. */
  lemma {:induction false} UrlRoundTrip(c: CivilHour)
    requires 0 <= c.year && 0 <= c.month < 100 && 0 <= c.day < 100 && 0 <= c.hour
    ensures ParseUrl(Url(c)) == Some(c)
  {
    StripAffixes(Stem(c));
    StemRoundTrip(c);
  }

  /** Distinct hours of the calendar are fetched from distinct URLs. */
  lemma {:induction false} UrlInjective(c1: CivilHour, c2: CivilHour)
    requires 0 <= c1.year && 1 <= c1.month <= 12 && 1 <= c1.day <= 31 && 0 <= c1.hour < 24
    requires 0 <= c2.year && 1 <= c2.month <= 12 && 1 <= c2.day <= 31 && 0 <= c2.hour < 24
    requires Url(c1) == Url(c2)
    ensures c1 == c2
  {
    UrlRoundTrip(c1);
    UrlRoundTrip(c2);
  }

  lemma DecimalExample()
    ensures Decimal(2013) == "2013" && Decimal(5) == "5"
  {
    assert NatDigits(2013) == NatDigits(201) + ['3'];
    assert NatDigits(201) == NatDigits(20) + ['1'];
    assert NatDigits(20) == NatDigits(2) + ['0'];
  }

  /** Month and day are padded, the hour is not: hour 5 of 2013-01-02. */
  lemma UrlExample()
    ensures Url(CivilHour(2013, 1, 2, 5)) == "http://data.githubarchive.org/2013-01-02-5.json.gz"
  {
    DecimalExample();
    assert Pad2(1) == "01" && Pad2(2) == "02";
    assert Stem(CivilHour(2013, 1, 2, 5)) == "2013-01-02-5";
  }
}

/**
 * The time-text conversions and the file-name sanitizer of `utils/helpers.py`.
 * Durations are whole seconds; a segment of time text is an optional sign followed by
 * decimal digits.
 */
module Helpers {
  import opened Options
  import opened PyStr

  // ---------------------------------------------------------------- decimal digits

  predicate IsDigit(c: char) {
    '0' <= c <= '9'
  }

  predicate AllDigits(s: string) {
    forall i | 0 <= i < |s| :: IsDigit(s[i])
  }

  function DigitChar(d: nat): (c: char)
    requires d < 10
    ensures IsDigit(c)
  {
    ('0' as int + d) as char
  }

  function DigitValue(c: char): (d: nat)
    requires IsDigit(c)
    ensures d < 10 && DigitChar(d) == c
  {
    c as int - '0' as int
  }

  /** The value of a string of decimal digits, most significant first. */
  function DigitsValue(s: string): nat
    requires AllDigits(s)
  {
    if s == [] then 0 else DigitsValue(s[..|s| - 1]) * 10 + DigitValue(s[|s| - 1])
  }

  /** `str(n)`: at least one digit, no leading zero, and two or more digits exactly from 10 on. */
  function NatToDigits(n: nat): (r: string)
    ensures |r| >= 1 && AllDigits(r)
    ensures (r[0] == '0') == (n == 0)
    ensures (|r| >= 2) == (n >= 10)
    decreases n
  {
    if n < 10 then [DigitChar(n)] else NatToDigits(n / 10) + [DigitChar(n % 10)]
  }

  /** Reading back the digits of `n` gives `n`. */
  lemma {:induction false} DigitsRoundTrip(n: nat)
    ensures DigitsValue(NatToDigits(n)) == n
    decreases n
  {
    var r := NatToDigits(n);
    if n >= 10 {
      DigitsRoundTrip(n / 10);
      assert r[..|r| - 1] == NatToDigits(n / 10);
      assert DigitValue(r[|r| - 1]) == n % 10;
    }
  }

  /** `f"{n:02}"`: zero-padded to at least two digits, never truncated. */
  function Pad2(n: nat): (r: string)
    ensures |r| >= 2 && AllDigits(r)
    ensures n < 10 ==> r == ['0', DigitChar(n)]
    ensures n >= 10 ==> r == NatToDigits(n)
  {
    if n < 10 then "0" + NatToDigits(n) else NatToDigits(n)
  }

  /** Padding adds only a leading zero, which does not change the value read back. */
  lemma Pad2RoundTrip(n: nat)
    ensures DigitsValue(Pad2(n)) == n
  {
    DigitsRoundTrip(n);
    if n < 10 {
      var r := Pad2(n);
      assert r[..1] == "0";
      assert DigitsValue(r[..1]) == 0;
    }
  }

  // ---------------------------------------------------------------- seconds_to_hms

  datatype Hms = Hms(hours: nat, minutes: nat, seconds: nat)

  /** The hour, minute and second fields of a duration; hours are not capped. */
  function Decompose(total: nat): (t: Hms)
    ensures t.minutes < 60 && t.seconds < 60
    ensures t.hours * 3600 + t.minutes * 60 + t.seconds == total
  {
    DecomposeArith(total);
    Hms(total / 3600, (total % 3600) / 60, total % 60)
  }

  /** The seconds left over after whole hours, split into minutes, leave the seconds of the duration. */
  lemma DecomposeArith(total: nat)
    ensures (total / 3600) * 3600 + ((total % 3600) / 60) * 60 + total % 60 == total
  {
    var q, r := total / 3600, total % 3600;
    var q2, r2 := r / 60, r % 60;
    assert total == q * 3600 + r;
    assert r == q2 * 60 + r2 && 0 <= r2 < 60;
    var k := q * 60 + q2;
    assert total == k * 60 + r2;
    assert total == (total / 60) * 60 + total % 60 && 0 <= total % 60 < 60;
    assert (total / 60 - k) * 60 == r2 - total % 60;
    assert total / 60 == k;
  }

  /** `seconds_to_hms(seconds)`, `None` giving the zero time. */
  function SecondsToHms(seconds: Option<nat>): (r: string)
    ensures seconds.None? ==> r == "00:00:00"
    ensures |r| >= 8
  {
    match seconds
    case None => "00:00:00"
    case Some(s) =>
      var t := Decompose(s);
      Pad2(t.hours) + ":" + Pad2(t.minutes) + ":" + Pad2(t.seconds)
  }

  // ---------------------------------------------------------------- hms_to_seconds

  /** The digits after an optional leading sign. */
  function Unsigned(seg: string): string {
    if |seg| > 0 && (seg[0] == '+' || seg[0] == '-') then seg[1..] else seg
  }

  /** `int(seg)`: `None` where Python raises `ValueError`. */
  function ParseInt(seg: string): (r: Option<int>)
    ensures r.Some? <==> Unsigned(seg) != [] && AllDigits(Unsigned(seg))
    ensures r.Some? && seg[0] != '-' ==> r.value >= 0
    ensures r.Some? ==> r.value == if seg[0] == '-' then -(DigitsValue(Unsigned(seg)) as int) else DigitsValue(Unsigned(seg)) as int
  {
    var body := Unsigned(seg);
    if body == [] || !AllDigits(body) then None
    else
      var magnitude: int := DigitsValue(body);
      Some(if seg[0] == '-' then -magnitude else magnitude)
  }

  /** `list(map(int, parts))`: every part parsed, or `None` as soon as one part fails. */
  function ParseAll(parts: seq<string>): (r: Option<seq<int>>)
    ensures r.Some? ==> |r.value| == |parts| && forall i | 0 <= i < |parts| :: ParseInt(parts[i]) == Some(r.value[i])
    ensures r.None? ==> exists i | 0 <= i < |parts| :: ParseInt(parts[i]).None?
  {
    if parts == [] then Some([])
    else
      match ParseInt(parts[0])
      case None => None
      case Some(v) =>
        match ParseAll(parts[1..])
        case None => None
        case Some(vs) => Some([v] + vs)
  }

  /** `hms_to_seconds(text)`: 0 on a wrong segment count or an unparsable segment. */
  function HmsToSeconds(text: string): (r: int)
    ensures var p := Split(text, ':');
      |p| == 3 && (forall i | 0 <= i < 3 :: ParseInt(p[i]).Some?) ==>
        r == ParseInt(p[0]).value * 3600 + ParseInt(p[1]).value * 60 + ParseInt(p[2]).value
    ensures var p := Split(text, ':');
      |p| != 3 || (exists i | 0 <= i < |p| :: ParseInt(p[i]).None?) ==> r == 0
  {
    match ParseAll(Split(text, ':'))
    case None => 0
    case Some(vals) => if |vals| == 3 then vals[0] * 3600 + vals[1] * 60 + vals[2] else 0
  }

  /** Worked case: a padded time reads as its seconds. */
  lemma HmsToSecondsExample()
    ensures HmsToSeconds("01:01:01") == 3661
  {
    SecondsToHmsExample();
    HmsRoundTrip(3661);
  }

  /** Worked case: a text without colons is one segment, so it reads as 0. */
  lemma HmsToSecondsNoColon()
    ensures HmsToSeconds("bad") == 0
  {
    SplitNoSep("bad", ':');
  }

  /** Worked case: a text of two segments reads as 0. */
  lemma HmsToSecondsTwoFields()
    ensures HmsToSeconds("1:2") == 0
  {
    SplitNoSep("2", ':');
    assert "1:2" == "1" + [':'] + "2";
    SplitCons("1", ':', "2");
  }

  /** A padded field reads back as the number it prints. */
  lemma ParsePad2(n: nat)
    ensures ParseInt(Pad2(n)) == Some(n)
  {
    var r := Pad2(n);
    assert r[0] != '+' && r[0] != '-' by { assert IsDigit(r[0]); }
    assert Unsigned(r) == r;
    Pad2RoundTrip(n);
  }

  /** The printed form is three padded fields holding the decomposed duration. */
  lemma SecondsToHmsFields(s: nat)
    ensures var parts := Split(SecondsToHms(Some(s)), ':');
      var t := Decompose(s);
      && |parts| == 3
      && parts == [Pad2(t.hours), Pad2(t.minutes), Pad2(t.seconds)]
      && ParseInt(parts[0]) == Some(t.hours)
      && ParseInt(parts[1]) == Some(t.minutes)
      && ParseInt(parts[2]) == Some(t.seconds)
  {
    var t := Decompose(s);
    var a, b, c := Pad2(t.hours), Pad2(t.minutes), Pad2(t.seconds);
    assert ':' !in a by { assert forall i | 0 <= i < |a| :: IsDigit(a[i]); }
    assert ':' !in b by { assert forall i | 0 <= i < |b| :: IsDigit(b[i]); }
    assert ':' !in c by { assert forall i | 0 <= i < |c| :: IsDigit(c[i]); }
    assert SecondsToHms(Some(s)) == a + [':'] + b + [':'] + c;
    SplitThree(a, b, c, ':');
    ParsePad2(t.hours);
    ParsePad2(t.minutes);
    ParsePad2(t.seconds);
  }

  /** Reading back a printed duration gives the duration. */
  lemma HmsRoundTrip(s: nat)
    ensures HmsToSeconds(SecondsToHms(Some(s))) == s
  {
    SecondsToHmsFields(s);
  }

  /** One hour, one minute and one second print as `01:01:01`. */
  lemma SecondsToHmsExample()
    ensures SecondsToHms(Some(3661)) == "01:01:01"
  {
    assert Decompose(3661) == Hms(1, 1, 1);
    assert NatToDigits(1) == "1";
    assert Pad2(1) == "01";
  }

  // ---------------------------------------------------------------- sanitize_filename

  /** The characters `\ / * ? : " < > |`, reserved in file names. */
  predicate IsReserved(c: char) {
    c in "\\/*?:\"<>|"
  }

  predicate Clean(s: string) {
    forall i | 0 <= i < |s| :: !IsReserved(s[i])
  }

  /** `sanitize_filename(name)`: every reserved character deleted. */
  function SanitizeFilename(name: string): (r: string)
    ensures Clean(r)
    ensures |r| <= |name|
  {
    if name == [] then []
    else (if IsReserved(name[0]) then [] else [name[0]]) + SanitizeFilename(name[1..])
  }

  /** Sanitizing works character by character, keeping the order of what it keeps. */
  lemma {:induction false} SanitizeConcat(a: string, b: string)
    ensures SanitizeFilename(a + b) == SanitizeFilename(a) + SanitizeFilename(b)
    decreases |a|
  {
    if a != [] {
      assert (a + b)[1..] == a[1..] + b;
      SanitizeConcat(a[1..], b);
    } else {
      assert a + b == b;
    }
  }

  /** Every non-reserved character occurs as often as before; reserved ones not at all. */
  lemma {:induction false} SanitizeKeepsOthers(name: string, c: char)
    ensures multiset(SanitizeFilename(name))[c] == if IsReserved(c) then 0 else multiset(name)[c]
    decreases |name|
  {
    if name != [] {
      var rest := name[1..];
      SanitizeKeepsOthers(rest, c);
      assert name == [name[0]] + rest;
      if IsReserved(name[0]) {
        assert SanitizeFilename(name) == SanitizeFilename(rest);
      } else {
        assert SanitizeFilename(name) == [name[0]] + SanitizeFilename(rest);
      }
    }
  }

  /** A name is left unchanged exactly when it holds no reserved character. */
  lemma {:induction false} SanitizeFixedPoint(name: string)
    ensures SanitizeFilename(name) == name <==> Clean(name)
    decreases |name|
  {
    if name != [] {
      SanitizeFixedPoint(name[1..]);
      if IsReserved(name[0]) {
        assert |SanitizeFilename(name)| <= |name[1..]| < |name|;
      } else if Clean(name) {
        assert Clean(name[1..]) by { assert forall i | 0 <= i < |name[1..]| :: name[1..][i] == name[i + 1]; }
        assert [name[0]] + name[1..] == name;
      }
    }
  }

  /** Sanitizing twice is sanitizing once. */
  lemma SanitizeIdempotent(name: string)
    ensures SanitizeFilename(SanitizeFilename(name)) == SanitizeFilename(name)
  {
    SanitizeFixedPoint(SanitizeFilename(name));
  }
}

/** The text of a confirmation record, and a parser that undoes it. The program only ever compares
    record texts; the parser exists to show that comparing texts is comparing numbers. */
module RecordText {
  import opened Prelude

  // Decimal numbers

  predicate IsDigit(c: char) { '0' <= c <= '9' }

  function DigitChar(d: nat): char
    requires d < 10
  {
    '0' + d as char
  }

  function DigitValue(c: char): nat
    requires IsDigit(c)
  {
    c as int - '0' as int
  }

  /** The decimal rendering of a number, without leading zeros. */
  function Decimal(n: nat): (s: string)
    ensures |s| > 0 && forall i | 0 <= i < |s| :: IsDigit(s[i])
    ensures s[0] == '0' <==> n == 0
  {
    if n < 10 then [DigitChar(n)] else Decimal(n / 10) + [DigitChar(n % 10)]
  }

  function DecimalValue(s: string): nat
    requires forall i | 0 <= i < |s| :: IsDigit(s[i])
  {
    if s == [] then 0 else 10 * DecimalValue(s[..|s| - 1]) + DigitValue(s[|s| - 1])
  }

  predicate IsCanonical(s: string) {
    && |s| > 0
    && (forall i | 0 <= i < |s| :: IsDigit(s[i]))
    && (s[0] == '0' ==> |s| == 1)
  }

  lemma {:induction false} DecimalIsCanonical(n: nat)
    ensures IsCanonical(Decimal(n)) && DecimalValue(Decimal(n)) == n
  {
    if n >= 10 {
      DecimalIsCanonical(n / 10);
      var s := Decimal(n);
      assert s[..|s| - 1] == Decimal(n / 10);
    }
  }

  lemma {:induction false} CanonicalIsDecimal(s: string)
    requires IsCanonical(s)
    ensures Decimal(DecimalValue(s)) == s
  {
    var front, last := s[..|s| - 1], s[|s| - 1];
    assert s == front + [last];
    if |s| > 1 {
      CanonicalIsDecimal(front);
      LeadingDigit(front);
      SplitsOff(DecimalValue(front), DigitValue(last));
    }
  }

  lemma SplitsOff(n: nat, d: nat)
    requires d < 10
    ensures (10 * n + d) / 10 == n && (10 * n + d) % 10 == d
  {
  }

  lemma LeadingDigit(s: string)
    requires IsCanonical(s) && s[0] != '0'
    ensures DecimalValue(s) > 0
  {
  }

  // Records

  const ACTIVATION_KEY := "activation_height="
  const CONFIRMATION_KEY := "confirmation_height="
  const VERSION_KEY := "minimum_protocol_version="

  datatype Fields = Fields(activationHeight: nat, confirmationHeight: nat, minimumVersion: nat)

  function Line(key: string, n: nat): string { key + Decimal(n) + "\n" }

  function Render(f: Fields): string {
    Line(ACTIVATION_KEY, f.activationHeight)
    + Line(CONFIRMATION_KEY, f.confirmationHeight)
    + Line(VERSION_KEY, f.minimumVersion)
  }

  /** The text is three lines, each a key and its number. */
  ghost predicate HoldsLines(text: string, activation: nat, confirmation: nat, version: nat) {
    text == ("activation_height=" + Decimal(activation) + "\n")
            + ("confirmation_height=" + Decimal(confirmation) + "\n")
            + ("minimum_protocol_version=" + Decimal(version) + "\n")
  }

  lemma RenderHoldsLines(activation: nat, confirmation: nat, version: nat, text: string)
    ensures HoldsLines(text, activation, confirmation, version) <==>
            text == Render(Fields(activation, confirmation, version))
  {
  }

  /** The length of the longest run of digits at the start of `s`. */
  function DigitRun(s: string): (n: nat)
    ensures n <= |s| && forall i | 0 <= i < n :: IsDigit(s[i])
    ensures n < |s| ==> !IsDigit(s[n])
  {
    if s == [] || !IsDigit(s[0]) then 0 else 1 + DigitRun(s[1..])
  }

  /** Read one line: the key, a canonical number and a line feed. */
  function ParseLine(key: string, s: string): (r: Option<(nat, string)>)
    ensures r.Some? ==> s == Line(key, r.value.0) + r.value.1
  {
    if !(key <= s) then None
    else
      var afterKey := s[|key|..];
      var n := DigitRun(afterKey);
      var digits := afterKey[..n];
      if !IsCanonical(digits) || n == |afterKey| || afterKey[n] != '\n' then None
      else
        CanonicalIsDecimal(digits);
        assert s == key + digits + "\n" + afterKey[n + 1..];
        Some((DecimalValue(digits), afterKey[n + 1..]))
  }

  lemma Rejoin(l1: string, l2: string, l3: string, s: string, s1: string, s2: string)
    requires s == l1 + s1 && s1 == l2 + s2 && s2 == l3 + []
    ensures s == l1 + l2 + l3
  {
  }

  function Parse(s: string): (r: Option<Fields>)
    ensures r.Some? ==> s == Render(r.value)
  {
    match ParseLine(ACTIVATION_KEY, s)
    case None => None
    case Some((a, s1)) =>
      match ParseLine(CONFIRMATION_KEY, s1)
      case None => None
      case Some((c, s2)) =>
        match ParseLine(VERSION_KEY, s2)
        case None => None
        case Some((v, s3)) =>
          if s3 != [] then None
          else
            Rejoin(Line(ACTIVATION_KEY, a), Line(CONFIRMATION_KEY, c), Line(VERSION_KEY, v), s, s1, s2);
            Some(Fields(a, c, v))
  }

  lemma {:induction false} DigitRunStops(digits: string, rest: string)
    requires forall i | 0 <= i < |digits| :: IsDigit(digits[i])
    requires rest == [] || !IsDigit(rest[0])
    ensures DigitRun(digits + rest) == |digits|
  {
    if digits == [] {
      assert digits + rest == rest;
    } else {
      assert (digits + rest)[1..] == digits[1..] + rest;
      DigitRunStops(digits[1..], rest);
    }
  }

  lemma ParseLineReadsBack(key: string, n: nat, rest: string)
    ensures ParseLine(key, Line(key, n) + rest) == Some((n, rest))
  {
    var s := Line(key, n) + rest;
    var tail := "\n" + rest;
    assert s == key + (Decimal(n) + tail);
    assert s[|key|..] == Decimal(n) + tail;
    DigitRunStops(Decimal(n), tail);
    DecimalIsCanonical(n);
    assert (Decimal(n) + tail)[..|Decimal(n)|] == Decimal(n);
    assert (Decimal(n) + tail)[|Decimal(n)| + 1..] == rest;
  }

  /** Rendering and parsing are inverse, and the parser accepts nothing but renderings. */
  lemma RenderParseRoundTrip(f: Fields, s: string)
    ensures Parse(Render(f)) == Some(f)
    ensures Parse(s) == Some(f) <==> s == Render(f)
  {
    var l3 := Line(VERSION_KEY, f.minimumVersion) + [];
    var l2 := Line(CONFIRMATION_KEY, f.confirmationHeight) + l3;
    var l1 := Line(ACTIVATION_KEY, f.activationHeight) + l2;
    assert Render(f) == l1;
    ParseLineReadsBack(ACTIVATION_KEY, f.activationHeight, l2);
    ParseLineReadsBack(CONFIRMATION_KEY, f.confirmationHeight, l3);
    ParseLineReadsBack(VERSION_KEY, f.minimumVersion, []);
  }

  /** Two records are the same text exactly when they are the same three numbers. */
  lemma RenderIsInjective(f: Fields, g: Fields)
    ensures Render(f) == Render(g) <==> f == g
  {
    RenderParseRoundTrip(f, Render(g));
    RenderParseRoundTrip(g, Render(g));
  }
}

/** The tick labels of the interactive charts: a duration printed in mixed units. */
module TickFormatter {
  import opened Sequences

  const PRESCALE := 1_000_000.0

  const UNITS := 6

  /** Nanoseconds in an hour, minute, second, millisecond, microsecond and nanosecond. */
  function Factor(i: nat): (f: nat)
    requires i < UNITS
    ensures f > 0
  {
    if i == 0 then 3_600_000_000_000 else if i == 1 then 60_000_000_000 else if i == 2 then 1_000_000_000
    else if i == 3 then 1_000_000 else if i == 4 then 1000 else 1
  }

  function Label(i: nat): string
    requires i < UNITS
  {
    if i == 0 then "h" else if i == 1 then "m" else if i == 2 then "s"
    else if i == 3 then "ms" else if i == 4 then "us" else "ns"
  }

  predicate IsDigit(c: char) { '0' <= c <= '9' }

  function Digit(d: nat): (c: char)
    requires d < 10
    ensures IsDigit(c) && DigitValue(c) == d
  {
    '0' + d as char
  }

  function DigitValue(c: char): nat
    requires IsDigit(c)
  {
    (c - '0') as nat
  }

  function Decimal(n: nat): (s: string)
    ensures s != [] && IsDigit(s[0])
  {
    if n < 10 then [Digit(n)] else Decimal(n / 10) + [Digit(n % 10)]
  }

  /** What the loop appends for a remainder from unit i on. */
  function Printed(remainder: nat, i: nat): string
    requires i <= UNITS
    decreases UNITS - i
  {
    if i == UNITS then ""
    else if remainder >= Factor(i) then
      Decimal(remainder / Factor(i)) + Label(i) + Printed(remainder % Factor(i), i + 1)
    else Printed(remainder, i + 1)
  }

  /** The label of a tick in milliseconds, given the product of its magnitude and the prescale. The product is a
      parameter: it is whatever the double multiplication yields, and not always the exact product. */
  function TickString(tick: real, scaled: real): string
    requires scaled >= 0.0
  {
    (if tick < 0.0 then "-" else if tick == 0.0 then "0" else "") + Printed(scaled.Floor, 0)
  }

  /** The formatter, from the scaled tick on. */
  method FormatTick(tick: real, scaled: real) returns (tickStr: string)
    requires scaled >= 0.0
    ensures tickStr == TickString(tick, scaled)
  {
    tickStr := "";
    var remainder: nat := scaled.Floor;
    if tick < 0.0 {
      tickStr := tickStr + "-";
    } else if tick == 0.0 {
      tickStr := tickStr + "0";
    }
    for i := 0 to UNITS
      invariant TickString(tick, scaled) == tickStr + Printed(remainder, i)
    {
      PrintedGroup(tickStr, remainder, i);
      if remainder >= Factor(i) {
        var divisor := remainder / Factor(i);
        remainder := remainder % Factor(i);
        tickStr := tickStr + (Decimal(divisor) + Label(i));
      }
    }
  }

  lemma PrintedGroup(before: string, remainder: nat, i: nat)
    requires i < UNITS
    ensures before + Printed(remainder, i) ==
      if remainder >= Factor(i)
      then (before + (Decimal(remainder / Factor(i)) + Label(i))) + Printed(remainder % Factor(i), i + 1)
      else before + Printed(remainder, i + 1)
  {
    ConcatAssociates(before, Decimal(remainder / Factor(i)) + Label(i), Printed(remainder % Factor(i), i + 1));
  }

  // ----- Reading a label back -----

  /** The unit at the start of the text, longest match first: its factor and length. */
  function UnitAt(s: string): Option<(nat, nat)>
    requires s != []
  {
    var withS := |s| > 1 && s[1] == 's';
    if s[0] == 'h' then Some((3_600_000_000_000, 1))
    else if s[0] == 'm' then (if withS then Some((1_000_000, 2)) else Some((60_000_000_000, 1)))
    else if s[0] == 's' then Some((1_000_000_000, 1))
    else if s[0] == 'u' && withS then Some((1000, 2))
    else if s[0] == 'n' && withS then Some((1, 2))
    else None
  }

  /** Reads groups of digits and units; count is the number read so far in the current group. */
  function ParseGroups(s: string, count: nat): Option<nat>
    decreases |s|
  {
    if s == [] then (if count == 0 then Some(0) else None)
    else if IsDigit(s[0]) then ParseGroups(s[1..], count * 10 + DigitValue(s[0]))
    else
      match UnitAt(s)
      case None => None
      case Some((factor, length)) =>
        match ParseGroups(s[length..], 0)
        case None => None
        case Some(rest) => Some(count * factor + rest)
  }

  function Signed(sign: int, n: Option<nat>): Option<int>
  {
    match n
    case None => None
    case Some(value) => Some(sign * value)
  }

  function ParseTick(s: string): Option<int>
  {
    if s != [] && s[0] == '-' then Signed(-1, ParseGroups(s[1..], 0)) else Signed(1, ParseGroups(s, 0))
  }

  lemma {:induction false} ParseDecimal(n: nat, rest: string)
    ensures ParseGroups(Decimal(n) + rest, 0) == ParseGroups(rest, n)
  {
    if n < 10 {
      assert (Decimal(n) + rest)[1..] == rest;
    } else {
      var last := [Digit(n % 10)];
      assert Decimal(n) + rest == Decimal(n / 10) + (last + rest);
      ParseDecimal(n / 10, last + rest);
      assert (last + rest)[1..] == rest;
    }
  }

  lemma {:induction false} PrintedStart(n: nat, i: nat)
    requires i <= UNITS
    ensures Printed(n, i) == "" || IsDigit(Printed(n, i)[0])
    decreases UNITS - i
  {
    if i < UNITS {
      PrintedStart(n, i + 1);
    }
  }

  lemma ParseUnit(i: nat, rest: string, count: nat)
    requires i < UNITS && (rest == "" || IsDigit(rest[0]))
    ensures ParseGroups(Label(i) + rest, count) ==
      match ParseGroups(rest, 0) case None => None case Some(n) => Some(count * Factor(i) + n)
  {
    var s := Label(i) + rest;
    assert s[0] == Label(i)[0] && (|Label(i)| == 2 ==> s[1] == 's');
    assert |Label(i)| == 1 ==> |s| == 1 || s[1] == rest[0];
    assert UnitAt(s) == Some((Factor(i), |Label(i)|));
    assert s[|Label(i)|..] == rest;
  }

  lemma ParseGroup(count: nat, i: nat, rest: string)
    requires i < UNITS && (rest == "" || IsDigit(rest[0])) && ParseGroups(rest, 0).Some?
    ensures ParseGroups(Decimal(count) + Label(i) + rest, 0) == Some(count * Factor(i) + ParseGroups(rest, 0).value)
  {
    assert Decimal(count) + Label(i) + rest == Decimal(count) + (Label(i) + rest);
    ParseDecimal(count, Label(i) + rest);
    ParseUnit(i, rest, count);
  }

  lemma QuotientAndRemainder(n: nat, i: nat)
    requires i < UNITS
    ensures n / Factor(i) * Factor(i) + n % Factor(i) == n
    ensures i == UNITS - 1 ==> n % Factor(i) == 0
  {
  }

  lemma {:induction false} ParsePrinted(n: nat, i: nat)
    requires i <= UNITS && (i == UNITS ==> n == 0)
    ensures ParseGroups(Printed(n, i), 0) == Some(n)
    decreases UNITS - i
  {
    if i < UNITS {
      if n >= Factor(i) {
        var q, r := n / Factor(i), n % Factor(i);
        QuotientAndRemainder(n, i);
        ParsePrinted(r, i + 1);
        PrintedStart(r, i + 1);
        ParseGroup(q, i, Printed(r, i + 1));
      } else {
        ParsePrinted(n, i + 1);
      }
    }
  }

  function SignOf(tick: real): int { if tick < 0.0 then -1 else if tick == 0.0 then 0 else 1 }

  lemma {:induction false} PrintedZero(i: nat)
    requires i <= UNITS
    ensures Printed(0, i) == ""
    decreases UNITS - i
  {
    if i < UNITS { PrintedZero(i + 1); }
  }

  /** Round trip over the integer remainder: every label reads back as the whole nanoseconds it was printed from. */
  lemma ParseFormatted(tick: real, scaled: real)
    requires scaled >= 0.0 && (tick == 0.0 ==> scaled == 0.0)
    ensures ParseTick(TickString(tick, scaled)) == Some(SignOf(tick) * scaled.Floor)
  {
    var n := scaled.Floor;
    ParsePrinted(n, 0);
    PrintedStart(n, 0);
    if tick < 0.0 {
      assert TickString(tick, scaled)[1..] == Printed(n, 0);
    } else if tick == 0.0 {
      assert Printed(0, 0) == "" by { PrintedZero(0); }
      assert TickString(tick, scaled) == "0" && "0"[1..] == "";
    } else {
      assert TickString(tick, scaled) == Printed(n, 0);
    }
  }

  /** The label of a tick reads back as n nanoseconds exactly when the product has not left the interval from n to n +
      1. */
  lemma LabelReadsBackIff(tick: real, scaled: real, n: nat)
    requires scaled >= 0.0 && tick != 0.0
    ensures ParseTick(TickString(tick, scaled)) == Some(SignOf(tick) * n) <==> n as real <= scaled < n as real + 1.0
  {
    ParseFormatted(tick, scaled);
    assert scaled.Floor == n <==> n as real <= scaled < n as real + 1.0;
    if tick < 0.0 {
      assert SignOf(tick) * scaled.Floor == -scaled.Floor;
    } else {
      assert SignOf(tick) * scaled.Floor == scaled.Floor;
    }
  }

  /** Two labels are the same exactly when the ticks have the same sign and the same whole nanoseconds. */
  lemma LabelsAgreeIff(tick: real, scaled: real, tick': real, scaled': real)
    requires scaled >= 0.0 && (tick == 0.0 ==> scaled == 0.0)
    requires scaled' >= 0.0 && (tick' == 0.0 ==> scaled' == 0.0)
    ensures TickString(tick, scaled) == TickString(tick', scaled') <==>
      SignOf(tick) == SignOf(tick') && scaled.Floor == scaled'.Floor
  {
    ParseFormatted(tick, scaled);
    ParseFormatted(tick', scaled');
    LabelStart(tick, scaled);
    LabelStart(tick', scaled');
  }

  /** Labels show their sign: only negative ticks start with a minus, and only the zero tick is labelled with a bare
      zero. */
  lemma LabelStart(tick: real, scaled: real)
    requires scaled >= 0.0 && (tick == 0.0 ==> scaled == 0.0)
    ensures var text := TickString(tick, scaled);
      && (text != "" && text[0] == '-' <==> tick < 0.0)
      && (text == "0" <==> tick == 0.0)
  {
    var n := scaled.Floor;
    PrintedStart(n, 0);
    ParsePrinted(n, 0);
    PrintedZero(0);
    assert ParseGroups("0", 0) == Some(0) by { assert "0"[1..] == ""; }
  }

  /** Below a nanosecond only zero itself has a readable label: any other tick prints no number. */
  lemma SubNanosecondTicksAreBlank(tick: real, scaled: real)
    requires scaled >= 0.0 && tick != 0.0
    ensures TickString(tick, scaled) == (if tick < 0.0 then "-" else "") <==> scaled < 1.0
  {
    var n := scaled.Floor;
    ParsePrinted(n, 0);
    if n == 0 { PrintedZero(0); }
    if tick < 0.0 { assert TickString(tick, scaled)[1..] == Printed(n, 0); }
  }

  // ----- The doubles behind a tick -----

  function AbsReal(x: real): real { if x < 0.0 then -x else x }

  function Power(e: int): (p: real)
    ensures p > 0.0
    decreases if e < 0 then -e else e
  {
    if e == 0 then 1.0 else if e > 0 then 2.0 * Power(e - 1) else Power(e + 1) / 2.0
  }

  const MANTISSAS := 0x20_0000_0000_0000

  /** A positive double: a mantissa of 53 bits times a power of two. */
  datatype Double = Double(mantissa: nat, exponent: int)
  {
    predicate Valid() { MANTISSAS / 2 <= mantissa < MANTISSAS }

    function Value(): real { mantissa as real * Power(exponent) }
  }

  /** The double is within half a unit in the last place, as every correctly rounded result is. */
  predicate RoundsTo(exact: real, d: Double)
  {
    d.Valid() && AbsReal(exact - d.Value()) <= Power(d.exponent) / 2.0
  }

  lemma Multiply(a: real, b: real, f: real)
    requires a <= b && f > 0.0
    ensures a * f <= b * f
  {
  }

  /** Half a place is small compared to a value of at least 2 to the power of 52 places. */
  lemma HalfAPlace(exact: real, mantissa: real, p: real)
    requires p > 0.0 && mantissa >= 4503599627370496.0 && AbsReal(exact - mantissa * p) <= p / 2.0
    ensures mantissa * p > 0.0 && AbsReal(exact - mantissa * p) * 9007199254740992.0 <= mantissa * p
  {
    Multiply(4503599627370496.0, mantissa, p);
  }

  lemma RelativeError(exact: real, d: Double)
    requires RoundsTo(exact, d)
    ensures d.Value() > 0.0 && AbsReal(exact - d.Value()) * 9007199254740992.0 <= d.Value()
  {
    HalfAPlace(exact, d.mantissa as real, Power(d.exponent));
  }

  lemma ValueInPlaces(d: Double)
    requires d.Valid()
    ensures d.Value() >= 4503599627370496.0 * Power(d.exponent)
  {
    Multiply(4503599627370496.0, d.mantissa as real, Power(d.exponent));
  }

  /** The tick of n nanoseconds: the double nearest to it, and the double product with the prescale. */
  predicate IsTickOf(n: nat, tick: Double, scaled: Double)
  {
    RoundsTo(n as real / PRESCALE, tick) && RoundsTo(tick.Value() * PRESCALE, scaled)
  }

  const EXACT_LIMIT := MANTISSAS / 4

  /** Two roundings of relative size 2 to the power of -53 move a whole number up to the limit by less than 1. */
  lemma TwoRoundings(n: nat, tick: real, scaled: real)
    requires 0 < n <= EXACT_LIMIT
    requires AbsReal(n as real / PRESCALE - tick) * 9007199254740992.0 <= tick
    requires AbsReal(tick * PRESCALE - scaled) * 9007199254740992.0 <= scaled
    ensures n as real - 1.0 < scaled < n as real + 1.0
  {
  }

  lemma ScaledIsClose(n: nat, tick: Double, scaled: Double)
    requires 0 < n <= EXACT_LIMIT && IsTickOf(n, tick, scaled)
    ensures tick.Value() > 0.0 && n as real - 1.0 < scaled.Value() < n as real + 1.0
  {
    RelativeError(n as real / PRESCALE, tick);
    RelativeError(tick.Value() * PRESCALE, scaled);
    TwoRoundings(n, tick.Value(), scaled.Value());
  }

  function SignedTick(negative: bool, tick: Double): real { if negative then -tick.Value() else tick.Value() }

  /** Up to 26 days, a whole number of nanoseconds reads back from its label as itself or as one nanosecond less, the
      latter exactly when the double product fell short of it. */
  lemma RoundingLosesAtMostOne(n: nat, negative: bool, tick: Double, scaled: Double)
    requires 0 < n <= EXACT_LIMIT && IsTickOf(n, tick, scaled)
    ensures scaled.Value() >= 0.0
    ensures ParseTick(TickString(SignedTick(negative, tick), scaled.Value()))
         == Some((if negative then -1 else 1) * if scaled.Value() >= n as real then n else n - 1)
  {
    ScaledIsClose(n, tick, scaled);
    ReadsBack(n, SignedTick(negative, tick), scaled.Value());
  }

  lemma ReadsBack(n: nat, tick: real, scaled: real)
    requires 0 < n && tick != 0.0 && n as real - 1.0 < scaled < n as real + 1.0
    ensures scaled >= 0.0
    ensures ParseTick(TickString(tick, scaled)) == Some(SignOf(tick) * if scaled >= n as real then n else n - 1)
  {
    ParseFormatted(tick, scaled);
    assert scaled.Floor == if scaled >= n as real then n else n - 1;
  }

  /** So only neighbouring numbers of nanoseconds can share a label. */
  lemma OnlyNeighboursShareALabel(a: nat, tickA: Double, scaledA: Double, b: nat, tickB: Double, scaledB: Double)
    requires 0 < a < b <= EXACT_LIMIT && IsTickOf(a, tickA, scaledA) && IsTickOf(b, tickB, scaledB)
    ensures scaledA.Value() >= 0.0 && scaledB.Value() >= 0.0
    ensures TickString(tickA.Value(), scaledA.Value()) == TickString(tickB.Value(), scaledB.Value()) <==>
      b == a + 1 && scaledA.Value() >= a as real && scaledB.Value() < b as real
  {
    ScaledIsClose(a, tickA, scaledA);
    ScaledIsClose(b, tickB, scaledB);
    ShareALabel(a, tickA.Value(), scaledA.Value(), b, tickB.Value(), scaledB.Value());
  }

  lemma ShareALabel(a: nat, tickA: real, scaledA: real, b: nat, tickB: real, scaledB: real)
    requires 0 < a < b && tickA > 0.0 && tickB > 0.0
    requires a as real - 1.0 < scaledA < a as real + 1.0 && b as real - 1.0 < scaledB < b as real + 1.0
    ensures scaledA >= 0.0 && scaledB >= 0.0
    ensures TickString(tickA, scaledA) == TickString(tickB, scaledB) <==>
      b == a + 1 && scaledA >= a as real && scaledB < b as real
  {
    LabelsAgreeIff(tickA, scaledA, tickB, scaledB);
    assert scaledA.Floor == if scaledA >= a as real then a else a - 1;
    assert scaledB.Floor == if scaledB >= b as real then b else b - 1;
  }

  function WholePower(k: nat): (p: nat)
    ensures p > 0
  {
    if k == 0 then 1 else 2 * WholePower(k - 1)
  }

  lemma {:induction false} PowerInverts(k: int)
    requires k >= 0
    ensures WholePower(k) as real * Power(-k) == 1.0
  {
    if k > 0 {
      PowerInverts(k - 1);
      assert Power(-k) == Power(-k + 1) / 2.0;
    }
  }

  lemma {:induction false} WholePowersAreLarge(e: int)
    requires e >= 0
    ensures Power(e) >= 1.0
  {
    if e > 0 { WholePowersAreLarge(e - 1); }
  }

  /** A whole number above a double on a grid finer than 1 is at least a full place above it. */
  lemma GridGap(k: nat, m: nat, whole: nat, p: real)
    requires p > 0.0 && whole as real * p == 1.0 && m as real * p < k as real
    ensures k as real - m as real * p >= p
  {
    var steps := k * whole;
    assert steps as real * p == k as real * (whole as real * p) == k as real;
    if steps <= m {
      Multiply(steps as real, m as real, p);
      assert false;
    }
    Multiply(1.0, (steps - m) as real, p);
  }

  lemma OnTheGrid(exact: real, k: nat, m: nat, whole: nat, p: real)
    requires p > 0.0 && whole as real * p == 1.0 && AbsReal(exact - m as real * p) <= p / 2.0 && k as real <= exact
    ensures m as real * p >= k as real
  {
    if m as real * p < k as real {
      GridGap(k, m, whole, p);
      assert false;
    }
  }

  /** A rounded quotient never drops below a whole number that the exact quotient reaches. */
  lemma QuotientIsNotBelow(exact: real, q: Double, k: nat)
    requires RoundsTo(exact, q) && k as real <= exact && k <= MANTISSAS / 4
    ensures q.Value() >= k as real
  {
    var p := Power(q.exponent);
    if q.Value() < k as real {
      ValueInPlaces(q);
      NegativeExponent(q.exponent, k);
      PowerInverts(-q.exponent);
      OnTheGrid(exact, k, q.mantissa, WholePower(-q.exponent), p);
    }
  }

  lemma NegativeExponent(e: int, k: nat)
    requires 4503599627370496.0 * Power(e) < k as real && k <= MANTISSAS / 4
    ensures e < 0
  {
    assert k as real <= 2251799813685248.0;
    if e >= 0 { WholePowersAreLarge(e); }
  }

  lemma QuotientIsBelowNext(r: nat, f: nat, v: real)
    requires 0 < f && r <= EXACT_LIMIT && v > 0.0
    requires AbsReal(r as real / f as real - v) * 9007199254740992.0 <= v
    ensures v < (r / f) as real + 1.0
  {
    var k, exact, d := r / f, r as real / f as real, f as real;
    assert exact * d == r as real;
    assert r as real <= 2251799813685248.0;
    Multiply(v * 9007199254740992.0, exact * 9007199254740994.0, d);
    assert v * d <= r as real + 0.5;
    if v >= k as real + 1.0 {
      Multiply(k as real + 1.0, v, d);
      NextMultiple(r, f);
      assert false;
    }
  }

  lemma NextMultiple(r: nat, f: nat)
    requires f > 0
    ensures r as real + 1.0 <= ((r / f) as real + 1.0) * f as real
  {
    assert r + 1 <= (r / f + 1) * f;
    assert ((r / f + 1) * f) as real == (r / f + 1) as real * f as real;
  }

  /** Within the limit the floor of a double quotient is the whole quotient, so the loop splits the remainder
      exactly. */
  lemma DoubleQuotientFloors(r: nat, i: nat, q: Double)
    requires i < UNITS && Factor(i) <= r <= EXACT_LIMIT && RoundsTo(r as real / Factor(i) as real, q)
    ensures q.Value().Floor == r / Factor(i)
  {
    QuotientFloors(r, Factor(i), q);
  }

  lemma QuotientFloors(r: nat, f: nat, q: Double)
    requires 0 < f <= r <= EXACT_LIMIT && RoundsTo(r as real / f as real, q)
    ensures q.Value().Floor == r / f
  {
    var exact, k := r as real / f as real, r / f;
    WholeQuotientIsBelow(r, f);
    RelativeError(exact, q);
    QuotientIsNotBelow(exact, q, k);
    QuotientIsBelowNext(r, f, q.Value());
    FloorBetween(q.Value(), k);
  }

  lemma WholeQuotientIsBelow(r: nat, f: nat)
    requires 0 < f
    ensures (r / f) as real <= r as real / f as real && r / f <= r
  {
    assert (r / f) * f <= r;
    assert ((r / f) * f) as real == (r / f) as real * f as real;
  }

  lemma FloorBetween(v: real, k: nat)
    requires k as real <= v < k as real + 1.0
    ensures v.Floor == k
  {
  }

  lemma SixteenHalvings(e: int)
    requires e <= 0
    ensures Power(e - 16) == Power(e) / 65536.0
  {
    EightHalvings(e);
    EightHalvings(e - 8);
  }

  lemma EightHalvings(e: int)
    requires e <= 0
    ensures Power(e - 8) == Power(e) / 256.0
  {
    assert Power(e - 4) == Power(e - 3) / 2.0 && Power(e - 3) == Power(e - 2) / 2.0;
    assert Power(e - 2) == Power(e - 1) / 2.0 && Power(e - 1) == Power(e) / 2.0;
    assert Power(e - 8) == Power(e - 7) / 2.0 && Power(e - 7) == Power(e - 6) / 2.0;
    assert Power(e - 6) == Power(e - 5) / 2.0 && Power(e - 5) == Power(e - 4) / 2.0;
  }

  lemma PowersOf249()
    ensures Power(-64) == 1.0 / 18446744073709551616.0 && Power(-45) == 1.0 / 35184372088832.0
  {
    SixteenHalvings(0);
    SixteenHalvings(-16);
    SixteenHalvings(-32);
    SixteenHalvings(-48);
    EightHalvings(-32);
    assert Power(-45) == Power(-44) / 2.0 && Power(-44) == Power(-43) / 2.0 && Power(-43) == Power(-42) / 2.0;
    assert Power(-42) == Power(-41) / 2.0 && Power(-41) == Power(-40) / 2.0;
  }

  /** The double nearest to 249 nanoseconds, times the prescale, falls just short of 249. */
  const TICK_249 := Double(4593239274353678, -64)

  const SCALED_249 := Double(8760908650119167, -45)

  /** A label that loses a nanosecond: 249 ns reads "248ns". */
  lemma NanosecondIsLost()
    ensures IsTickOf(249, TICK_249, SCALED_249)
    ensures TickString(TICK_249.Value(), SCALED_249.Value()) == "248ns"
  {
    PowersOf249();
    assert SCALED_249.Value().Floor == 248;
    assert Printed(248, 0) == "248ns";
  }

  // ----- The shape of a label -----

  /** How often each unit from i on goes into n. */
  function Counts(n: nat, i: nat): (c: seq<nat>)
    requires i <= UNITS
    ensures |c| == UNITS - i
    decreases UNITS - i
  {
    if i == UNITS then [] else [n / Factor(i)] + Counts(n % Factor(i), i + 1)
  }

  /** Counts with the zero ones left out, as text. */
  function Spelled(counts: seq<nat>, i: nat): string
    requires i + |counts| == UNITS
    decreases |counts|
  {
    if counts == [] then ""
    else (if counts[0] == 0 then "" else Decimal(counts[0]) + Label(i)) + Spelled(counts[1..], i + 1)
  }

  function Total(counts: seq<nat>, i: nat): nat
    requires i + |counts| == UNITS
    decreases |counts|
  {
    if counts == [] then 0 else counts[0] * Factor(i) + Total(counts[1..], i + 1)
  }

  /** Minutes and seconds stay below 60, the units below a second stay below 1000; hours are unlimited. */
  predicate Normal(counts: seq<nat>, i: nat)
    requires i + |counts| == UNITS
  {
    forall j :: 0 <= j < |counts| ==> (1 <= i + j <= 2 ==> counts[j] < 60) && (i + j >= 3 ==> counts[j] < 1000)
  }

  lemma {:induction false} PrintedSpellsCounts(n: nat, i: nat)
    requires i <= UNITS
    ensures Printed(n, i) == Spelled(Counts(n, i), i)
    decreases UNITS - i
  {
    if i < UNITS {
      var q, r := n / Factor(i), n % Factor(i);
      PrintedSpellsCounts(r, i + 1);
      SmallQuotient(n, Factor(i));
      assert Counts(n, i)[0] == q && Counts(n, i)[1..] == Counts(r, i + 1);
    }
  }

  lemma SmallQuotient(n: nat, d: nat)
    requires d > 0
    ensures n < d <==> n / d == 0
    ensures n < d ==> n % d == n
  {
  }

  lemma {:induction false} CountsAddUp(n: nat, i: nat)
    requires i <= UNITS && (i == UNITS ==> n == 0)
    ensures Total(Counts(n, i), i) == n
    decreases UNITS - i
  {
    if i < UNITS {
      var q, r := n / Factor(i), n % Factor(i);
      QuotientAndRemainder(n, i);
      CountsAddUp(r, i + 1);
      assert Counts(n, i)[0] == q && Counts(n, i)[1..] == Counts(r, i + 1);
    }
  }

  lemma {:induction false} CountsAreNormal(n: nat, i: nat)
    requires i <= UNITS && (0 < i < UNITS ==> n < Factor(i - 1))
    ensures Normal(Counts(n, i), i)
    decreases UNITS - i
  {
    if i < UNITS {
      CountsAreNormal(n % Factor(i), i + 1);
      QuotientBound(n, i);
    }
  }

  lemma QuotientBound(n: nat, i: nat)
    requires 0 < i < UNITS ==> n < Factor(i - 1)
    requires i < UNITS
    ensures 1 <= i <= 2 ==> n / Factor(i) < 60
    ensures i >= 3 ==> n / Factor(i) < 1000
  {
    if i == 0 {} else if i == 1 {} else if i == 2 {} else if i == 3 {} else if i == 4 {} else {}
  }

  /** A label shows the hours, minutes, seconds and fractions of the tick, each within its range, with zero units left
      out; they add up to the whole number of nanoseconds. */
  lemma LabelShape(tick: real, scaled: real)
    requires scaled >= 0.0 && tick != 0.0
    ensures var counts := Counts(scaled.Floor, 0);
      && TickString(tick, scaled) == (if tick < 0.0 then "-" else "") + Spelled(counts, 0)
      && Normal(counts, 0) && Total(counts, 0) == scaled.Floor
  {
    PrintedSpellsCounts(scaled.Floor, 0);
    CountsAddUp(scaled.Floor, 0);
    CountsAreNormal(scaled.Floor, 0);
  }
}

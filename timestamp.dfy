/**
 * The timestamp parser of backend/utils.py: a clock string is split on
 * `:`, every field is converted with Python's `float()`, and the fields are
 * combined as hours, minutes and seconds. A field `float()` rejects raises,
 * and the error ends the whole parse.
 */
module Timestamp {
  import opened Common
  import opened Text

  /** The error `float()` raises on a field that is not a number. */
  datatype Error = MalformedTimestamp(field: string)

  predicate IsDigit(c: char)
  {
    '0' <= c <= '9'
  }

  predicate AllDigits(s: string)
  {
    forall i :: 0 <= i < |s| ==> IsDigit(s[i])
  }

  function DigitOf(c: char): nat
    requires IsDigit(c)
  {
    c as int - '0' as int
  }

  /** `acc` followed by the decimal digits `d`, read left to right. */
  function Accumulate(acc: nat, d: string): nat
    requires AllDigits(d)
    decreases |d|
  {
    if d == [] then acc else Accumulate(10 * acc + DigitOf(d[0]), d[1..])
  }

  /** The value of a string of decimal digits; the empty string is 0. */
  function DigitsValue(d: string): nat
    requires AllDigits(d)
  {
    Accumulate(0, d)
  }

  function Pow10(n: nat): (p: nat)
    ensures p >= 1
  {
    if n == 0 then 1 else 10 * Pow10(n - 1)
  }

  /** Where the scanner of a decimal literal stands. */
  datatype Phase =
    | Start       // nothing read
    | Signed      // a sign read
    | Whole       // integer digits read
    | Point       // a point read, no digit yet
    | Fraction    // a point and at least one digit read
    | ExpMark     // `e` or `E` read
    | ExpSigned   // the exponent's sign read
    | ExpDigits   // exponent digits read

  /** What has been read: sign, all mantissa digits as one number, how many of them follow the point, the exponent. */
  datatype Numeral = Numeral(neg: bool, mantissa: nat, scale: nat, expNeg: bool, exponent: nat)

  /** The phases in which a literal may end. */
  predicate Complete(ph: Phase)
  {
    ph == Whole || ph == Fraction || ph == ExpDigits
  }

  /** The characters a decimal literal accepted by `float()` is made of. */
  predicate IsNumeralChar(c: char)
  {
    IsDigit(c) || c == '.' || c == '+' || c == '-' || c == 'e' || c == 'E'
  }

  /**
   * Reads `[+|-] (digits [. [digits]] | . digits) [(e|E) [+|-] digits]`,
   * the decimal literals `float()` accepts, one character at a time.
   */
  function Scan(s: string, ph: Phase, n: Numeral): (r: Option<Numeral>)
    decreases |s|
  {
    if s == [] then (if Complete(ph) then Some(n) else None)
    else
      var c, rest := s[0], s[1..];
      if IsDigit(c) then
        var d := DigitOf(c);
        match ph
        case Start | Signed | Whole => Scan(rest, Whole, n.(mantissa := 10 * n.mantissa + d))
        case Point | Fraction => Scan(rest, Fraction, n.(mantissa := 10 * n.mantissa + d, scale := n.scale + 1))
        case ExpMark | ExpSigned | ExpDigits => Scan(rest, ExpDigits, n.(exponent := 10 * n.exponent + d))
      else if c == '+' || c == '-' then
        match ph
        case Start => Scan(rest, Signed, n.(neg := c == '-'))
        case ExpMark => Scan(rest, ExpSigned, n.(expNeg := c == '-'))
        case _ => None
      else if c == '.' then
        match ph
        case Start | Signed => Scan(rest, Point, n)
        case Whole => Scan(rest, Fraction, n)
        case _ => None
      else if c == 'e' || c == 'E' then
        if ph == Whole || ph == Fraction then Scan(rest, ExpMark, n) else None
      else None
  }

  /** `v * 10 ** e`. */
  function Scale(v: real, e: int): real
  {
    if e >= 0 then v * Pow10(e) as real else v / Pow10(-e) as real
  }

  /** The number a scanned literal denotes. */
  function ValueOf(n: Numeral): real
  {
    var v := Scale(n.mantissa as real / Pow10(n.scale) as real,
                   if n.expNeg then -(n.exponent as int) else n.exponent);
    if n.neg then -v else v
  }

  const Unread := Numeral(false, 0, 0, false, 0)

  /**
   * The information separators U+001C to U+001F: `str.strip` removes them
   * as whitespace, but `float()` does not.
   */
  const InfoSeparators: set<char> := {'\U{1c}', '\U{1d}', '\U{1e}', '\U{1f}'}

  /**
   * Python's `float(p)` on the decimal literals it accepts, surrounding
   * whitespace allowed. `None` stands for the `ValueError` it raises.
   * `float()` strips the whitespace of `Strip` except the information
   * separators; a separator it leaves stays inside the text it reads,
   * and no numeral holds one, so a field with a separator anywhere is
   * rejected, and any other field reads the same under either strip.
   */
  function ParseField(p: string): (r: Option<real>)
    ensures r.Some? ==> Strip(p) != []
    ensures HasAny(p, InfoSeparators) ==> r.None?
  {
    if HasAny(p, InfoSeparators) then None
    else match Scan(Strip(p), Start, Unread)
    case None => None
    case Some(n) => Some(ValueOf(n))
  }

  /** Only sign, digits, point and exponent marks get through the scanner, and at least one digit. */
  lemma {:induction false} ScanChars(s: string, ph: Phase, n: Numeral)
    requires Scan(s, ph, n).Some?
    ensures forall i :: 0 <= i < |s| ==> IsNumeralChar(s[i])
    ensures s == [] ==> Complete(ph)
    decreases |s|
  {
    if s != [] {
      var c := s[0];
      var ph', n' :| Scan(s, ph, n) == Scan(s[1..], ph', n');
      ScanChars(s[1..], ph', n');
      assert forall i :: 0 < i < |s| ==> s[i] == s[1..][i - 1];
    }
  }

  /** A field `float()` accepts holds nothing but a numeral, and is not blank. */
  lemma ParsedFieldIsNumeral(p: string)
    requires ParseField(p).Some?
    ensures Strip(p) != []
    ensures forall i :: 0 <= i < |Strip(p)| ==> IsNumeralChar(Strip(p)[i])
  {
    ScanChars(Strip(p), Start, Unread);
  }

  /** Digits read in the integer part extend the mantissa. */
  lemma {:induction false} ScanWhole(d: string, n: Numeral)
    requires AllDigits(d) && d != []
    ensures Scan(d, Whole, n) == Some(n.(mantissa := Accumulate(n.mantissa, d)))
    decreases |d|
  {
    if |d| > 1 {
      ScanWhole(d[1..], n.(mantissa := 10 * n.mantissa + DigitOf(d[0])));
    }
  }

  /** A non-empty string of decimal digits is a field: it holds no `:`, and is the whole number it spells. */
  lemma DigitsField(d: string)
    requires AllDigits(d) && d != []
    ensures !HasAny(d, {':'})
    ensures ParseField(d) == Some(DigitsValue(d) as real)
  {
    DigitsHaveNoColon(d);
    HasNone(d, InfoSeparators);
    assert Strip(d) == d by {
      assert !IsSpace(d[0]);
      assert !IsSpace(d[|d| - 1]);
      StripNoOp(d);
    }
    var n := Unread.(mantissa := DigitOf(d[0]));
    var read := Unread.(mantissa := DigitsValue(d));
    assert Scan(d, Start, Unread) == Some(read) by {
      assert Scan(d, Start, Unread) == Scan(d[1..], Whole, n);
      assert DigitsValue(d) == Accumulate(n.mantissa, d[1..]);
      if |d| > 1 {
        ScanWhole(d[1..], n);
      }
    }
    assert ValueOf(read) == DigitsValue(d) as real;
  }

  /** Digits read after the integer part, or after the point, extend the mantissa the same way. */
  lemma {:induction false} ScanWholeThen(d: string, rest: string, n: Numeral)
    requires AllDigits(d)
    ensures Scan(d + rest, Whole, n) == Scan(rest, Whole, n.(mantissa := Accumulate(n.mantissa, d)))
    decreases |d|
  {
    if d == [] {
      assert d + rest == rest;
    } else {
      assert (d + rest)[1..] == d[1..] + rest;
      ScanWholeThen(d[1..], rest, n.(mantissa := 10 * n.mantissa + DigitOf(d[0])));
    }
  }

  /** Digits after the point extend the mantissa and count towards the scale. */
  lemma {:induction false} ScanFraction(d: string, n: Numeral)
    requires AllDigits(d)
    ensures Scan(d, Fraction, n) == Some(n.(mantissa := Accumulate(n.mantissa, d), scale := n.scale + |d|))
    decreases |d|
  {
    if d != [] {
      ScanFraction(d[1..], n.(mantissa := 10 * n.mantissa + DigitOf(d[0]), scale := n.scale + 1));
    }
  }

  /** Exponent digits build the exponent. */
  lemma {:induction false} ScanExponent(d: string, n: Numeral)
    requires AllDigits(d)
    ensures Scan(d, ExpDigits, n) == Some(n.(exponent := Accumulate(n.exponent, d)))
    decreases |d|
  {
    if d != [] {
      ScanExponent(d[1..], n.(exponent := 10 * n.exponent + DigitOf(d[0])));
    }
  }

  /** Reading digits after a number `x` is `x` shifted left by their count, plus their own value. */
  lemma {:induction false} AccumulateShift(x: nat, d: string)
    requires AllDigits(d)
    ensures Accumulate(x, d) == x * Pow10(|d|) + DigitsValue(d)
    decreases |d|
  {
    if d != [] {
      var c := DigitOf(d[0]);
      AccumulateShift(10 * x + c, d[1..]);
      AccumulateShift(c, d[1..]);
      assert DigitsValue(d) == Accumulate(c, d[1..]);
      assert Pow10(|d|) == 10 * Pow10(|d| - 1);
      Distribute(x, c, Pow10(|d| - 1));
    }
  }

  /** `(10x + c) * q` is `x * 10q + c * q`. */
  lemma Distribute(x: nat, c: nat, q: nat)
    ensures (10 * x + c) * q == x * (10 * q) + c * q
  {
  }

  /** A literal `a.b` of digits is its own strip and holds no information separator. */
  lemma DecimalChars(a: string, b: string)
    requires AllDigits(a) && AllDigits(b) && a + b != []
    ensures Strip(a + "." + b) == a + "." + b
    ensures !HasAny(a + "." + b, InfoSeparators)
  {
    var s := a + "." + b;
    assert forall k :: 0 <= k < |s| ==> IsDigit(s[k]) || s[k] == '.' by {
      forall k | 0 <= k < |s| ensures IsDigit(s[k]) || s[k] == '.' {
        if k < |a| {
          assert s[k] == a[k];
        } else if k > |a| {
          assert s[k] == b[k - |a| - 1];
        }
      }
    }
    HasNone(s, InfoSeparators);
    StripNoOp(s);
  }

  /** One scanner step: a character `c` read in phase `ph` leads to phase `ph'` with numeral `n'`. */
  lemma ScanStep(c: char, rest: string, ph: Phase, n: Numeral, ph': Phase, n': Numeral)
    requires IsDigit(c) && ph == Start ==> ph' == Whole && n' == n.(mantissa := 10 * n.mantissa + DigitOf(c))
    requires IsDigit(c) && ph == Point ==> ph' == Fraction && n' == n.(mantissa := 10 * n.mantissa + DigitOf(c), scale := n.scale + 1)
    requires IsDigit(c) && ph == ExpMark ==> ph' == ExpDigits && n' == n.(exponent := 10 * n.exponent + DigitOf(c))
    requires c == '.' && (ph == Start || ph == Signed) ==> ph' == Point && n' == n
    requires c == '.' && ph == Whole ==> ph' == Fraction && n' == n
    requires (c == 'e' || c == 'E') && ph == Whole ==> ph' == ExpMark && n' == n
    requires (IsDigit(c) && (ph == Start || ph == Point || ph == ExpMark)) || (c == '.' && (ph == Start || ph == Signed || ph == Whole))
          || ((c == 'e' || c == 'E') && ph == Whole)
    ensures Scan([c] + rest, ph, n) == Scan(rest, ph', n')
  {
    assert ([c] + rest)[1..] == rest;
  }

  /** The scanner reads `.b` as the mantissa of the digits `b`, scaled by their count. */
  lemma ScanPoint(b: string)
    requires AllDigits(b) && b != []
    ensures Scan(['.'] + b, Start, Unread) == Some(Numeral(false, DigitsValue(b), |b|, false, 0))
  {
    var n1 := Unread.(mantissa := DigitOf(b[0]), scale := 1);
    ScanStep('.', b, Start, Unread, Point, Unread);
    assert b == [b[0]] + b[1..];
    ScanStep(b[0], b[1..], Point, Unread, Fraction, n1);
    ScanFraction(b[1..], n1);
  }

  /** The scanner reads `a.b`, with `a` not empty, as the mantissa of all its digits, scaled by the digits after the point. */
  lemma ScanWholePoint(a: string, b: string)
    requires AllDigits(a) && AllDigits(b) && a != []
    ensures Scan([a[0]] + (a[1..] + (['.'] + b)), Start, Unread) == Some(Numeral(false, Accumulate(DigitsValue(a), b), |b|, false, 0))
  {
    var whole := Unread.(mantissa := DigitsValue(a));
    var n0 := Unread.(mantissa := DigitOf(a[0]));
    ScanStep(a[0], a[1..] + (['.'] + b), Start, Unread, Whole, n0);
    ScanWholeThen(a[1..], ['.'] + b, n0);
    assert Accumulate(n0.mantissa, a[1..]) == DigitsValue(a);
    ScanStep('.', b, Whole, whole, Fraction, whole);
    ScanFraction(b, whole);
  }

  /** The scanner reads `a.b` as the mantissa of all its digits, scaled by the digits after the point. */
  lemma ScanDecimal(a: string, b: string)
    requires AllDigits(a) && AllDigits(b) && a + b != []
    ensures Scan(a + "." + b, Start, Unread) == Some(Numeral(false, Accumulate(DigitsValue(a), b), |b|, false, 0))
  {
    if a == [] {
      assert a + "." + b == ['.'] + b;
      ScanPoint(b);
    } else {
      assert a + "." + b == [a[0]] + (a[1..] + (['.'] + b));
      ScanWholePoint(a, b);
    }
  }

  /** Real division splits over a sum. */
  lemma DivideSum(x: real, y: real, p: real)
    requires p > 0.0
    ensures (x * p + y) / p == x + y / p
  {
  }

  /** A product of naturals, read as a real, is the product of the reals. */
  lemma RealProduct(x: nat, p: nat)
    ensures (x * p) as real == x as real * p as real
  {
  }

  /** A literal with no sign and no exponent is its mantissa over ten to the power of its scale. */
  lemma MantissaValue(m: nat, k: nat)
    ensures ValueOf(Numeral(false, m, k, false, 0)) == m as real / Pow10(k) as real
  {
    assert Pow10(0) == 1;
  }

  /** A mantissa `x * p + y` over `p` is `x` plus `y / p`. */
  lemma DecimalValue(x: nat, y: nat, p: nat)
    requires p >= 1
    ensures (x * p + y) as real / p as real == x as real + y as real / p as real
  {
    RealProduct(x, p);
    DivideSum(x as real, y as real, p as real);
  }

  /**
   * A literal `a.b` of digits, with digits on at least one side of the
   * point, is the whole part plus the fraction `b / 10**|b|`.
   */
  lemma DecimalField(a: string, b: string)
    requires AllDigits(a) && AllDigits(b) && a + b != []
    ensures ParseField(a + "." + b).Some?
    ensures ParseField(a + "." + b).value == DigitsValue(a) as real + DigitsValue(b) as real / Pow10(|b|) as real
  {
    var n := Numeral(false, Accumulate(DigitsValue(a), b), |b|, false, 0);
    assert ParseField(a + "." + b) == Some(ValueOf(n)) by {
      DecimalChars(a, b);
      ScanDecimal(a, b);
      ScannedField(a + "." + b, n);
    }
    DecimalNumeral(DigitsValue(a), b);
  }

  /** The literal of the digits of `x` followed by `.b` denotes `x + b / 10**|b|`. */
  lemma DecimalNumeral(x: nat, b: string)
    requires AllDigits(b)
    ensures ValueOf(Numeral(false, Accumulate(x, b), |b|, false, 0)) == x as real + DigitsValue(b) as real / Pow10(|b|) as real
  {
    AccumulateShift(x, b);
    MantissaValue(Accumulate(x, b), |b|);
    DecimalValue(x, DigitsValue(b), Pow10(|b|));
  }

  /** A field without separators whose strip scans to `n` is the number `n` denotes. */
  lemma ScannedField(p: string, n: Numeral)
    requires !HasAny(p, InfoSeparators) && Scan(Strip(p), Start, Unread) == Some(n)
    ensures ParseField(p) == Some(ValueOf(n))
  {
  }

  /** A literal `aEe` of digits is `a * 10**e`. */
  lemma ExponentField(a: string, e: string)
    requires AllDigits(a) && AllDigits(e) && a != [] && e != []
    ensures ParseField(a + "E" + e) == Some(DigitsValue(a) as real * Pow10(DigitsValue(e)) as real)
  {
    var s := a + "E" + e;
    ExponentChars(a, e);
    var whole := Unread.(mantissa := DigitsValue(a));
    var n2 := whole.(exponent := DigitOf(e[0]));
    var fin := whole.(exponent := DigitsValue(e));
    assert Scan(s, Start, Unread) == Some(fin) by {
      var n0 := Unread.(mantissa := DigitOf(a[0]));
      assert s == [a[0]] + (a[1..] + (['E'] + e));
      ScanStep(a[0], a[1..] + (['E'] + e), Start, Unread, Whole, n0);
      ScanWholeThen(a[1..], ['E'] + e, n0);
      assert Accumulate(n0.mantissa, a[1..]) == DigitsValue(a);
      ScanStep('E', e, Whole, whole, ExpMark, whole);
      assert e == [e[0]] + e[1..];
      ScanStep(e[0], e[1..], ExpMark, whole, ExpDigits, n2);
      ScanExponent(e[1..], n2);
    }
    assert ValueOf(fin) == DigitsValue(a) as real / 1.0 * Pow10(DigitsValue(e)) as real;
  }

  /** A literal `aEe` of digits is its own strip and holds no information separator. */
  lemma ExponentChars(a: string, e: string)
    requires AllDigits(a) && AllDigits(e) && a != [] && e != []
    ensures Strip(a + "E" + e) == a + "E" + e
    ensures !HasAny(a + "E" + e, InfoSeparators)
  {
    var s := a + "E" + e;
    assert forall k :: 0 <= k < |s| ==> IsDigit(s[k]) || s[k] == 'E' by {
      forall k | 0 <= k < |s| ensures IsDigit(s[k]) || s[k] == 'E' {
        if k < |a| {
          assert s[k] == a[k];
        } else if k > |a| {
          assert s[k] == e[k - |a| - 1];
        }
      }
    }
    HasNone(s, InfoSeparators);
    StripNoOp(s);
  }

  /** A digit string holds no field separator. */
  lemma DigitsHaveNoColon(d: string)
    requires AllDigits(d)
    ensures !HasAny(d, {':'})
  {
    HasNone(d, {':'});
  }

  /**
   * `[float(p) for p in parts]`: the values in order, or the error of the
   * first field `float()` rejects.
   */
  function ParseFields(parts: seq<string>): (r: Result<seq<real>, Error>)
    ensures r.Ok? ==> |r.value| == |parts|
    ensures r.Err? ==> r.error.field in parts
  {
    if parts == [] then Ok([])
    else
      match ParseField(parts[0])
      case None => Err(MalformedTimestamp(parts[0]))
      case Some(v) =>
        match ParseFields(parts[1..])
        case Err(e) => Err(e)
        case Ok(rest) => Ok([v] + rest)
  }

  /**
   * `parse_timestamp`: the string is split on `:`, every field goes through
   * `float()` (the first field it rejects is the error), and the values are
   * combined by their count.
   */
  function ParseTimestamp(ts: string): (r: Result<real, Error>)
    ensures r.Err? ==> r.error.field in Split(ts, {':'})
  {
    match ParseFields(Split(ts, {':'}))
    case Err(e) => Err(e)
    case Ok(v) => Ok(Combine(v))
  }

  /** The fields convert exactly when `float()` accepts each, and then to the values it gives. */
  lemma {:induction false} ParseFieldsOk(parts: seq<string>)
    ensures ParseFields(parts).Ok? <==> forall j :: 0 <= j < |parts| ==> ParseField(parts[j]).Some?
    ensures ParseFields(parts).Ok? ==> forall j :: 0 <= j < |parts| ==> ParseField(parts[j]) == Some(ParseFields(parts).value[j])
    decreases |parts|
  {
    if parts != [] {
      ParseFieldsOk(parts[1..]);
      assert forall j :: 0 < j < |parts| ==> parts[j] == parts[1..][j - 1];
      if ParseField(parts[0]).Some? && ParseFields(parts[1..]).Ok? {
        assert ParseFields(parts).value == [ParseField(parts[0]).value] + ParseFields(parts[1..]).value;
      }
    }
  }

  /** When `float()` accepts every field, the conversion gives exactly its values. */
  lemma {:induction false} ParseFieldsValues(parts: seq<string>, vals: seq<real>)
    requires |vals| == |parts|
    requires forall j :: 0 <= j < |parts| ==> ParseField(parts[j]) == Some(vals[j])
    ensures ParseFields(parts) == Ok(vals)
    decreases |parts|
  {
    if parts != [] {
      assert forall j :: 0 <= j < |parts| - 1 ==> parts[1..][j] == parts[j + 1] && vals[1..][j] == vals[j + 1];
      ParseFieldsValues(parts[1..], vals[1..]);
      assert [vals[0]] + vals[1..] == vals;
    }
  }

  /** A field `float()` rejects, after fields it accepts, is the error. */
  lemma {:induction false} ParseFieldsErr(parts: seq<string>, i: nat)
    requires i < |parts| && ParseField(parts[i]).None?
    requires forall j :: 0 <= j < i ==> ParseField(parts[j]).Some?
    ensures ParseFields(parts) == Err(MalformedTimestamp(parts[i]))
    decreases i
  {
    if i > 0 {
      assert forall j :: 0 <= j < i - 1 ==> parts[1..][j] == parts[j + 1];
      ParseFieldsErr(parts[1..], i - 1);
    }
  }

  /** The parse succeeds exactly when `float()` accepts every field. */
  lemma ParseTimestampOk(ts: string)
    ensures ParseTimestamp(ts).Ok? <==> forall i :: 0 <= i < |Split(ts, {':'})| ==> ParseField(Split(ts, {':'})[i]).Some?
  {
    var parts := Split(ts, {':'});
    ParseFieldsOk(parts);
    if ParseTimestamp(ts).Ok? {
      assert ParseFields(parts).Ok?;
    } else {
      assert ParseFields(parts).Err?;
      var j :| 0 <= j < |parts| && ParseField(parts[j]).None?;
      assert ParseField(Split(ts, {':'})[j]).None?;
    }
  }

  /** A failed parse reports the first field `float()` rejects; nothing defaults to 0. */
  lemma ParseTimestampErr(ts: string, i: nat)
    requires i < |Split(ts, {':'})| && ParseField(Split(ts, {':'})[i]).None?
    requires forall j :: 0 <= j < i ==> ParseField(Split(ts, {':'})[j]).Some?
    ensures ParseTimestamp(ts) == Err(MalformedTimestamp(Split(ts, {':'})[i]))
  {
    ParseFieldsErr(Split(ts, {':'}), i);
  }

  /** The clock fields combined by their count: hours, minutes, seconds. */
  function Combine(v: seq<real>): (r: real)
    requires |v| >= 1
    ensures (forall j :: 0 <= j < |v| ==> v[j] >= 0.0) ==> r >= v[0]
    ensures (forall j :: 0 <= j < |v| ==> v[j] >= 0.0) && |v| <= 3 ==> r >= v[|v| - 1]
  {
    if |v| == 3 then v[0] * 3600.0 + v[1] * 60.0 + v[2]
    else if |v| == 2 then v[0] * 60.0 + v[1]
    else v[0]
  }

  /** When the fields `float()` converts are known, the parse is their combination. */
  lemma ParseSplit(ts: string, parts: seq<string>, vals: seq<real>)
    requires Split(ts, {':'}) == parts && |vals| == |parts|
    requires forall j :: 0 <= j < |parts| ==> ParseField(parts[j]) == Some(vals[j])
    ensures ParseTimestamp(ts) == Ok(Combine(vals))
  {
    ParseFieldsValues(parts, vals);
  }

  /** A timestamp with the three fields `h:m:s` is `h*3600 + m*60 + s` seconds. */
  lemma HoursMinutesSeconds(ts: string, h: string, m: string, s: string, hv: real, mv: real, sv: real)
    requires Split(ts, {':'}) == [h, m, s]
    requires ParseField(h) == Some(hv) && ParseField(m) == Some(mv) && ParseField(s) == Some(sv)
    ensures ParseTimestamp(ts) == Ok(hv * 3600.0 + mv * 60.0 + sv)
  {
    var parts, vals := [h, m, s], [hv, mv, sv];
    assert forall j :: 0 <= j < 3 ==> ParseField(parts[j]) == Some(vals[j]) by {
      assert parts[0] == h && parts[1] == m && parts[2] == s;
    }
    ParseSplit(ts, parts, vals);
    CombineThree(hv, mv, sv);
  }

  /** Three fields combine as hours, minutes and seconds. */
  lemma CombineThree(hv: real, mv: real, sv: real)
    ensures Combine([hv, mv, sv]) == hv * 3600.0 + mv * 60.0 + sv
  {
  }

  /** A clock `h:m:s` of three colon-free numbers is `h*3600 + m*60 + s` seconds. */
  lemma Clock(h: string, m: string, s: string, ts: string, hv: real, mv: real, sv: real)
    requires !HasAny(h, {':'}) && !HasAny(m, {':'}) && !HasAny(s, {':'})
    requires ParseField(h) == Some(hv) && ParseField(m) == Some(mv) && ParseField(s) == Some(sv)
    requires ts == h + [':'] + m + [':'] + s
    ensures ParseTimestamp(ts) == Ok(hv * 3600.0 + mv * 60.0 + sv)
  {
    SplitThree(h, m, s, ':');
    HoursMinutesSeconds(ts, h, m, s, hv, mv, sv);
  }

  /** A clock `h:m:s` of three digit strings is `h*3600 + m*60 + s` seconds. */
  lemma DigitClock(h: string, m: string, s: string, ts: string)
    requires AllDigits(h) && AllDigits(m) && AllDigits(s) && h != [] && m != [] && s != []
    requires ts == h + [':'] + m + [':'] + s
    ensures ParseTimestamp(ts).Ok?
    ensures ParseTimestamp(ts).value == DigitsValue(h) as real * 3600.0 + DigitsValue(m) as real * 60.0 + DigitsValue(s) as real
  {
    ThreeDigitFields(h, m, s);
    Clock(h, m, s, ts, DigitsValue(h) as real, DigitsValue(m) as real, DigitsValue(s) as real);
  }

  lemma ThreeDigitFields(h: string, m: string, s: string)
    requires AllDigits(h) && AllDigits(m) && AllDigits(s) && h != [] && m != [] && s != []
    ensures !HasAny(h, {':'}) && !HasAny(m, {':'}) && !HasAny(s, {':'})
    ensures ParseField(h) == Some(DigitsValue(h) as real)
    ensures ParseField(m) == Some(DigitsValue(m) as real)
    ensures ParseField(s) == Some(DigitsValue(s) as real)
  {
    DigitsField(h);
    DigitsField(m);
    DigitsField(s);
  }

  /** A timestamp with the two fields `m:s` is `m*60 + s` seconds. */
  lemma MinutesSeconds(ts: string, m: string, s: string, mv: real, sv: real)
    requires Split(ts, {':'}) == [m, s]
    requires ParseField(m) == Some(mv) && ParseField(s) == Some(sv)
    ensures ParseTimestamp(ts) == Ok(mv * 60.0 + sv)
  {
    var parts, vals := [m, s], [mv, sv];
    assert Combine(vals) == mv * 60.0 + sv;
    assert forall j :: 0 <= j < 2 ==> ParseField(parts[j]) == Some(vals[j]) by {
      assert parts[0] == m && parts[1] == s;
    }
    ParseSplit(ts, parts, vals);
  }

  /** A timestamp with no `:` is the number of seconds `float()` reads from it. */
  lemma BareSeconds(ts: string, sv: real)
    requires !HasAny(ts, {':'})
    requires ParseField(ts) == Some(sv)
    ensures ParseTimestamp(ts) == Ok(sv)
  {
    SplitSingle(ts, {':'});
    ParseSplit(ts, [ts], [sv]);
  }

  /** A timestamp with exactly four fields, all numbers, is its first field alone. */
  lemma FourFields(ts: string, a: string, b: string, c: string, d: string, av: real, bv: real, cv: real, dv: real)
    requires Split(ts, {':'}) == [a, b, c, d]
    requires ParseField(a) == Some(av) && ParseField(b) == Some(bv)
    requires ParseField(c) == Some(cv) && ParseField(d) == Some(dv)
    ensures ParseTimestamp(ts) == Ok(av)
  {
    var parts, vals := [a, b, c, d], [av, bv, cv, dv];
    assert Combine(vals) == av;
    assert forall j :: 0 <= j < 4 ==> ParseField(parts[j]) == Some(vals[j]) by {
      assert parts[0] == a && parts[1] == b && parts[2] == c && parts[3] == d;
    }
    ParseSplit(ts, parts, vals);
  }

  /** Four colon-free fields joined by colons split back into those four. */
  lemma SplitFour(a: string, b: string, c: string, d: string, ch: char)
    requires !HasAny(a, {ch}) && !HasAny(b, {ch}) && !HasAny(c, {ch}) && !HasAny(d, {ch})
    ensures Split(a + [ch] + (b + [ch] + c + [ch] + d), {ch}) == [a, b, c, d]
  {
    var rest := b + [ch] + c + [ch] + d;
    SplitThree(b, c, d, ch);
    SplitCons(a, ch, rest, {ch});
    assert [a] + [b, c, d] == [a, b, c, d];
  }

  /** A clock of four digit strings `a:b:c:d` is the first field's value alone. */
  lemma DigitFourFields(a: string, b: string, c: string, d: string, ts: string)
    requires AllDigits(a) && AllDigits(b) && AllDigits(c) && AllDigits(d)
    requires a != [] && b != [] && c != [] && d != []
    requires ts == a + [':'] + (b + [':'] + c + [':'] + d)
    ensures ParseTimestamp(ts) == Ok(DigitsValue(a) as real)
  {
    DigitsField(a);
    DigitsField(b);
    DigitsField(c);
    DigitsField(d);
    SplitFour(a, b, c, d, ':');
    FourFields(ts, a, b, c, d, DigitsValue(a) as real, DigitsValue(b) as real, DigitsValue(c) as real, DigitsValue(d) as real);
  }

  /** With four or more fields, all must be numbers, and the value is the first field alone. */
  lemma FourOrMoreFields(ts: string, vals: seq<real>)
    requires |Split(ts, {':'})| >= 4 && |vals| == |Split(ts, {':'})|
    requires forall j :: 0 <= j < |vals| ==> ParseField(Split(ts, {':'})[j]) == Some(vals[j])
    ensures ParseTimestamp(ts) == Ok(vals[0])
  {
    ParseSplit(ts, Split(ts, {':'}), vals);
  }
}

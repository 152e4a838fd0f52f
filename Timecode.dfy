/**
 * The `time_to_seconds` helper that both edit-plan executors nest inside
 * their trim branch: an "H:M:S" text is split on ':' and each of exactly
 * three fields is converted with Python's `float`.
 */
module Timecode {
  import opened Wrappers
  import opened Strings

  datatype TimecodeError =
    | NotANumber(field: string)    // `float(field)` raised ValueError
    | WrongFieldCount(count: nat)  // unpacking into `h, m, s` raised ValueError

  /** The value of the digits after a decimal point: "25" is 0.25. */
  function FractionValue(ds: string): (v: real)
    requires AllDigits(ds)
    ensures 0.0 <= v <= 1.0
  {
    if ds == [] then 0.0 else (DigitValue(ds[0]) as real + FractionValue(ds[1..])) / 10.0
  }

  /** Digits with at most one decimal point and at least one digit, as in "12", "1.5", ".5", "3.". */
  function DecimalValue(body: string): Option<real>
  {
    var parts := Split(body, '.');
    if |parts| == 1 && parts[0] != "" && AllDigits(parts[0]) then
      Some(DigitsValue(parts[0]) as real)
    else if |parts| == 2 && (parts[0] != "" || parts[1] != "") && AllDigits(parts[0]) && AllDigits(parts[1]) then
      Some(DigitsValue(parts[0]) as real + FractionValue(parts[1]))
    else
      None
  }

  /** Python's `float(text)` on plain decimal notation: surrounding whitespace and one sign are allowed. */
  function ParseNumber(text: string): Option<real>
  {
    var u := Strip(text);
    if |u| > 0 && (u[0] == '+' || u[0] == '-') then
      match DecimalValue(u[1..])
      case Some(v) => Some(if u[0] == '-' then -v else v)
      case None => None
    else
      DecimalValue(u)
  }

  /**
   * `h, m, s = map(float, text.split(':'))`, then `h * 3600 + m * 60 + s`.
   * The unpacking pulls at most four values from the lazy `map`, so a
   * non-numeric field among the first four is reported before a wrong count.
   */
  function ToSeconds(text: string): Result<real, TimecodeError>
  {
    FieldsToSeconds(Split(text, ':'))
  }

  /** The conversion and unpacking applied to the pieces of the split. */
  function FieldsToSeconds(f: seq<string>): Result<real, TimecodeError>
    requires |f| >= 1
  {
    Convert(f, 0, [])
  }

  /**
   * Converts the fields from index `i` on, stopping after the fourth one,
   * and reports the first field that is not a number; `vals` holds the
   * values converted so far.  Once the fields run out (or four were
   * converted) the count must be three.
   */
  function Convert(f: seq<string>, i: nat, vals: seq<real>): Result<real, TimecodeError>
    requires i <= |f| && i <= 4 && |vals| == i
    decreases 4 - i
  {
    if i == |f| || i == 4 then
      if |f| != 3 then Err(WrongFieldCount(|f|)) else Ok(Clock(vals[0], vals[1], vals[2]))
    else
      var p := ParseNumber(f[i]);
      if p.None? then Err(NotANumber(f[i])) else Convert(f, i + 1, vals + [p.value])
  }

  function Clock(h: real, m: real, s: real): real
  {
    h * 3600.0 + m * 60.0 + s
  }

  predicate Numeric(t: string)
  {
    ParseNumber(t).Some?
  }

  /** Converting a numeric field moves on to the next one with its value recorded. */
  lemma ConvertNumeric(f: seq<string>, i: nat, vals: seq<real>, v: real)
    requires i < |f| && i < 4 && |vals| == i && ParseNumber(f[i]) == Some(v)
    ensures Convert(f, i, vals) == Convert(f, i + 1, vals + [v])
  {
  }

  /** A field that is not a number stops the conversion with its text. */
  lemma ConvertStops(f: seq<string>, i: nat, vals: seq<real>)
    requires i < |f| && i < 4 && |vals| == i && ParseNumber(f[i]).None?
    ensures Convert(f, i, vals) == Err(NotANumber(f[i]))
  {
  }

  /** Once the fields run out, or four were converted, only the count decides. */
  lemma ConvertEnds(f: seq<string>, i: nat, vals: seq<real>)
    requires i <= |f| && i <= 4 && |vals| == i && (i == |f| || i == 4)
    ensures |f| != 3 ==> Convert(f, i, vals) == Err(WrongFieldCount(|f|))
    ensures |f| == 3 ==> Convert(f, i, vals) == Ok(Clock(vals[0], vals[1], vals[2]))
  {
  }

  /** Three numeric fields give h*3600 + m*60 + s. */
  lemma FieldsThree(f: seq<string>)
    requires |f| == 3 && Numeric(f[0]) && Numeric(f[1]) && Numeric(f[2])
    ensures FieldsToSeconds(f)
      == Ok(Clock(ParseNumber(f[0]).value, ParseNumber(f[1]).value, ParseNumber(f[2]).value))
  {
    var a, b, c := ParseNumber(f[0]).value, ParseNumber(f[1]).value, ParseNumber(f[2]).value;
    ConvertThree(f, a, b, c);
    assert FieldsToSeconds(f) == Convert(f, 0, []);
  }

  lemma ConvertThree(f: seq<string>, a: real, b: real, c: real)
    requires |f| == 3 && ParseNumber(f[0]) == Some(a) && ParseNumber(f[1]) == Some(b) && ParseNumber(f[2]) == Some(c)
    ensures Convert(f, 0, []) == Ok(Clock(a, b, c))
  {
    // The values are built by appending, as the conversion does: equating
    // them with a display `[a, b, c]` next to `Convert` is costly.
    var v1 := [] + [a];
    var v2 := v1 + [b];
    var v3 := v2 + [c];
    ConvertNumeric(f, 0, [], a);
    ConvertNumeric(f, 1, v1, b);
    ConvertNumeric(f, 2, v2, c);
    ConvertEnds(f, 3, v3);
    Appended(a, b, c);
  }

  lemma Appended(a: real, b: real, c: real)
    ensures var v := [] + [a] + [b] + [c]; v[0] == a && v[1] == b && v[2] == c
  {
  }

  /** Any failure to convert a field, or a field count other than three, is an error. */
  lemma {:induction false} ConvertErr(f: seq<string>, i: nat, vals: seq<real>)
    requires i <= |f| && i <= 4 && |vals| == i
    requires |f| != 3 || exists j :: i <= j < |f| && !Numeric(f[j])
    ensures Convert(f, i, vals).Err?
    decreases 4 - i
  {
    if i == |f| || i == 4 {
      ConvertEnds(f, i, vals);
    } else if ParseNumber(f[i]).None? {
      ConvertStops(f, i, vals);
    } else {
      var v := ParseNumber(f[i]).value;
      ConvertNumeric(f, i, vals, v);
      if |f| == 3 {
        var j :| i <= j < |f| && !Numeric(f[j]);
        assert j != i;
      }
      ConvertErr(f, i + 1, vals + [v]);
    }
  }

  /** Exactly three numeric fields give h*3600 + m*60 + s; every other field count is an error. */
  lemma FieldsMeaning(f: seq<string>)
    requires |f| >= 1
    ensures FieldsToSeconds(f).Ok? <==> (|f| == 3 && Numeric(f[0]) && Numeric(f[1]) && Numeric(f[2]))
    ensures FieldsToSeconds(f).Ok? ==>
      FieldsToSeconds(f).value == Clock(ParseNumber(f[0]).value, ParseNumber(f[1]).value, ParseNumber(f[2]).value)
    ensures |f| != 3 ==> FieldsToSeconds(f).Err?
  {
    if |f| == 3 && Numeric(f[0]) && Numeric(f[1]) && Numeric(f[2]) {
      FieldsThree(f);
    } else {
      if |f| == 3 {
        var j := if !Numeric(f[0]) then 0 else if !Numeric(f[1]) then 1 else 2;
        assert !Numeric(f[j]);
      }
      ConvertErr(f, 0, []);
    }
  }

  lemma ToSecondsMeaning(text: string)
    ensures var f := Split(text, ':');
      ToSeconds(text).Ok? <==> (|f| == 3 && Numeric(f[0]) && Numeric(f[1]) && Numeric(f[2]))
    ensures var f := Split(text, ':');
      ToSeconds(text).Ok? ==>
        ToSeconds(text).value == Clock(ParseNumber(f[0]).value, ParseNumber(f[1]).value, ParseNumber(f[2]).value)
    ensures |Split(text, ':')| != 3 ==> ToSeconds(text).Err?
  {
    FieldsMeaning(Split(text, ':'));
  }

  /** Two-digit, zero-padded rendering of a field. */
  function Pad2(n: nat): string
  {
    PadLeft(NatStr(n), 2, '0')
  }

  /** The canonical "HH:MM:SS" rendering of a whole number of seconds. */
  function FromSeconds(t: nat): string
  {
    Pad2(t / 3600) + ":" + Pad2(t / 60 % 60) + ":" + Pad2(t % 60)
  }

  /** A digit string without sign or point parses as its own value. */
  lemma ParseDigits(s: string)
    requires s != [] && AllDigits(s)
    ensures ':' !in s
    ensures ParseNumber(s) == Some(DigitsValue(s) as real)
  {
    assert IsDigit(s[0]) && IsDigit(s[|s| - 1]);
    StripOfStripped(s);
    assert '.' !in s && ':' !in s by {
      forall i | 0 <= i < |s| ensures s[i] != '.' && s[i] != ':' {
        assert IsDigit(s[i]);
      }
    }
    SplitNoSep(s, '.');
    assert DecimalValue(s) == Some(DigitsValue(s) as real);
  }

  lemma ParsePadded(n: nat)
    ensures ':' !in Pad2(n)
    ensures ParseNumber(Pad2(n)) == Some(n as real)
  {
    PadLeftValue(n, 2);
    ParseDigits(Pad2(n));
  }

  lemma ClockArithmetic(t: nat)
    ensures (t / 3600) * 3600 + (t / 60 % 60) * 60 + t % 60 == t
  {
    var m := t / 60;
    assert t == m * 60 + t % 60;
    assert m / 60 == t / 3600 by {
      assert t == (m / 60) * 3600 + (m % 60) * 60 + t % 60;
      assert 0 <= (m % 60) * 60 + t % 60 < 3600;
    }
    assert m == (m / 60) * 60 + m % 60;
  }

  lemma SplitClock(h: string, m: string, s: string)
    requires ':' !in h && ':' !in m && ':' !in s
    ensures Split(h + ":" + m + ":" + s, ':') == [h, m, s]
  {
    var tail := m + [':'] + s;
    assert h + ":" + m + ":" + s == h + [':'] + tail;
    SplitNoSep(s, ':');
    SplitCons(m, ':', s);
    SplitCons(h, ':', tail);
  }

  /** Three colon-free numeric fields joined by ':' parse as h*3600 + m*60 + s. */
  lemma ToSecondsOfFields(h: string, m: string, s: string, a: real, b: real, c: real)
    requires ':' !in h && ':' !in m && ':' !in s
    requires ParseNumber(h) == Some(a) && ParseNumber(m) == Some(b) && ParseNumber(s) == Some(c)
    ensures ToSeconds(h + ":" + m + ":" + s) == Ok(Clock(a, b, c))
  {
    SplitClock(h, m, s);
    ToSecondsBySplit(h + ":" + m + ":" + s, [h, m, s]);
    FieldsThree([h, m, s]);
  }

  lemma ToSecondsBySplit(text: string, f: seq<string>)
    requires Split(text, ':') == f
    ensures ToSeconds(text) == FieldsToSeconds(f)
  {
  }

  /** The canonical rendering of three whole fields parses as h*3600 + m*60 + s. */
  lemma ToSecondsOfPadded(a: nat, b: nat, c: nat)
    ensures ToSeconds(Pad2(a) + ":" + Pad2(b) + ":" + Pad2(c)) == Ok(Clock(a as real, b as real, c as real))
  {
    ParsePadded(a);
    ParsePadded(b);
    ParsePadded(c);
    ToSecondsOfFields(Pad2(a), Pad2(b), Pad2(c), a as real, b as real, c as real);
  }

  /** Hours, minutes and seconds of a whole number of seconds add back up to it. */
  lemma ClockOf(t: nat)
    ensures Clock((t / 3600) as real, (t / 60 % 60) as real, (t % 60) as real) == t as real
  {
    ClockArithmetic(t);
    assert Clock((t / 3600) as real, (t / 60 % 60) as real, (t % 60) as real)
      == ((t / 3600) * 3600 + (t / 60 % 60) * 60 + t % 60) as real;
  }

  /** Whole-second timecodes round-trip: parsing the canonical rendering gives the seconds back. */
  lemma FromSecondsRoundTrip(t: nat)
    ensures ToSeconds(FromSeconds(t)) == Ok(t as real)
  {
    ToSecondsOfPadded(t / 3600, t / 60 % 60, t % 60);
    ClockOf(t);
  }
}

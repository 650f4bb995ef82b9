/** The formatter closures of `create_provider` (src/mainwindow/imp.rs), as a
    closed set of variants: each turns the parsed lines of one metric, plus
    the optional settings parameters, into an optional display string. */
module Formatting {
  import opened Common
  import opened Text
  import opened Numerals

  /** `TemperatureUnit`. */
  datatype TemperatureUnit = Celsius | Fahrenheit

  /** The optional (key, value) parameter list handed to every formatter. */
  type Params = Option<seq<(string, string)>>

  const Degree: char := '\U{00B0}'

  /** `params.iter().any(|i| i == pair)`. */
  function Any(ps: seq<(string, string)>, pair: (string, string)): (r: bool)
    ensures r <==> pair in ps
  {
    if ps == [] then false
    else ps[0] == pair || Any(ps[1..], pair)
  }

  /** The unit a temperature formatter uses: Celsius when
      ("tempformat", "C") is present, else Fahrenheit when ("tempformat", "F")
      is present, else Celsius (also without parameters). */
  function UnitOf(params: Params): (u: TemperatureUnit)
    ensures u == Fahrenheit <==>
              params.Some? && ("tempformat", "F") in params.value && ("tempformat", "C") !in params.value
  {
    match params
    case None => Celsius
    case Some(ps) =>
      if Any(ps, ("tempformat", "C")) then Celsius
      else if Any(ps, ("tempformat", "F")) then Fahrenheit
      else Celsius
  }

  /** The formatter closures, by behaviour. `Temperature(converts)` is the
      unit-aware temperature formatter; only the catalog-0 copy returns its
      Fahrenheit conversion (`converts`), the other copies compute it and
      return the first line unchanged. `UtilizationField(i)` reads field `i`
      of an nvidia-settings "key=value, key=value" line. */
  datatype Formatter =
    | Identity
    | Percentage
    | MemorySize
    | Power
    | Temperature(converts: bool)
    | UtilizationField(field: nat)

  /** The inputs on which a closure does not panic: `input.get(0).unwrap()`
      needs a first line, and the utilization closures index their ", " and
      '=' splits. */
  predicate Accepts(f: Formatter, lines: seq<string>)
  {
    && |lines| >= 1
    && (f.UtilizationField? ==>
          var fields := SplitCommaSpace(lines[0]);
          f.field < |fields| && |Split(fields[f.field], '=')| >= 2)
  }

  /** Power: floor of the reading, displayed without leading zeros, then
      " W"; a reading that does not parse gives `None`. */
  function FormatPower(line: string): (r: Option<string>)
    ensures r.Some? <==> ParseDecimal(line).Some?
    ensures r.Some? ==>
              && |r.value| > 2 && r.value[|r.value| - 2..] == " W"
              && (var digits := r.value[..|r.value| - 2]; |digits| == 1 || digits[0] != '0')
              && var shown := ParseNat(r.value[..|r.value| - 2]);
                 var d := ParseDecimal(line).value;
                 && shown.Some?
                 && shown.value * Pow10(d.scale) <= d.num < (shown.value + 1) * Pow10(d.scale)
  {
    match ParseDecimal(line)
    case None => None
    case Some(d) =>
      var digits := NatToString(Floor(d));
      ParseNatToString(Floor(d));
      assert (digits + " W")[..|digits|] == digits;
      Some(digits + " W")
  }

  /** The catalog-0 Fahrenheit path: floor(t * 9 / 5 + 32), displayed
      without leading zeros, then "°F"; a reading that does not parse gives
      `None`. */
  function FormatFahrenheit(line: string): (r: Option<string>)
    ensures r.Some? <==> ParseDecimal(line).Some?
    ensures r.Some? ==>
              && |r.value| > 2 && r.value[|r.value| - 2..] == [Degree, 'F']
              && (var digits := r.value[..|r.value| - 2]; |digits| == 1 || digits[0] != '0')
              && var shown := ParseNat(r.value[..|r.value| - 2]);
                 var d := ParseDecimal(line).value;
                 && shown.Some? && shown.value >= 32
                 && (shown.value - 32) * (5 * Pow10(d.scale)) <= 9 * d.num
                 && 9 * d.num < (shown.value - 31) * (5 * Pow10(d.scale))
  {
    match ParseDecimal(line)
    case None => None
    case Some(d) =>
      var digits := NatToString(FahrenheitFloor(d));
      ParseNatToString(FahrenheitFloor(d));
      assert (digits + [Degree, 'F'])[..|digits|] == digits;
      Some(digits + [Degree, 'F'])
  }

  /** The temperature closures. Celsius appends the degree sign and 'C' with
      no numeric check. Fahrenheit converts only when `converts` holds;
      otherwise the conversion is discarded and the line comes back as is. */
  function FormatTemperature(line: string, params: Params, converts: bool): (r: Option<string>)
    ensures UnitOf(params) == Celsius ==> r == Some(line + [Degree, 'C'])
    ensures UnitOf(params) == Fahrenheit && !converts ==> r == Some(line)
    ensures UnitOf(params) == Fahrenheit && converts ==> r == FormatFahrenheit(line)
    ensures r.None? ==> UnitOf(params) == Fahrenheit && converts && ParseDecimal(line).None?
  {
    match UnitOf(params)
    case Celsius => Some(line + [Degree, 'C'])
    case Fahrenheit => if converts then FormatFahrenheit(line) else Some(line)
  }

  /** The nvidia-settings utilization closures: field `i` of the ", "-split
      first line, the text of that field from just after its first '=' up to
      the next '=' (or the field's end), then " %". */
  function FormatUtilizationField(line: string, i: nat): (r: string)
    requires var fields := SplitCommaSpace(line);
             i < |fields| && |Split(fields[i], '=')| >= 2
    ensures |r| >= 2 && r[|r| - 2..] == " %"
    ensures '=' !in r
    ensures var field := SplitCommaSpace(line)[i];
            var shown := r[..|r| - 2];
            && Find(field, '=').Some?
            && var after := field[Find(field, '=').value + 1..];
               && |shown| <= |after| && after[..|shown|] == shown
               && (|shown| == |after| || after[|shown|] == '=')
  {
    var field := SplitCommaSpace(line)[i];
    var value := Split(field, '=')[1];
    SplitPiecesFree(field, '=');
    SecondPiece(field, '=');
    FirstPiece(field[Find(field, '=').value + 1..], '=');
    assert (value + " %")[..|value|] == value;
    value + " %"
  }

  /** A formatter applied to parsed lines and the current parameters. */
  function Apply(f: Formatter, lines: seq<string>, params: Params): (r: Option<string>)
    requires Accepts(f, lines)
    ensures f == Identity ==> r == Some(lines[0])
    ensures f == Percentage ==> r == Some(lines[0] + " %")
    ensures f == MemorySize ==> r == Some(lines[0] + " MiB")
    ensures r.None? ==> f == Power || f == Temperature(true)
    ensures r.None? <==> ParseDecimal(lines[0]).None? &&
                           (f == Power || (f == Temperature(true) && UnitOf(params) == Fahrenheit))
  {
    match f
    case Identity => Some(lines[0])
    case Percentage => Some(lines[0] + " %")
    case MemorySize => Some(lines[0] + " MiB")
    case Power => FormatPower(lines[0])
    case Temperature(converts) => FormatTemperature(lines[0], params, converts)
    case UtilizationField(i) => Some(FormatUtilizationField(lines[0], i))
  }

  /** On an nvidia-settings line "k0=v0, k1=v1", possibly followed by more
      ", "-separated fields (`nvidia-settings -t` reports four:
      "graphics=…, memory=…, video=…, PCIe=…"), the utilization closures
      show v0 and v1 with a percent sign. */
  lemma UtilizationFields(k0: string, v0: string, k1: string, v1: string, tail: string, params: Params)
    requires ',' !in k0 && ',' !in v0 && ',' !in k1 && ',' !in v1
    requires '=' !in k0 && '=' !in v0 && '=' !in k1 && '=' !in v1
    requires tail == [] || (|tail| >= 2 && tail[..2] == ", ")
    ensures var line := k0 + "=" + v0 + ", " + k1 + "=" + v1 + tail;
            && Accepts(UtilizationField(0), [line]) && Accepts(UtilizationField(1), [line])
            && Apply(UtilizationField(0), [line], params) == Some(v0 + " %")
            && Apply(UtilizationField(1), [line], params) == Some(v1 + " %")
  {
    var first := k0 + "=" + v0;
    var second := k1 + "=" + v1;
    var line := k0 + "=" + v0 + ", " + k1 + "=" + v1 + tail;
    assert line == first + ", " + (second + tail);
    assert ',' !in first && ',' !in second;
    LeadingFields(first, second, tail);
    var fields := SplitCommaSpace(line);
    assert Split(fields[0], '=') == [k0, v0] by { KeyValue(k0, v0); }
    assert Split(fields[1], '=') == [k1, v1] by { KeyValue(k1, v1); }
  }

  /** The first two ", "-fields of `first, second` followed by an empty
      tail or by more fields. */
  lemma LeadingFields(first: string, second: string, tail: string)
    requires ',' !in first && ',' !in second
    requires tail == [] || (|tail| >= 2 && tail[..2] == ", ")
    ensures var fields := SplitCommaSpace(first + ", " + (second + tail));
            |fields| >= 2 && fields[0] == first && fields[1] == second
  {
    SplitCommaSpaceAppend(first, second + tail);
    if tail == [] {
      assert second + tail == second;
      SplitCommaSpaceNoComma(second);
    } else {
      assert second + tail == second + ", " + tail[2..];
      SplitCommaSpaceAppend(second, tail[2..]);
    }
  }

  /** "k=v" splits on '=' into k and v. */
  lemma KeyValue(k: string, v: string)
    requires '=' !in k && '=' !in v
    ensures Split(k + "=" + v, '=') == [k, v]
  {
    assert k + "=" + v == k + ['='] + v;
    SplitAppend(k, v, '=');
    SplitNoSeparator(k, '=');
    SplitNoSeparator(v, '=');
  }

  /** A reading of 70 under ("tempformat", "F"): the catalog-0 formatter
      shows 158°F, the other copies show the unconverted 70. Without
      parameters it is 70°C. */
  lemma WorkedTemperature()
    ensures Apply(Temperature(true), ["70"], Some([("tempformat", "F")])) == Some("158" + [Degree, 'F'])
    ensures Apply(Temperature(false), ["70"], Some([("tempformat", "F")])) == Some("70")
    ensures Apply(Temperature(true), ["70"], None) == Some("70" + [Degree, 'C'])
  {
    assert UnitOf(Some([("tempformat", "F")])) == Fahrenheit;
    assert Find("70", '.') == None;
    assert DigitsValue("70") == 70 by {
      assert "70"[..1] == "7";
      assert DigitsValue("7") == 7 by { assert "7"[..0] == ""; }
    }
    assert ParseDecimal("70") == Some(Decimal(70, 0));
    assert FahrenheitFloor(Decimal(70, 0)) == 158;
    assert NatToString(158) == "158" by {
      assert NatToString(15) == "15";
    }
  }

  /** A power draw of 12.7 shows as "12 W"; "abc" shows nothing. */
  lemma WorkedPower()
    ensures Apply(Power, ["12.7"], None) == Some("12 W")
    ensures Apply(Power, ["abc"], None) == None
  {
    assert Find("12.7", '.') == Some(2) by {
      assert Find("2.7", '.') == Some(1) by { assert Find(".7", '.') == Some(0); }
    }
    assert "12.7"[..2] == "12" && "12.7"[3..] == "7";
    assert AllDigits("12") && AllDigits("7");
    assert "12" + "7" == "127";
    assert DigitsValue("127") == 127 by {
      assert "127"[..2] == "12";
      assert "12"[..1] == "1";
      assert DigitsValue("1") == 1 by { assert "1"[..0] == ""; }
    }
    assert ParseDecimal("12.7") == Some(Decimal(127, 1));
    assert Floor(Decimal(127, 1)) == 12;
    assert NatToString(12) == "12";
    assert FormatPower("12.7") == Some("12" + " W");
    assert "12" + " W" == "12 W";
    assert Find("abc", '.') == None;
    assert !AllDigits("abc") by { assert !IsDigit("abc"[0]); }
  }
}

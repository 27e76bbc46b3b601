/**
 * relational/parsers.go: request-parameter parsing with defaults. Go's `int` is
 * taken to be 64 bits wide (a 64-bit platform).
 */
module Parsers {
  import opened Wrappers
  import opened Strconv

  /** The outcome of ParseLatLng as far as the model follows it. */
  datatype LatLng =
    | LatLngUnparsed                             // the distinguished "no attempt" error
    | Attempted(rawLat: string, rawLng: string)  // float parsing of the two strings (not modelled)

  /** ParseLatLng: with both parameters empty no parse is attempted. */
  function ParseLatLng(rawLat: string, rawLng: string): (r: LatLng)
    ensures r == LatLngUnparsed <==> rawLat == "" && rawLng == ""
    ensures r.Attempted? ==> r.rawLat == rawLat && r.rawLng == rawLng
  {
    if rawLat == "" && rawLng == "" then LatLngUnparsed else Attempted(rawLat, rawLng)
  }

  /** ParseIntOrDefault: the value of `s` when `strconv.Atoi` accepts it, else `d`. */
  function ParseIntOrDefault(s: string, d: int): (r: int)
    ensures ParseInt(s).Some? ==> r == ParseInt(s).value
    ensures ParseInt(s).None? ==> r == d
  {
    match ParseInt(s)
    case Some(i) => i
    case None => d
  }

  /** ParseInt64OrDefault: the same with `strconv.ParseInt(s, 10, 64)`. */
  function ParseInt64OrDefault(s: string, d: int): (r: int)
    ensures ParseInt(s).Some? ==> r == ParseInt(s).value
    ensures ParseInt(s).None? ==> r == d
  {
    match ParseInt(s)
    case Some(i) => i
    case None => d
  }

  /** An absent parameter (Go's `url.Values.Get` gives "") yields the default. */
  lemma EmptyGivesDefault(d: int)
    ensures ParseIntOrDefault("", d) == d
    ensures ParseInt64OrDefault("", d) == d
  {
  }

  /** Every 64-bit number written in decimal is read back, whatever the default. */
  lemma DecimalIsParsed(n: int, d: int)
    requires InRange64(n)
    ensures ParseIntOrDefault(FormatInt(n), d) == n
    ensures ParseInt64OrDefault(FormatInt(n), d) == n
  {
    ParseFormatRoundTrip(n);
  }

  /** The result is either the default or a 64-bit value actually written in `s`. */
  lemma ResultIsDefaultOrParsed(s: string, d: int)
    ensures ParseIntOrDefault(s, d) == d || (InRange64(ParseIntOrDefault(s, d)) && s != "")
  {
    ParseIntShape(s);
  }

  /** Concrete cases: a sign is accepted, other characters are not. */
  lemma ParseExamples(d: int)
    ensures ParseIntOrDefault("42", d) == 42
    ensures ParseIntOrDefault("-7", d) == -7
    ensures ParseIntOrDefault("+5", d) == 5
    ensures ParseIntOrDefault("4x", d) == d
    ensures ParseIntOrDefault("-", d) == d
  {
    assert DigitsValue("4") == 4;
    assert DigitsValue("42") == 42 by { assert "42"[..1] == "4"; }
    assert DigitsValue("7") == 7;
    assert DigitsValue("5") == 5;
    assert !AllDigits("4x") by { assert !IsDigit("4x"[1]); }
  }
}

/** The CSV sensor decoder that both transport adapters apply to every
    complete line: "<moisture>,<temperature>,<humidity>,<illuminance>",
    four base-10 integers, becomes one sensor reading; anything else is
    dropped. Only the moisture is clamped, to the percent range [0, 100]. */
module SensorDecoder {
  import opened Wrappers
  import opened JsText

  /** One decoded reading as handed to the data handler. The illuminance is
      the raw ADC value, lower meaning brighter. */
  datatype Reading = Reading(moisture: int, temperature: int, humidity: int, illuminance: int)

  /** Math.max(0, Math.min(100, m)). */
  function ClampMoisture(m: int): (r: int)
    ensures 0 <= r <= 100
    ensures 0 <= m <= 100 ==> r == m
    ensures m < 0 ==> r == 0
    ensures m > 100 ==> r == 100
  {
    if 100 < m then 100 else if m < 0 then 0 else m
  }

  /** line.trim().split(","). */
  function Fields(line: string): seq<string> {
    Split(Trim(line), ',')
  }

  /** Whether the line would produce a handler call: exactly four fields,
      none of them NaN under parseInt(_, 10). */
  predicate Decodable(line: string) {
    var parts := Fields(line);
    && |parts| == 4
    && ParseInt(parts[0]).Some? && ParseInt(parts[1]).Some?
    && ParseInt(parts[2]).Some? && ParseInt(parts[3]).Some?
  }

  /** The reading a line decodes to, or None when it is dropped. */
  function DecodeLine(line: string): (r: Option<Reading>)
    ensures r.Some? <==> Decodable(line)
    ensures r.Some? ==>
      var parts := Fields(line);
      && r.value.moisture == ClampMoisture(ParseInt(parts[0]).value)
      && r.value.temperature == ParseInt(parts[1]).value
      && r.value.humidity == ParseInt(parts[2]).value
      && r.value.illuminance == ParseInt(parts[3]).value
  {
    var parts := Fields(line);
    if |parts| == 4 then
      var moisture := ParseInt(parts[0]);
      var temperature := ParseInt(parts[1]);
      var humidity := ParseInt(parts[2]);
      var illuminance := ParseInt(parts[3]);
      if moisture.Some? && temperature.Some? && humidity.Some? && illuminance.Some? then
        Some(Reading(ClampMoisture(moisture.value), temperature.value, humidity.value, illuminance.value))
      else
        None
    else
      None
  }

  /** The emitted moisture is always a percentage. */
  lemma DecodedMoistureInRange(line: string)
    requires DecodeLine(line).Some?
    ensures 0 <= DecodeLine(line).value.moisture <= 100
  {
  }

  /** The line the device prints for a reading: the four values in decimal,
      separated by commas. */
  function EncodeLine(r: Reading): string {
    Join([Decimal(r.moisture), Decimal(r.temperature), Decimal(r.humidity), Decimal(r.illuminance)], ",")
  }

  /** What the decoder needs of a decimal numeral: no comma, and parseInt
      reads it back. */
  lemma DecimalField(n: int)
    ensures ',' !in Decimal(n)
    ensures ParseInt(Decimal(n)) == Some(n)
  {
    DecimalHasNoComma(n);
    ParseIntDecimal(n, "");
    assert Decimal(n) + "" == Decimal(n);
  }

  lemma DecimalHasNoComma(n: int)
    ensures ',' !in Decimal(n)
  {
    var d := NatDecimal(if n < 0 then -n else n);
    assert forall k :: 0 <= k < |d| ==> d[k] != ',';
    assert Decimal(n) == if n < 0 then ['-'] + d else d;
  }

  lemma JoinFour(p0: string, p1: string, p2: string, p3: string, sep: string)
    ensures Join([p0, p1, p2, p3], sep) == p0 + sep + p1 + sep + p2 + sep + p3
  {
    assert [p0, p1, p2, p3][1..] == [p1, p2, p3] && [p1, p2, p3][1..] == [p2, p3];
    assert [p2, p3][1..] == [p3];
    assert Join([p3], sep) == p3;
    assert Join([p2, p3], sep) == p2 + sep + p3;
    assert Join([p1, p2, p3], sep) == p1 + sep + (p2 + sep + p3);
  }

  /** A line of four comma-free fields with no white space at its ends
      decodes field by field. */
  lemma DecodeFourFields(p0: string, p1: string, p2: string, p3: string)
    requires ',' !in p0 && ',' !in p1 && ',' !in p2 && ',' !in p3
    requires |p0| > 0 && !IsWhiteSpace(p0[0])
    requires |p3| > 0 && !IsWhiteSpace(p3[|p3| - 1])
    ensures var a, b, c, d := ParseInt(p0), ParseInt(p1), ParseInt(p2), ParseInt(p3);
      DecodeLine(p0 + "," + p1 + "," + p2 + "," + p3) ==
        if a.Some? && b.Some? && c.Some? && d.Some? then
          Some(Reading(ClampMoisture(a.value), b.value, c.value, d.value))
        else None
  {
    var line := p0 + "," + p1 + "," + p2 + "," + p3;
    JoinFour(p0, p1, p2, p3, ",");
    assert line[0] == p0[0];
    assert line[|line| - 1] == p3[|p3| - 1];
    TrimStartOfNonBlank(line);
    TrimEndOfNonBlank(line);
    SplitJoin([p0, p1, p2, p3], ',');
    assert Fields(line) == [p0, p1, p2, p3];
  }

  /** Round trip: the line printed for any reading decodes to that reading,
      with its moisture clamped to [0, 100]. */
  lemma DecodeEncodeLine(r: Reading)
    ensures DecodeLine(EncodeLine(r)) == Some(r.(moisture := ClampMoisture(r.moisture)))
  {
    var m, t, h, i := Decimal(r.moisture), Decimal(r.temperature), Decimal(r.humidity), Decimal(r.illuminance);
    DecimalField(r.moisture);
    DecimalField(r.temperature);
    DecimalField(r.humidity);
    DecimalField(r.illuminance);
    JoinFour(m, t, h, i, ",");
    DecodeFourFields(m, t, h, i);
  }

  /** The carriage return of a CRLF line ending is trimmed away before the
      line is split. */
  lemma DecodeIgnoresCarriageReturn(line: string)
    ensures DecodeLine(line + "\r") == DecodeLine(line)
  {
    TrimCarriageReturn(line);
  }

  /** A line with any field count other than four is dropped. */
  lemma WrongFieldCountDropped(line: string)
    requires |Fields(line)| != 4
    ensures DecodeLine(line) == None
  {
  }

  /** A blank line, such as the lone "\r" left between two newlines of a CRLF
      stream, trims to "" and splits into one field, so it is dropped. */
  lemma BlankLineDropped(line: string)
    requires AllWhiteSpace(line)
    ensures DecodeLine(line) == None
  {
    TrimStartSkips(line, "");
    assert line + "" == line;
    assert Trim(line) == "";
  }
}

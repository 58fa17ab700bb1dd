/** The pieces of ECMAScript string semantics the device link depends on:
    String.prototype.split with a one-character separator,
    Array.prototype.join, String.prototype.trim, String.prototype.includes and
    the global parseInt with radix 10 (section 19.2.5 of ECMA-262).
    A JavaScript string is a `seq<char>`; a NaN result is `None`. */
module JsText {
  import opened Wrappers

  /** WhiteSpace or LineTerminator (sections 12.2 and 12.3 of ECMA-262):
      the characters that trim removes and parseInt skips. */
  predicate IsWhiteSpace(c: char) {
    || c == '\t' || c == '\U{000B}' || c == '\U{000C}' || c == ' '
    || c == '\U{00A0}' || c == '\U{FEFF}' || c == '\U{1680}'
    || ('\U{2000}' <= c <= '\U{200A}')
    || c == '\U{202F}' || c == '\U{205F}' || c == '\U{3000}'
    || c == '\n' || c == '\r' || c == '\U{2028}' || c == '\U{2029}'
  }

  predicate IsDigit(c: char) {
    '0' <= c <= '9'
  }

  function DigitValue(c: char): (d: nat)
    requires IsDigit(c)
    ensures d < 10
  {
    (c as int) - ('0' as int)
  }

  predicate AllDigits(s: string) {
    forall i :: 0 <= i < |s| ==> IsDigit(s[i])
  }

  predicate AllWhiteSpace(s: string) {
    forall i :: 0 <= i < |s| ==> IsWhiteSpace(s[i])
  }

  // ---------------------------------------------------------------------------
  // split and join

  /** s.split(sep) for a one-character separator: the maximal separator-free
      pieces, in order. */
  function Split(s: string, sep: char): (parts: seq<string>)
    ensures |parts| >= 1
    ensures forall i :: 0 <= i < |parts| ==> sep !in parts[i]
    decreases |s|
  {
    if |s| == 0 then
      [""]
    else
      var rest := Split(s[1..], sep);
      if s[0] == sep then
        [""] + rest
      else
        [[s[0]] + rest[0]] + rest[1..]
  }

  /** n separators give n + 1 pieces. */
  lemma {:induction false} SplitCount(s: string, sep: char)
    ensures |Split(s, sep)| == multiset(s)[sep] + 1
    decreases |s|
  {
    if |s| > 0 {
      SplitCount(s[1..], sep);
      assert s == [s[0]] + s[1..];
    }
  }

  /** parts.join(sep). */
  function Join(parts: seq<string>, sep: string): string {
    if |parts| == 0 then ""
    else if |parts| == 1 then parts[0]
    else parts[0] + sep + Join(parts[1..], sep)
  }

  /** Joining one more piece appends the separator and that piece. */
  lemma {:induction false} JoinSnoc(parts: seq<string>, x: string, sep: string)
    requires |parts| >= 1
    ensures Join(parts + [x], sep) == Join(parts, sep) + sep + x
    decreases |parts|
  {
    if |parts| > 1 {
      JoinSnoc(parts[1..], x, sep);
      assert (parts + [x])[1..] == parts[1..] + [x];
    }
  }

  /** Rejoining the pieces with the separator gives back the string. */
  lemma {:induction false} JoinSplit(s: string, sep: char)
    ensures Join(Split(s, sep), [sep]) == s
    decreases |s|
  {
    if |s| > 0 {
      var rest := Split(s[1..], sep);
      JoinSplit(s[1..], sep);
      assert s == [s[0]] + s[1..];
      if s[0] != sep && |rest| > 1 {
        assert Split(s, sep)[1..] == rest[1..];
      }
    }
  }

  lemma {:induction false} SplitNoSeparator(a: string, sep: char)
    requires sep !in a
    ensures Split(a, sep) == [a]
    decreases |a|
  {
    if |a| > 0 {
      SplitNoSeparator(a[1..], sep);
      assert a == [a[0]] + a[1..];
    }
  }

  lemma {:induction false} SplitAfterPiece(a: string, b: string, sep: char)
    requires sep !in a
    ensures Split(a + [sep] + b, sep) == [a] + Split(b, sep)
    decreases |a|
  {
    if |a| == 0 {
      assert a + [sep] + b == [sep] + b;
      assert (a + [sep] + b)[1..] == b;
    } else {
      SplitAfterPiece(a[1..], b, sep);
      assert (a + [sep] + b)[1..] == a[1..] + [sep] + b;
      assert a == [a[0]] + a[1..];
    }
  }

  /** Splitting a join of separator-free pieces gives back the pieces. */
  lemma {:induction false} SplitJoin(parts: seq<string>, sep: char)
    requires |parts| >= 1
    requires forall i :: 0 <= i < |parts| ==> sep !in parts[i]
    ensures Split(Join(parts, [sep]), sep) == parts
    decreases |parts|
  {
    if |parts| == 1 {
      SplitNoSeparator(parts[0], sep);
    } else {
      SplitJoin(parts[1..], sep);
      SplitAfterPiece(parts[0], Join(parts[1..], [sep]), sep);
      assert parts == [parts[0]] + parts[1..];
    }
  }

  /** Splitting x + y: the complete pieces of x, then the split of x's last
      piece continued by y. */
  lemma {:induction false} SplitAppend(x: string, y: string, sep: char)
    ensures var px := Split(x, sep);
      Split(x + y, sep) == px[..|px| - 1] + Split(px[|px| - 1] + y, sep)
    decreases |x|
  {
    if |x| == 0 {
      assert x + y == y;
    } else {
      var c, x' := x[0], x[1..];
      assert x + y == [c] + (x' + y);
      assert x == [c] + x';
      SplitAppend(x', y, sep);
      if c == sep {
        SplitCons(c, x', sep);
        SplitCons(c, x' + y, sep);
      } else {
        SplitAppendStep(c, x', y, sep);
      }
    }
  }

  lemma SplitCons(c: char, s: string, sep: char)
    ensures var r := Split(s, sep);
      Split([c] + s, sep) == if c == sep then [""] + r else [[c] + r[0]] + r[1..]
  {
    assert ([c] + s)[1..] == s;
  }

  lemma SplitAppendStep(c: char, x': string, y: string, sep: char)
    requires c != sep
    requires var s := Split(x', sep);
      Split(x' + y, sep) == s[..|s| - 1] + Split(s[|s| - 1] + y, sep)
    ensures var px := Split([c] + x', sep);
      Split([c] + x' + y, sep) == px[..|px| - 1] + Split(px[|px| - 1] + y, sep)
  {
    var s := Split(x', sep);
    var r := Split(x' + y, sep);
    var px := Split([c] + x', sep);
    assert px == [[c] + s[0]] + s[1..] by {
      SplitCons(c, x', sep);
    }
    assert Split([c] + x' + y, sep) == [[c] + r[0]] + r[1..] by {
      assert [c] + x' + y == [c] + (x' + y);
      SplitCons(c, x' + y, sep);
    }
    if |s| == 1 {
      assert Split([c] + (x' + y), sep) == Split([c] + s[0] + y, sep) by {
        SplitAppendSinglePiece(c, x', y, sep);
      }
      assert [c] + x' + y == [c] + (x' + y);
      assert px[..|px| - 1] == [] && px[|px| - 1] == [c] + s[0];
    } else {
      SplitAppendManyPieces(c, x', y, sep);
      assert px[|px| - 1] == s[|s| - 1];
    }
  }

  lemma SplitAppendSinglePiece(c: char, x': string, y: string, sep: char)
    requires c != sep
    requires var s := Split(x', sep);
      |s| == 1 && Split(x' + y, sep) == Split(s[0] + y, sep)
    ensures Split([c] + (x' + y), sep) == Split([c] + Split(x', sep)[0] + y, sep)
  {
    var s0 := Split(x', sep)[0];
    assert [c] + s0 + y == [c] + (s0 + y);
  }

  lemma SplitAppendManyPieces(c: char, x': string, y: string, sep: char)
    requires var s := Split(x', sep);
      |s| > 1 && Split(x' + y, sep) == s[..|s| - 1] + Split(s[|s| - 1] + y, sep)
    ensures var s := Split(x', sep); var r := Split(x' + y, sep);
      [[c] + r[0]] + r[1..] == ([[c] + s[0]] + s[1..])[..|s| - 1] + Split(s[|s| - 1] + y, sep)
  {
    var s := Split(x', sep);
    var r := Split(x' + y, sep);
    var tail := Split(s[|s| - 1] + y, sep);
    PiecesAfterHead(c, s, r, tail);
  }

  lemma PiecesAfterHead<T>(c: T, s: seq<seq<T>>, r: seq<seq<T>>, tail: seq<seq<T>>)
    requires |s| > 1 && r == s[..|s| - 1] + tail
    ensures [[c] + r[0]] + r[1..] == ([[c] + s[0]] + s[1..])[..|s| - 1] + tail
  {
    var mid := s[1..|s| - 1];
    assert s[..|s| - 1] == [s[0]] + mid;
    assert r == [s[0]] + (mid + tail);
    assert r[0] == s[0] && r[1..] == mid + tail;
    assert ([[c] + s[0]] + s[1..])[..|s| - 1] == [[c] + s[0]] + mid;
  }

  // ---------------------------------------------------------------------------
  // trim

  /** The string with its leading white space removed. */
  function TrimStart(s: string): (r: string)
    ensures |r| <= |s| && r == s[|s| - |r|..]
    ensures AllWhiteSpace(s[..|s| - |r|])
    ensures |r| > 0 ==> !IsWhiteSpace(r[0])
    decreases |s|
  {
    if |s| > 0 && IsWhiteSpace(s[0]) then TrimStart(s[1..]) else s
  }

  /** The string with its trailing white space removed. */
  function TrimEnd(s: string): (r: string)
    ensures |r| <= |s| && r == s[..|r|]
    ensures AllWhiteSpace(s[|r|..])
    ensures |r| > 0 ==> !IsWhiteSpace(r[|r| - 1])
    decreases |s|
  {
    if |s| > 0 && IsWhiteSpace(s[|s| - 1]) then TrimEnd(s[..|s| - 1]) else s
  }

  /** s.trim(). */
  function Trim(s: string): (r: string)
    ensures |r| <= |s| && NoOuterWhiteSpace(r)
  {
    TrimEnd(TrimStart(s))
  }

  /** r is a middle slice of s with only white space on either side of it. */
  predicate MiddleOf(s: string, r: string) {
    exists i, j ::
      && 0 <= i <= j <= |s| && r == s[i..j]
      && AllWhiteSpace(s[..i]) && AllWhiteSpace(s[j..])
  }

  /** r neither starts nor ends with white space. */
  predicate NoOuterWhiteSpace(r: string) {
    |r| > 0 ==> !IsWhiteSpace(r[0]) && !IsWhiteSpace(r[|r| - 1])
  }

  /** trim keeps the middle of the string and removes exactly the white
      space at both ends. */
  lemma TrimIsCore(s: string)
    ensures MiddleOf(s, Trim(s)) && NoOuterWhiteSpace(Trim(s))
  {
    var t := TrimStart(s);
    var e := TrimEnd(t);
    TrimSlices(s, t, e);
    TrimKeepsEnds(t, e);
  }

  /** A prefix e of a suffix t of s, each cut off by white space, is a
      middle slice of s. */
  lemma TrimSlices(s: string, t: string, e: string)
    requires |t| <= |s| && t == s[|s| - |t|..] && AllWhiteSpace(s[..|s| - |t|])
    requires |e| <= |t| && e == t[..|e|] && AllWhiteSpace(t[|e|..])
    ensures MiddleOf(s, e)
  {
    var i, j := |s| - |t|, |s| - |t| + |e|;
    assert s[j..] == t[|e|..];
    assert e == s[i..j];
  }

  lemma TrimKeepsEnds(t: string, e: string)
    requires |t| > 0 ==> !IsWhiteSpace(t[0])
    requires e == TrimEnd(t)
    ensures NoOuterWhiteSpace(e)
  {
    if |e| > 0 {
      assert e[0] == t[0];
    }
  }

  lemma TrimStartOfNonBlank(s: string)
    requires |s| > 0 && !IsWhiteSpace(s[0])
    ensures TrimStart(s) == s
  {
  }

  lemma TrimEndOfNonBlank(s: string)
    requires |s| > 0 && !IsWhiteSpace(s[|s| - 1])
    ensures TrimEnd(s) == s
  {
  }

  /** Leading white space does not matter to TrimStart. */
  lemma {:induction false} TrimStartSkips(w: string, s: string)
    requires AllWhiteSpace(w)
    ensures TrimStart(w + s) == TrimStart(s)
    decreases |w|
  {
    if |w| > 0 {
      assert (w + s)[1..] == w[1..] + s;
      TrimStartSkips(w[1..], s);
    } else {
      assert w + s == s;
    }
  }

  /** Text after a non-blank string survives TrimStart untouched. */
  lemma {:induction false} TrimStartAppend(s: string, c: char)
    requires !AllWhiteSpace(s)
    ensures TrimStart(s + [c]) == TrimStart(s) + [c]
    decreases |s|
  {
    assert (s + [c])[0] == s[0];
    if IsWhiteSpace(s[0]) {
      var k :| 0 <= k < |s| && !IsWhiteSpace(s[k]);
      assert !IsWhiteSpace(s[1..][k - 1]);
      assert (s + [c])[1..] == s[1..] + [c];
      TrimStartAppend(s[1..], c);
    }
  }

  /** A trailing carriage return is removed with the rest of the trailing
      white space. */
  lemma TrimEndCarriageReturn(s: string)
    ensures TrimEnd(s + "\r") == TrimEnd(s)
  {
    assert (s + "\r")[..|s|] == s;
  }

  /** trim() removes a trailing carriage return, so a CRLF line trims like
      the same line ended by LF alone. */
  lemma TrimCarriageReturn(s: string)
    ensures Trim(s + "\r") == Trim(s)
  {
    if AllWhiteSpace(s) {
      TrimBlank(s);
      BlankCarriageReturn(s);
      TrimBlank(s + "\r");
    } else {
      TrimStartAppend(s, '\r');
      TrimEndCarriageReturn(TrimStart(s));
    }
  }

  lemma TrimBlank(w: string)
    requires AllWhiteSpace(w)
    ensures TrimStart(w) == ""
  {
    TrimStartSkips(w, "");
    assert w + "" == w;
  }

  lemma BlankCarriageReturn(w: string)
    requires AllWhiteSpace(w)
    ensures AllWhiteSpace(w + "\r")
  {
    assert forall i :: 0 <= i < |w| ==> (w + "\r")[i] == w[i];
  }


  // ---------------------------------------------------------------------------
  // includes

  /** t occurs in s starting at index i. */
  predicate OccursAt(s: string, t: string, i: int) {
    0 <= i && i + |t| <= |s| && s[i..i + |t|] == t
  }

  /** s.includes(t): t occurs in s at some position. */
  predicate Includes(s: string, t: string) {
    exists i | 0 <= i <= |s| - |t| :: OccursAt(s, t, i)
  }

  /** A string that lacks some character of t cannot include t. */
  lemma ExcludesByChar(s: string, t: string, j: nat)
    requires j < |t| && t[j] !in s
    ensures !Includes(s, t)
  {
    forall i | 0 <= i <= |s| - |t|
      ensures !OccursAt(s, t, i)
    {
      assert s[i..i + |t|][j] == s[i + j];
    }
  }

  /** t occurs in a + t + b. */
  lemma IncludesMiddle(a: string, t: string, b: string)
    ensures Includes(a + t + b, t)
  {
    assert OccursAt(a + t + b, t, |a|);
  }

  // ---------------------------------------------------------------------------
  // parseInt(s, 10)

  /** The longest prefix of s made of decimal digits. */
  function DigitPrefix(s: string): (z: string)
    ensures |z| <= |s| && z == s[..|z|] && AllDigits(z)
    ensures |z| < |s| ==> !IsDigit(s[|z|])
    decreases |s|
  {
    if |s| > 0 && IsDigit(s[0]) then [s[0]] + DigitPrefix(s[1..]) else ""
  }

  /** The mathematical value of a string of decimal digits. */
  function DigitsValue(z: string): (v: nat)
    requires AllDigits(z)
    decreases |z|
  {
    if |z| == 0 then 0 else 10 * DigitsValue(z[..|z| - 1]) + DigitValue(z[|z| - 1])
  }

  /** The digits at the start of u as a number, or None when u does not
      start with a digit. */
  function ParseDigits(u: string): (r: Option<nat>)
    ensures r.Some? <==> |u| > 0 && IsDigit(u[0])
  {
    var z := DigitPrefix(u);
    if |z| == 0 then None else Some(DigitsValue(z))
  }

  /** Steps 4 to 16 of parseInt on the string without its leading white
      space: an optional sign, then the digits. */
  function ParseSigned(t: string): Option<int> {
    if |t| > 0 && t[0] == '-' then
      match ParseDigits(t[1..])
      case None => None
      case Some(v) => Some(-(v as int))
    else if |t| > 0 && t[0] == '+' then
      match ParseDigits(t[1..])
      case None => None
      case Some(v) => Some(v)
    else
      match ParseDigits(t)
      case None => None
      case Some(v) => Some(v)
  }

  /** parseInt(s, 10): skip leading white space, take an optional sign, then
      the longest run of decimal digits; NaN (None) when that run is empty.
      With radix 10 no "0x" prefix is recognised. */
  function ParseInt(s: string): Option<int> {
    ParseSigned(TrimStart(s))
  }

  // ---------------------------------------------------------------------------
  // decimal rendering (Number.prototype.toString for integers), the inverse

  function DigitChar(d: nat): (c: char)
    requires d < 10
    ensures IsDigit(c) && DigitValue(c) == d
  {
    ('0' as int + d) as char
  }

  /** The shortest decimal numeral of n. */
  function NatDecimal(n: nat): (s: string)
    ensures |s| > 0 && AllDigits(s)
  {
    if n < 10 then [DigitChar(n)] else NatDecimal(n / 10) + [DigitChar(n % 10)]
  }

  /** The decimal numeral of an integer, with a '-' when it is negative. */
  function Decimal(n: int): (s: string)
    ensures |s| > 0 && !IsWhiteSpace(s[0]) && !IsWhiteSpace(s[|s| - 1])
  {
    if n < 0 then ['-'] + NatDecimal(-n) else NatDecimal(n)
  }

  lemma {:induction false} NatDecimalValue(n: nat)
    ensures DigitsValue(NatDecimal(n)) == n
  {
    if n >= 10 {
      NatDecimalValue(n / 10);
      var s := NatDecimal(n);
      assert s[..|s| - 1] == NatDecimal(n / 10);
    }
  }

  lemma {:induction false} DigitPrefixOf(d: string, junk: string)
    requires AllDigits(d)
    requires |junk| > 0 ==> !IsDigit(junk[0])
    ensures DigitPrefix(d + junk) == d
    decreases |d|
  {
    if |d| > 0 {
      assert (d + junk)[1..] == d[1..] + junk;
      DigitPrefixOf(d[1..], junk);
      assert d == [d[0]] + d[1..];
    } else {
      assert d + junk == junk;
    }
  }

  /** A leading zero does not change a digit string's value. */
  lemma {:induction false} LeadingZeroValue(d: string)
    requires AllDigits(d)
    ensures AllDigits("0" + d) && DigitsValue("0" + d) == DigitsValue(d)
    decreases |d|
  {
    if |d| > 0 {
      LeadingZeroValue(d[..|d| - 1]);
      assert ("0" + d)[..|d|] == "0" + d[..|d| - 1];
    }
  }

  /** The digits of d, read up to the first non-digit after them. */
  lemma ParseDigitsOf(d: string, junk: string)
    requires |d| > 0 && AllDigits(d)
    requires |junk| > 0 ==> !IsDigit(junk[0])
    ensures ParseDigits(d + junk) == Some(DigitsValue(d))
  {
    DigitPrefixOf(d, junk);
  }

  /** parseInt reads a run of digits and stops at the first non-digit. */
  lemma ParseIntDigits(d: string, junk: string)
    requires |d| > 0 && AllDigits(d)
    requires |junk| > 0 ==> !IsDigit(junk[0])
    ensures ParseInt(d + junk) == Some(DigitsValue(d))
  {
    var s := d + junk;
    assert s[0] == d[0];
    TrimStartOfNonBlank(s);
    ParseDigitsOf(d, junk);
    ParseSignedUnsigned(s);
  }

  lemma ParseSignedUnsigned(t: string)
    requires |t| > 0 && IsDigit(t[0])
    ensures ParseSigned(t) == ParseDigits(t)
  {
  }

  /** ... and negates it after a '-' sign. */
  lemma ParseIntNegative(d: string, junk: string, v: nat)
    requires |d| > 0 && AllDigits(d) && v == DigitsValue(d)
    requires |junk| > 0 ==> !IsDigit(junk[0])
    ensures ParseInt(['-'] + (d + junk)) == Some(-(v as int))
  {
    ParseDigitsOf(d, junk);
    NegativeSign(d + junk, v);
  }

  /** ... and keeps it after a '+' sign. */
  lemma ParseIntPlus(d: string, junk: string, v: nat)
    requires |d| > 0 && AllDigits(d) && v == DigitsValue(d)
    requires |junk| > 0 ==> !IsDigit(junk[0])
    ensures ParseInt(['+'] + (d + junk)) == Some(v as int)
  {
    ParseDigitsOf(d, junk);
    var s := ['+'] + (d + junk);
    assert s[1..] == d + junk;
    TrimStartOfNonBlank(s);
  }

  lemma NegativeSign(u: string, v: nat)
    requires ParseDigits(u) == Some(v)
    ensures ParseInt(['-'] + u) == Some(-(v as int))
  {
    var s := ['-'] + u;
    assert s[1..] == u;
    TrimStartOfNonBlank(s);
    ParseSignedNegative(s, v);
  }

  lemma ParseSignedNegative(t: string, v: nat)
    requires |t| > 0 && t[0] == '-' && ParseDigits(t[1..]) == Some(v)
    ensures ParseSigned(t) == Some(-(v as int))
  {
  }

  /** Leading white space is skipped. */
  lemma ParseIntSkipsWhiteSpace(w: string, s: string)
    requires AllWhiteSpace(w)
    ensures ParseInt(w + s) == ParseInt(s)
  {
    TrimStartSkips(w, s);
  }

  /** parseInt is NaN exactly when, after the white space and an optional
      sign, no decimal digit follows. */
  lemma ParseIntNaN(s: string)
    ensures ParseInt(s).None? <==>
      var t := TrimStart(s);
      var k := if |t| > 0 && (t[0] == '+' || t[0] == '-') then 1 else 0;
      !(k < |t| && IsDigit(t[k]))
  {
    var t := TrimStart(s);
    if |t| > 0 && (t[0] == '+' || t[0] == '-') {
      assert ParseDigits(t[1..]).Some? <==> 1 < |t| && IsDigit(t[1]);
    }
  }

  /** parseInt inverts decimal rendering, whatever non-digit text follows. */
  lemma ParseIntDecimal(n: int, junk: string)
    requires |junk| > 0 ==> !IsDigit(junk[0])
    ensures ParseInt(Decimal(n) + junk) == Some(n)
  {
    if n < 0 {
      NatDecimalValue(-n);
      ParseIntNegative(NatDecimal(-n), junk, -n);
      assert Decimal(n) + junk == ['-'] + (NatDecimal(-n) + junk);
    } else {
      NatDecimalValue(n);
      ParseIntDigits(NatDecimal(n), junk);
    }
  }

  /** The values the device link relies on: "050" is 50, " 25" is 25,
      "12abc" is 12, "-10" is -10, and "" and "abc" are NaN. */
  lemma ParseIntExamples()
    ensures ParseInt("050") == Some(50)
    ensures ParseInt(" 25") == Some(25)
    ensures ParseInt("12abc") == Some(12)
    ensures ParseInt("-10") == Some(-10)
    ensures ParseInt("") == None
    ensures ParseInt("abc") == None
  {
    ParseIntLeadingZeroExample();
    ParseIntWhiteSpaceExample();
    ParseIntJunkExample();
    ParseIntSignExample();
    ParseIntNaNExample();
  }

  lemma ParseIntNaNExample()
    ensures ParseInt("") == None
    ensures ParseInt("abc") == None
  {
    TrimStartOfNonBlank("abc");
    assert DigitPrefix("abc") == "";
  }

  lemma DecimalExamples()
    ensures Decimal(50) == "50" && Decimal(25) == "25" && Decimal(12) == "12"
    ensures Decimal(-10) == "-10"
  {
    assert NatDecimal(5) == "5" && NatDecimal(2) == "2" && NatDecimal(1) == "1";
  }

  lemma ParseIntLeadingZeroExample()
    ensures ParseInt("050") == Some(50)
  {
    assert "50"[..1] == "5" && "5"[..0] == "";
    assert DigitsValue("50") == 50;
    LeadingZeroValue("50");
    assert "0" + "50" == "050" && "050" + "" == "050";
    ParseIntDigits("050", "");
  }

  lemma ParseIntWhiteSpaceExample()
    ensures ParseInt(" 25") == Some(25)
  {
    DecimalExamples();
    ParseIntDecimal(25, "");
    assert Decimal(25) + "" == "25";
    assert " 25" == " " + "25";
    ParseIntSkipsWhiteSpace(" ", "25");
  }

  lemma ParseIntJunkExample()
    ensures ParseInt("12abc") == Some(12)
  {
    DecimalExamples();
    ParseIntDecimal(12, "abc");
    assert Decimal(12) + "abc" == "12abc";
  }

  lemma ParseIntSignExample()
    ensures ParseInt("-10") == Some(-10)
  {
    DecimalExamples();
    ParseIntDecimal(-10, "");
    assert Decimal(-10) + "" == "-10";
  }
}

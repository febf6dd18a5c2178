/**
 * The standard-library text operations the engine relies on: splitting a stream
 * with std::getline, std::stoi and std::to_string, on ASCII text.
 */
module Text {
  import opened Wrappers

  /** Position of the first d in s, or |s| when there is none. */
  function IndexOf(s: string, d: char): (k: nat)
    ensures k <= |s|
    ensures k < |s| ==> s[k] == d
    ensures forall i :: 0 <= i < k ==> s[i] != d
  {
    if s == [] then 0
    else if s[0] == d then 0
    else 1 + IndexOf(s[1..], d)
  }

  /**
   * The fields repeated std::getline(stream, field, d) calls produce: each read
   * stops at (and consumes) the next d; a read that finds no character left
   * fails, so an empty input gives no field and a trailing d adds no empty field.
   */
  function Split(s: string, d: char): (fields: seq<string>)
    decreases |s|
  {
    if s == [] then []
    else
      var k := IndexOf(s, d);
      if k == |s| then [s] else [s[..k]] + Split(s[k + 1..], d)
  }

  /** The fields joined back with d between them. */
  function Join(fields: seq<string>, d: char): (s: string)
  {
    if fields == [] then []
    else if |fields| == 1 then fields[0]
    else fields[0] + [d] + Join(fields[1..], d)
  }

  /** No field contains the delimiter. */
  lemma {:induction false} SplitFieldsLackDelimiter(s: string, d: char)
    ensures forall i :: 0 <= i < |Split(s, d)| ==> d !in Split(s, d)[i]
    decreases |s|
  {
    if s != [] {
      var k := IndexOf(s, d);
      if k < |s| {
        SplitFieldsLackDelimiter(s[k + 1..], d);
      }
    }
  }

  lemma JoinCons(head: string, tail: seq<string>, d: char)
    requires tail != []
    ensures Join([head] + tail, d) == head + [d] + Join(tail, d)
  {
    assert ([head] + tail)[1..] == tail;
  }

  /**
   * Splitting loses nothing but a trailing delimiter: joining the fields gives back
   * the input, less its last character when that is the delimiter.
   */
  lemma {:induction false} JoinSplit(s: string, d: char)
    ensures s != [] && s[|s| - 1] == d ==> Join(Split(s, d), d) + [d] == s
    ensures !(s != [] && s[|s| - 1] == d) ==> Join(Split(s, d), d) == s
    decreases |s|
  {
    if s != [] {
      var k := IndexOf(s, d);
      if k < |s| {
        var head := s[..k];
        var rest := s[k + 1..];
        assert s == head + [d] + rest;
        if rest != [] {
          JoinSplit(rest, d);
          JoinCons(head, Split(rest, d), d);
          assert rest[|rest| - 1] == s[|s| - 1];
        }
      }
    }
  }

  predicate IsDigit(c: char)
  {
    '0' <= c <= '9'
  }

  /** The characters std::isspace accepts in the C locale. */
  predicate IsSpace(c: char)
  {
    c == ' ' || c == '\t' || c == '\n' || c == '\r' || c == '\U{B}' || c == '\U{C}'
  }

  function DigitValue(c: char): (v: nat)
    requires IsDigit(c)
    ensures v < 10
  {
    (c as int) - ('0' as int)
  }

  function DigitChar(v: nat): (c: char)
    requires v < 10
    ensures IsDigit(c) && DigitValue(c) == v
  {
    (('0' as int) + v) as char
  }

  /** Length of the longest prefix of s made of characters satisfying the test. */
  function CountWhile(s: string, digits: bool): (k: nat)
    ensures k <= |s|
    ensures forall i :: 0 <= i < k ==> if digits then IsDigit(s[i]) else IsSpace(s[i])
    ensures k < |s| ==> !(if digits then IsDigit(s[k]) else IsSpace(s[k]))
  {
    if s == [] then 0
    else if (if digits then IsDigit(s[0]) else IsSpace(s[0])) then 1 + CountWhile(s[1..], digits)
    else 0
  }

  /** The value of a string of decimal digits, most significant first. */
  function DigitsValue(s: string): (v: nat)
    requires forall i :: 0 <= i < |s| ==> IsDigit(s[i])
  {
    if s == [] then 0 else 10 * DigitsValue(s[..|s| - 1]) + DigitValue(s[|s| - 1])
  }

  const INT_MIN: int := -0x8000_0000
  const INT_MAX: int := 0x7FFF_FFFF

  /** The exceptions std::stoi throws. */
  datatype ParseError = InvalidArgument | OutOfRange

  /**
   * std::stoi in base 10: skip leading white space, take an optional sign and the
   * longest run of digits, ignore whatever follows. No digit at all is
   * std::invalid_argument; a value outside int is std::out_of_range.
   */
  function ParseInt(field: string): (r: Result<int, ParseError>)
    ensures r.Ok? ==> INT_MIN <= r.value <= INT_MAX
  {
    var rest := field[CountWhile(field, false)..];
    var negative := rest != [] && rest[0] == '-';
    var unsigned := if rest != [] && (rest[0] == '-' || rest[0] == '+') then rest[1..] else rest;
    var n := CountWhile(unsigned, true);
    if n == 0 then Err(InvalidArgument)
    else
      var magnitude: int := DigitsValue(unsigned[..n]);
      var v: int := if negative then -magnitude else magnitude;
      if v < INT_MIN || v > INT_MAX then Err(OutOfRange) else Ok(v)
  }

  /** Decimal digits of a natural number, without leading zeros. */
  function Digits(n: nat): (s: string)
    ensures |s| > 0 && forall i :: 0 <= i < |s| ==> IsDigit(s[i])
  {
    if n < 10 then [DigitChar(n)] else Digits(n / 10) + [DigitChar(n % 10)]
  }

  lemma {:induction false} DigitsValueOfDigits(n: nat)
    ensures DigitsValue(Digits(n)) == n
  {
    if n >= 10 {
      DigitsValueOfDigits(n / 10);
      var s := Digits(n);
      assert s[..|s| - 1] == Digits(n / 10);
    }
  }

  /** std::to_string of an int: a minus sign for negative values, then the digits. */
  function IntToString(n: int): (s: string)
  {
    if n < 0 then "-" + Digits(-n) else Digits(n)
  }

  /** std::stoi reads back what std::to_string wrote. */
  lemma IntToStringRoundTrip(n: int)
    requires INT_MIN <= n <= INT_MAX
    ensures ParseInt(IntToString(n)) == Ok(n)
  {
    var s := IntToString(n);
    var d := if n < 0 then Digits(-n) else Digits(n);
    assert CountWhile(s, false) == 0;
    assert CountWhile(d, true) == |d|;
    assert d[..|d|] == d;
    DigitsValueOfDigits(if n < 0 then -n else n);
    if n < 0 {
      assert s[1..] == d;
    }
  }
}

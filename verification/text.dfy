/**
 * The string and number primitives of the Go standard library that the
 * client relies on: decimal formatting (strconv.FormatInt), decimal parsing
 * (strconv.Atoi), strings.Split / strings.Join, strings.TrimSpace and
 * case conversion.
 */
module Text {
  import opened Wrappers

  // ---------------------------------------------------------------------
  // Characters
  // ---------------------------------------------------------------------

  predicate IsDigit(c: char) { '0' <= c <= '9' }

  predicate AllDigits(s: string) { forall i :: 0 <= i < |s| ==> IsDigit(s[i]) }

  function DigitChar(d: nat): (c: char)
    requires d < 10
    ensures IsDigit(c)
  {
    (('0' as int) + d) as char
  }

  function DigitValue(c: char): (d: nat)
    requires IsDigit(c)
    ensures d < 10 && DigitChar(d) == c
  {
    c as int - '0' as int
  }

  /** unicode.IsSpace: the Latin-1 white space and the Unicode space separators. */
  predicate IsSpace(c: char) {
    var u := c as int;
    u == 0x20 || (0x09 <= u <= 0x0D) || u == 0x85 || u == 0xA0
    || u == 0x1680 || (0x2000 <= u <= 0x200A) || u == 0x2028 || u == 0x2029
    || u == 0x202F || u == 0x205F || u == 0x3000
  }

  function LowerChar(c: char): (r: char)
    ensures !('A' <= r <= 'Z')
    ensures IsDigit(c) ==> r == c
  {
    if 'A' <= c <= 'Z' then (c as int + 32) as char else c
  }

  /** strings.ToLower, restricted to the ASCII letters. */
  function ToLower(s: string): (r: string)
    ensures |r| == |s|
    ensures forall i :: 0 <= i < |s| ==> r[i] == LowerChar(s[i])
  {
    seq(|s|, i requires 0 <= i < |s| => LowerChar(s[i]))
  }

  /** strings.EqualFold, restricted to the ASCII letters. */
  predicate EqualFold(a: string, b: string) {
    ToLower(a) == ToLower(b)
  }

  lemma ToLowerIdempotent(s: string)
    ensures ToLower(ToLower(s)) == ToLower(s)
  {
  }

  // ---------------------------------------------------------------------
  // strings.TrimSpace
  // ---------------------------------------------------------------------

  function TrimLeft(s: string): (r: string)
    ensures |r| <= |s| && r == s[|s| - |r|..]
    ensures r == [] || !IsSpace(r[0])
    ensures forall i :: 0 <= i < |s| - |r| ==> IsSpace(s[i])
  {
    if |s| > 0 && IsSpace(s[0]) then TrimLeft(s[1..]) else s
  }

  function TrimRight(s: string): (r: string)
    ensures |r| <= |s| && r == s[..|r|]
    ensures r == [] || !IsSpace(r[|r| - 1])
    ensures forall i :: |r| <= i < |s| ==> IsSpace(s[i])
  {
    if |s| > 0 && IsSpace(s[|s| - 1]) then TrimRight(s[..|s| - 1]) else s
  }

  /** r occurs in s at offset i. */
  predicate InfixAt(r: string, s: string, i: int) {
    0 <= i <= |s| - |r| && r == s[i..i + |r|]
  }

  /** The longest infix of s that neither starts nor ends with white space,
      obtained by removing only white space from both ends. */
  function TrimSpace(s: string): (r: string)
    ensures r == [] || (!IsSpace(r[0]) && !IsSpace(r[|r| - 1]))
    ensures exists i :: (InfixAt(r, s, i)
                         && (forall k :: 0 <= k < i ==> IsSpace(s[k]))
                         && (forall k :: i + |r| <= k < |s| ==> IsSpace(s[k])))
  {
    var left := TrimLeft(s);
    var r := TrimRight(left);
    var i := |s| - |left|;
    assert InfixAt(r, s, i);
    r
  }

  // ---------------------------------------------------------------------
  // strconv.Quote (the %q verb)
  // ---------------------------------------------------------------------

  function HexDigit(d: nat): (c: char)
    requires d < 16
  {
    if d < 10 then DigitChar(d) else (('a' as int) + d - 10) as char
  }

  predicate IsHexDigit(c: char) { IsDigit(c) || 'a' <= c <= 'f' }

  function HexValue(c: char): (d: nat)
    requires IsHexDigit(c)
    ensures d < 16 && HexDigit(d) == c
  {
    if IsDigit(c) then DigitValue(c) else c as int - 'a' as int + 10
  }

  /** A control character of ASCII: below the space, or DEL. */
  predicate IsControl(c: char) { c as int < 0x20 || c as int == 0x7F }

  /** The escape letter strconv uses for a control character that has one
      (\a \b \f \n \r \t \v), or None. */
  function EscapeLetter(c: char): Option<char>
  {
    var u := c as int;
    if u == 0x07 then Some('a') else if u == 0x08 then Some('b')
    else if u == 0x0C then Some('f') else if u == 0x0A then Some('n')
    else if u == 0x0D then Some('r') else if u == 0x09 then Some('t')
    else if u == 0x0B then Some('v') else None
  }

  /** How strconv.Quote writes one character: a backslash before '"' and
      '\', a letter escape or \xNN (lower-case hex) for a control
      character, and every other character as itself. */
  function QuoteChar(c: char): (r: string)
    ensures |r| >= 1
    ensures '"' in r ==> r == ['\\', '"']
  {
    if c == '"' || c == '\\' then ['\\', c]
    else if !IsControl(c) then [c]
    else match EscapeLetter(c)
      case Some(l) => ['\\', l]
      case None => ['\\', 'x', HexDigit(c as int / 16), HexDigit(c as int % 16)]
  }

  function QuoteBody(s: string): string
  {
    if s == [] then "" else QuoteChar(s[0]) + QuoteBody(s[1..])
  }

  /** strconv.Quote: the escaped text between double quotes, which
      unquotes back to the argument. */
  function Quote(s: string): (r: string)
    ensures |r| >= 2 && r[0] == '"' && r[|r| - 1] == '"'
    ensures UnquoteBody(r[1..|r| - 1]) == Some(s)
  {
    QuoteRoundTrip(s);
    var r := "\"" + QuoteBody(s) + "\"";
    assert r[1..|r| - 1] == QuoteBody(s);
    r
  }

  /** The inverse of QuoteBody (strconv.Unquote restricted to the escapes
      Quote writes for ASCII): None on a bare '"' or an unknown escape. */
  function UnquoteBody(t: string): Option<string>
    decreases |t|
  {
    if t == [] then Some("")
    else if t[0] == '"' then None
    else if t[0] != '\\' then Prepend(t[0], UnquoteBody(t[1..]))
    else if |t| < 2 then None
    else if t[1] == '"' || t[1] == '\\' then Prepend(t[1], UnquoteBody(t[2..]))
    else if t[1] == 'x' then
      if |t| >= 4 && IsHexDigit(t[2]) && IsHexDigit(t[3])
      then Prepend((HexValue(t[2]) * 16 + HexValue(t[3])) as char, UnquoteBody(t[4..]))
      else None
    else match LetterEscaped(t[1])
      case Some(c) => Prepend(c, UnquoteBody(t[2..]))
      case None => None
  }

  function Prepend(c: char, o: Option<string>): Option<string>
  {
    if o.Some? then Some([c] + o.value) else None
  }

  /** The control character an escape letter stands for. */
  function LetterEscaped(l: char): (r: Option<char>)
    ensures r.Some? ==> EscapeLetter(r.value) == Some(l)
  {
    if l == 'a' then Some(7 as char) else if l == 'b' then Some(8 as char)
    else if l == 'f' then Some(12 as char) else if l == 'n' then Some(10 as char)
    else if l == 'r' then Some(13 as char) else if l == 't' then Some(9 as char)
    else if l == 'v' then Some(11 as char) else None
  }

  /** Unquoting undoes the escaping of one character in front of any text. */
  lemma UnquoteChar(c: char, t: string)
    ensures UnquoteBody(QuoteChar(c) + t) == Prepend(c, UnquoteBody(t))
  {
    var q := QuoteChar(c);
    if c == '"' || c == '\\' {
      assert (q + t)[2..] == t;
    } else if !IsControl(c) {
      assert (q + t)[1..] == t;
    } else if EscapeLetter(c).Some? {
      assert (q + t)[2..] == t;
      assert LetterEscaped(EscapeLetter(c).value) == Some(c);
    } else {
      var u := c as int;
      assert u < 0x80;
      assert (q + t)[4..] == t;
      assert HexValue(HexDigit(u / 16)) == u / 16 && HexValue(HexDigit(u % 16)) == u % 16;
    }
  }

  /** Quoting is invertible, so distinct arguments give distinct texts. */
  lemma {:induction false} QuoteRoundTrip(s: string)
    ensures UnquoteBody(QuoteBody(s)) == Some(s)
  {
    if s != [] {
      QuoteRoundTrip(s[1..]);
      UnquoteChar(s[0], QuoteBody(s[1..]));
      assert [s[0]] + s[1..] == s;
    }
  }

  // ---------------------------------------------------------------------
  // strings.Split and strings.Join on a one-character separator
  // ---------------------------------------------------------------------

  /** strings.Split(s, sep): the pieces between occurrences of sep; the
      empty string gives one empty piece. */
  function Split(s: string, sep: char): (r: seq<string>)
    ensures |r| >= 1
    ensures forall i :: 0 <= i < |r| ==> sep !in r[i]
  {
    if s == [] then [""]
    else
      var rest := Split(s[1..], sep);
      if s[0] == sep then [""] + rest else [[s[0]] + rest[0]] + rest[1..]
  }

  /** strings.Join(parts, sep). */
  function Join(parts: seq<string>, sep: char): string
  {
    if |parts| == 0 then ""
    else if |parts| == 1 then parts[0]
    else parts[0] + [sep] + Join(parts[1..], sep)
  }

  /** Joining the pieces of a split gives back the original string. */
  lemma {:induction false} JoinSplit(s: string, sep: char)
    ensures Join(Split(s, sep), sep) == s
  {
    if s != [] {
      var rest := Split(s[1..], sep);
      JoinSplit(s[1..], sep);
      if s[0] == sep {
        assert Split(s, sep) == [""] + rest;
        assert ([""] + rest)[1..] == rest;
      } else {
        var r := Split(s, sep);
        assert r == [[s[0]] + rest[0]] + rest[1..];
        if |rest| == 1 {
          assert r == [[s[0]] + rest[0]];
        } else {
          assert r[1..] == rest[1..];
          assert Join(rest, sep) == rest[0] + [sep] + Join(rest[1..], sep);
        }
      }
    }
  }

  /** A string free of the separator is a single piece. */
  lemma {:induction false} SplitNoSep(s: string, sep: char)
    requires sep !in s
    ensures Split(s, sep) == [s]
  {
    if s != [] {
      SplitNoSep(s[1..], sep);
      assert Split(s, sep) == [[s[0]] + s[1..]];
      assert [s[0]] + s[1..] == s;
    }
  }

  /** Splitting distributes over a separator occurrence. */
  lemma {:induction false} SplitAppend(a: string, b: string, sep: char)
    ensures Split(a + [sep] + b, sep) == Split(a, sep) + Split(b, sep)
  {
    if a == [] {
      assert a + [sep] + b == [sep] + b;
      assert ([sep] + b)[1..] == b;
    } else {
      assert (a + [sep] + b)[1..] == a[1..] + [sep] + b;
      SplitAppend(a[1..], b, sep);
    }
  }

  /** Splitting a join of separator-free pieces recovers the pieces. */
  lemma {:induction false} SplitJoin(parts: seq<string>, sep: char)
    requires |parts| >= 1
    requires forall i :: 0 <= i < |parts| ==> sep !in parts[i]
    ensures Split(Join(parts, sep), sep) == parts
  {
    if |parts| == 1 {
      SplitNoSep(parts[0], sep);
    } else {
      SplitJoin(parts[1..], sep);
      SplitAppend(parts[0], Join(parts[1..], sep), sep);
      SplitNoSep(parts[0], sep);
    }
  }

  // ---------------------------------------------------------------------
  // Decimal numbers: strconv.FormatInt(n, 10) and strconv.Atoi
  // ---------------------------------------------------------------------

  const MinInt64: int := -0x8000_0000_0000_0000
  const MaxInt64: int := 0x7FFF_FFFF_FFFF_FFFF

  /** Go's int (64 bits on the platforms the client targets) and int64. */
  predicate IsInt64(n: int) { MinInt64 <= n <= MaxInt64 }

  /** The decimal digits of n, most significant first, without leading zeros. */
  function NatToDigits(n: nat): (r: string)
    ensures |r| >= 1 && AllDigits(r)
    ensures r[0] == '0' ==> n == 0
  {
    if n < 10 then [DigitChar(n)] else NatToDigits(n / 10) + [DigitChar(n % 10)]
  }

  /** The value of a string of decimal digits. */
  function DigitsToNat(s: string): nat
    requires AllDigits(s)
  {
    if s == [] then 0 else DigitsToNat(s[..|s| - 1]) * 10 + DigitValue(s[|s| - 1])
  }

  lemma {:induction false} DigitsRoundTrip(n: nat)
    ensures DigitsToNat(NatToDigits(n)) == n
  {
    if n >= 10 {
      var s := NatToDigits(n);
      assert s[..|s| - 1] == NatToDigits(n / 10);
      DigitsRoundTrip(n / 10);
    }
  }

  /** strconv.FormatInt(n, 10): a minus sign for negative numbers, then the
      decimal digits of the magnitude. */
  function FormatInt(n: int): (r: string)
    ensures |r| >= 1 && (n < 0) == (r[0] == '-')
    ensures n < 0 ==> r[1..] == NatToDigits(-n)
    ensures n >= 0 ==> r == NatToDigits(n)
  {
    if n < 0 then "-" + NatToDigits(-n) else NatToDigits(n)
  }

  /** strconv.Atoi: an optional sign followed by at least one decimal digit
      (leading zeros allowed), whose value fits in a 64-bit int. */
  function Atoi(s: string): (r: Option<int>)
    ensures r.Some? ==> IsInt64(r.value)
    ensures r.Some? ==> |s| > 0 && (IsDigit(s[0]) || s[0] == '-' || s[0] == '+')
  {
    var signed := |s| > 0 && (s[0] == '-' || s[0] == '+');
    var body := if signed then s[1..] else s;
    if body == [] || !AllDigits(body) then None
    else
      var v: int := if signed && s[0] == '-' then -(DigitsToNat(body) as int) else DigitsToNat(body);
      if IsInt64(v) then Some(v) else None
  }

  /** Parsing the decimal rendering of any 64-bit integer gives it back. */
  lemma AtoiFormatInt(n: int)
    requires IsInt64(n)
    ensures Atoi(FormatInt(n)) == Some(n)
  {
    var s := FormatInt(n);
    if n < 0 {
      var body := NatToDigits(-n);
      DigitsRoundTrip(-n);
      assert s == "-" + body && s[1..] == body;
      assert AllDigits(body) && DigitsToNat(body) == -n;
    } else {
      DigitsRoundTrip(n);
      assert s == NatToDigits(n) && IsDigit(s[0]);
    }
  }

  /** A digit-only string parses to its value when it is small enough. */
  lemma AtoiDigits(s: string)
    requires s != [] && AllDigits(s) && DigitsToNat(s) <= MaxInt64
    ensures Atoi(s) == Some(DigitsToNat(s))
  {
  }
}

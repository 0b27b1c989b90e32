/** The Python string built-ins the server and the RPC layer depend on:
    `int(s)` on a `str`, `str.upper()`, `s.split(sep)[0]` and `repr(s)`. */
module PyText {
  import opened Wrappers

  /** The white space of `str.isspace()`. */
  predicate IsSpace(c: char) {
    ('\t' <= c <= '\r') || ('\U{001C}' <= c <= ' ') || c == '\U{0085}' || c == '\U{00A0}' ||
    c == '\U{1680}' || ('\U{2000}' <= c <= '\U{200A}') || c == '\U{2028}' || c == '\U{2029}' ||
    c == '\U{202F}' || c == '\U{205F}' || c == '\U{3000}'
  }

  /** The white space `int()` skips around a number: among ASCII characters only
      tab, line feed, vertical tab, form feed, carriage return and space (the
      separators U+001C to U+001F are refused), and every non-ASCII
      `str.isspace()` character. */
  predicate IntSpace(c: char) {
    ('\t' <= c <= '\r') || c == ' ' || (c > '\U{007F}' && IsSpace(c))
  }

  function StripLeft(s: string): string {
    if |s| > 0 && IntSpace(s[0]) then StripLeft(s[1..]) else s
  }

  function StripRight(s: string): string {
    if |s| > 0 && IntSpace(s[|s| - 1]) then StripRight(s[..|s| - 1]) else s
  }

  /** `StripRight` removes only white space, from the end. */
  lemma {:induction false} StripRightRemovesSpace(s: string)
    ensures StripRight(s) <= s
    ensures forall i :: |StripRight(s)| <= i < |s| ==> IntSpace(s[i])
    decreases |s|
  {
    if |s| > 0 && IntSpace(s[|s| - 1]) {
      StripRightRemovesSpace(s[..|s| - 1]);
    }
  }

  /** The text `int()` reads: `s` without its leading and trailing `IntSpace`. */
  function Strip(s: string): string {
    StripRight(StripLeft(s))
  }

  predicate IsDigit(c: char) {
    '0' <= c <= '9'
  }

  function DigitValue(c: char): (d: nat)
    requires IsDigit(c)
    ensures d < 10
  {
    c as int - '0' as int
  }

  function DigitChar(d: nat): (c: char)
    requires d < 10
    ensures IsDigit(c) && DigitValue(c) == d
  {
    ('0' as int + d) as char
  }

  /** The digit runs base-10 `int()` accepts: ASCII digits, where a single
      underscore may stand between two digits. */
  predicate IsDigitRun(s: string) {
    |s| > 0 && IsDigit(s[0]) && IsRunTail(s[1..])
  }

  /** What may follow the first digit of a run: digits, each possibly preceded
      by one underscore. */
  predicate IsRunTail(s: string)
    decreases |s|
  {
    || s == []
    || (IsDigit(s[0]) && IsRunTail(s[1..]))
    || (|s| >= 2 && s[0] == '_' && IsDigit(s[1]) && IsRunTail(s[2..]))
  }

  /** The value of the digits of `s`, read in base 10; underscores are skipped. */
  function RunValue(s: string): nat {
    if s == [] then 0
    else if IsDigit(s[|s| - 1]) then RunValue(s[..|s| - 1]) * 10 + DigitValue(s[|s| - 1])
    else RunValue(s[..|s| - 1])
  }

  /** CPython's default limit on the number of decimal digits `int()` reads
      and `str()` writes (`sys.get_int_max_str_digits()`, Python 3.11 and 3.10.7 on). */
  const MAX_STR_DIGITS: nat := 4300

  /** The number of digits in `s`, underscores not counted. */
  function DigitCount(s: string): nat {
    if s == [] then 0
    else DigitCount(s[..|s| - 1]) + (if IsDigit(s[|s| - 1]) then 1 else 0)
  }

  /** `int(s)` for a `str` in base 10: None where Python raises ValueError,
      including for more than `MAX_STR_DIGITS` digits. */
  function ParseInt(s: string): Option<int> {
    var t := Strip(s);
    if |t| > 0 && (t[0] == '+' || t[0] == '-') then
      var body := t[1..];
      if IsDigitRun(body) && DigitCount(body) <= MAX_STR_DIGITS then
        var magnitude: int := RunValue(body);
        Some(if t[0] == '-' then -magnitude else magnitude)
      else None
    else if IsDigitRun(t) && DigitCount(t) <= MAX_STR_DIGITS then Some(RunValue(t))
    else None
  }

  /** The decimal digits of `n`, most significant first, without leading zeros. */
  function Digits(n: nat): (r: string)
    ensures |r| > 0
    ensures forall i :: 0 <= i < |r| ==> IsDigit(r[i])
    decreases n
  {
    if n < 10 then [DigitChar(n)] else Digits(n / 10) + [DigitChar(n % 10)]
  }

  /** `str(n)` for an `int`. */
  function DecimalString(n: int): string {
    if n < 0 then "-" + Digits(-n) else Digits(n)
  }

  lemma {:induction false} DigitsAreRunTail(s: string)
    requires forall i :: 0 <= i < |s| ==> IsDigit(s[i])
    ensures IsRunTail(s)
    decreases |s|
  {
    if s != [] {
      DigitsAreRunTail(s[1..]);
    }
  }

  lemma {:induction false} DigitsValue(n: nat)
    ensures IsDigitRun(Digits(n)) && RunValue(Digits(n)) == n && DigitCount(Digits(n)) == |Digits(n)|
    decreases n
  {
    var r := Digits(n);
    DigitsAreRunTail(r[1..]);
    if n >= 10 {
      DigitsValue(n / 10);
      assert r[..|r| - 1] == Digits(n / 10);
    }
  }

  lemma StripUnspaced(s: string)
    requires s == [] || (!IntSpace(s[0]) && !IntSpace(s[|s| - 1]))
    ensures Strip(s) == s
  {
  }

  /** `int(str(n)) == n` for every integer whose decimal text is within the
      digit limit (beyond it, `str(n)` itself raises ValueError). */
  lemma ParseDecimalString(n: int)
    requires |Digits(if n < 0 then -n else n)| <= MAX_STR_DIGITS
    ensures ParseInt(DecimalString(n)) == Some(n)
  {
    if n < 0 {
      ParseNegative(-n);
    } else {
      ParseDigits(n);
    }
  }

  lemma ParseDigits(n: nat)
    requires |Digits(n)| <= MAX_STR_DIGITS
    ensures ParseInt(Digits(n)) == Some(n)
  {
    var s := Digits(n);
    DigitsValue(n);
    DigitIsNotSpace(s[0]);
    DigitIsNotSpace(s[|s| - 1]);
    StripUnspaced(s);
  }

  lemma ParseNegative(n: nat)
    requires |Digits(n)| <= MAX_STR_DIGITS
    ensures ParseInt("-" + Digits(n)) == Some(-(n as int))
  {
    var s := "-" + Digits(n);
    DigitsValue(n);
    DigitIsNotSpace(s[|s| - 1]);
    StripUnspaced(s);
    assert s[1..] == Digits(n);
  }

  lemma DigitIsNotSpace(c: char)
    requires IsDigit(c)
    ensures !IntSpace(c)
  {
  }

  /** A token that starts with two hyphens, such as an option name, is not an integer. */
  lemma OptionIsNotInt(s: string)
    requires |s| >= 2 && s[0] == '-' && s[1] == '-'
    ensures ParseInt(s).None?
  {
    var t := Strip(s);
    assert StripLeft(s) == s;
    StripRightRemovesSpace(s);
    if |t| > 0 && (t[0] == '+' || t[0] == '-') {
      assert t[1..][0] == '-';
    }
  }

  /** `int()` does not skip the ASCII separators U+001C to U+001F, which
      `str.isspace()` counts as white space. */
  lemma SeparatorIsNotIntSpace(c: char, digits: string)
    requires '\U{001C}' <= c <= '\U{001F}'
    ensures IsSpace(c) && ParseInt([c] + digits).None?
  {
    var s := [c] + digits;
    assert StripLeft(s) == s;
    StripRightRemovesSpace(s);
  }

  function UpperChar(c: char): char {
    if 'a' <= c <= 'z' then (c as int - 32) as char else c
  }

  /** `s.upper()` on the ASCII letters. */
  function Upper(s: string): (r: string)
    ensures |r| == |s|
  {
    seq(|s|, i requires 0 <= i < |s| => UpperChar(s[i]))
  }

  /** `s.split(sep)[0]` for a one-character separator: the longest prefix of `s`
      that does not contain `sep`. */
  function BeforeFirst(s: string, sep: char): (r: string)
    ensures r <= s
    ensures sep !in r
    ensures |r| < |s| ==> s[|r|] == sep
  {
    if s == [] || s[0] == sep then [] else [s[0]] + BeforeFirst(s[1..], sep)
  }

  function HexDigit(d: nat): char
    requires d < 16
  {
    if d < 10 then DigitChar(d) else ('a' as int + d - 10) as char
  }

  /** How `repr` writes one character inside quotes `q`. */
  function EscapeChar(c: char, q: char): string {
    if c == '\\' then "\\\\"
    else if c == q then ['\\', q]
    else if c == '\t' then "\\t"
    else if c == '\n' then "\\n"
    else if c == '\r' then "\\r"
    else if c < ' ' || c == '\U{007F}' then ['\\', 'x', HexDigit(c as int / 16), HexDigit(c as int % 16)]
    else [c]
  }

  function EscapeAll(s: string, q: char): string {
    if s == [] then [] else EscapeChar(s[0], q) + EscapeAll(s[1..], q)
  }

  /** `repr(s)` for a `str`: single quotes unless `s` holds a single quote and no
      double quote. */
  function Repr(s: string): (r: string)
    ensures |r| >= 2 && r[0] == r[|r| - 1] && (r[0] == '\'' || r[0] == '"')
  {
    var q := if '\'' in s && '"' !in s then '"' else '\'';
    [q] + EscapeAll(s, q) + [q]
  }

  /** A printable ASCII character other than a quote or a backslash, which
      `repr` writes as itself inside single quotes. */
  predicate Plain(c: char) {
    ' ' <= c < '\U{007F}' && c != '\'' && c != '\\'
  }

  lemma {:induction false} EscapePlain(s: string)
    requires forall i :: 0 <= i < |s| ==> Plain(s[i])
    ensures EscapeAll(s, '\'') == s
    decreases |s|
  {
    if s != [] {
      EscapePlain(s[1..]);
    }
  }

  /** A name of printable ASCII characters without quotes or backslashes is
      written between single quotes, unchanged. */
  lemma ReprOfPlain(s: string)
    requires forall i :: 0 <= i < |s| ==> Plain(s[i])
    ensures Repr(s) == "'" + s + "'"
  {
    EscapePlain(s);
  }
}

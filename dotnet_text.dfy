/** The .NET string operations the core relies on (System.String,
    System.Char, System.Text.StringBuilder), stated over `seq<char>`. */
module DotNetText {
  import opened Wrappers
  import opened Models

  /** Char.IsWhiteSpace: the Unicode space, line and paragraph separators,
      plus U+0009..U+000D and U+0085. */
  predicate IsWhiteSpace(ch: char) {
    || ('\t' <= ch <= '\r')
    || ch == ' ' || ch == '\U{0085}' || ch == '\U{00A0}' || ch == '\U{1680}'
    || ('\U{2000}' <= ch <= '\U{200A}')
    || ch == '\U{2028}' || ch == '\U{2029}' || ch == '\U{202F}' || ch == '\U{205F}'
    || ch == '\U{3000}'
  }

  /** String.IsNullOrWhiteSpace. */
  predicate IsNullOrWhiteSpace(s: Option<string>) {
    s.None? || forall i :: 0 <= i < |s.value| ==> IsWhiteSpace(s.value[i])
  }

  /** String.IsNullOrEmpty: whatever is null or empty is also null or blank. */
  predicate IsNullOrEmpty(s: Option<string>)
    ensures IsNullOrEmpty(s) ==> IsNullOrWhiteSpace(s)
  {
    s.None? || s.value == ""
  }

  /** String.IndexOf(char): the first position of `ch`, or -1. */
  function IndexOf(s: string, ch: char): (i: int)
    ensures -1 <= i < |s|
    ensures i == -1 <==> ch !in s
    ensures 0 <= i ==> s[i] == ch && ch !in s[..i]
  {
    if s == [] then -1
    else if s[0] == ch then 0
    else
      var j := IndexOf(s[1..], ch);
      assert s[1..][..if j < 0 then 0 else j] == s[1..1 + if j < 0 then 0 else j];
      if j < 0 then -1 else 1 + j
  }

  /** String.LastIndexOf(char): the last position of `ch`, or -1. */
  function LastIndexOf(s: string, ch: char): (i: int)
    ensures -1 <= i < |s|
    ensures i == -1 <==> ch !in s
    ensures 0 <= i ==> s[i] == ch && ch !in s[i + 1..]
  {
    if s == [] then -1
    else if s[|s| - 1] == ch then |s| - 1
    else
      var j := LastIndexOf(s[..|s| - 1], ch);
      assert s == s[..|s| - 1] + [s[|s| - 1]];
      j
  }

  /** String.Substring(start, length): throws ArgumentOutOfRangeException
      unless the range lies inside the string. */
  function Substring(s: string, start: int, length: int): (r: Result<string, Fault>)
    ensures r.Failure? <==> start < 0 || length < 0 || start + length > |s|
    ensures r.Failure? ==> r.error == ArgumentOutOfRange
    ensures r.Success? ==> |r.value| == length && r.value == s[start..start + length]
  {
    if start < 0 || length < 0 || start + length > |s| then Failure(ArgumentOutOfRange)
    else Success(s[start..start + length])
  }

  predicate IsDigit(ch: char) {
    '0' <= ch <= '9'
  }

  /** The decimal digits of `n`, most significant first, without leading zeros. */
  function DecimalDigits(n: nat): (s: string)
    ensures |s| > 0 && (|s| > 1 ==> s[0] != '0')
    ensures forall i :: 0 <= i < |s| ==> IsDigit(s[i])
  {
    if n < 10 then ['0' + n as char]
    else DecimalDigits(n / 10) + ['0' + (n % 10) as char]
  }

  /** The number a string of decimal digits denotes. */
  function DigitsValue(s: string): nat
    requires forall i :: 0 <= i < |s| ==> IsDigit(s[i])
  {
    if s == [] then 0
    else
      assert IsDigit(s[|s| - 1]);
      10 * DigitsValue(s[..|s| - 1]) + (s[|s| - 1] as int - '0' as int) as nat
  }

  /** Int32.ToString(): an optional minus sign, then the decimal digits. */
  function IntToString(n: int): (s: string)
    ensures |s| > 0
    ensures n < 0 <==> s[0] == '-'
    ensures forall i :: (if n < 0 then 1 else 0) <= i < |s| ==> IsDigit(s[i])
  {
    if n < 0 then "-" + DecimalDigits(-n) else DecimalDigits(n)
  }

  /** Reading the digits back gives the number: the rendering of a
      non-negative number loses nothing. */
  lemma {:induction false} DecimalDigitsRoundTrip(n: nat)
    ensures DigitsValue(DecimalDigits(n)) == n
  {
    if n >= 10 {
      var s := DecimalDigits(n);
      DecimalDigitsRoundTrip(n / 10);
      assert s[..|s| - 1] == DecimalDigits(n / 10);
    }
  }

  /** Different integers render differently. */
  lemma IntToStringInjective(m: int, n: int)
    requires IntToString(m) == IntToString(n)
    ensures m == n
  {
    var s := IntToString(m);
    if m < 0 {
      assert s[1..] == DecimalDigits(-m) == DecimalDigits(-n);
      DecimalDigitsRoundTrip(-m);
      DecimalDigitsRoundTrip(-n);
    } else {
      DecimalDigitsRoundTrip(m);
      DecimalDigitsRoundTrip(n);
    }
  }

  /** The line terminator StringBuilder.AppendLine writes: Environment.NewLine
      as on Linux; the Windows "\r\n" is not modelled. */
  const NewLine: string := "\n"

  /** The text of a builder into which `lines` were appended with AppendLine. */
  function Render(lines: seq<string>): string
  {
    if lines == [] then ""
    else Render(lines[..|lines| - 1]) + lines[|lines| - 1] + NewLine
  }

  /** Rendering distributes over concatenation. */
  lemma {:induction false} RenderAppend(a: seq<string>, b: seq<string>)
    ensures Render(a + b) == Render(a) + Render(b)
    decreases |b|
  {
    if b == [] {
      assert a + b == a;
    } else {
      var b' := b[..|b| - 1];
      assert (a + b)[..|a + b| - 1] == a + b';
      RenderAppend(a, b');
    }
  }

  /** System.Text.StringBuilder, used only through AppendLine and ToString:
      its contents are kept as the lines appended so far, and its text is
      their rendering. */
  class StringBuilder {
    var lines: seq<string>

    constructor ()
      ensures lines == []
    {
      lines := [];
    }

    /** AppendLine(s); AppendLine() is AppendLine(""). */
    method AppendLine(s: string)
      modifies this
      ensures lines == old(lines) + [s]
      ensures ToString() == old(ToString()) + s + NewLine
    {
      lines := lines + [s];
      assert lines[..|lines| - 1] == old(lines);
    }

    function ToString(): (text: string)
      reads this
    {
      Render(lines)
    }
  }
}

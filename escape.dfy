/**
 * `htmlspecialchars` with PHP 8.1's default flags (ENT_QUOTES): the five
 * characters `&`, `"`, `'`, `<` and `>` become character references and
 * everything else is kept, so the result can be shown as inert text.
 */
module HtmlEscape {

  /** The replacement of one character. */
  function EscapeChar(c: char): string
  {
    match c
    case '&' => "&amp;"
    case '"' => "&quot;"
    case '\'' => "&#039;"
    case '<' => "&lt;"
    case '>' => "&gt;"
    case _ => [c]
  }

  /** `htmlspecialchars(s)`: no `<` or `>` survives, and nothing is dropped. */
  function Escape(s: string): (r: string)
    ensures '<' !in r && '>' !in r
    ensures |r| >= |s|
  {
    if s == [] then [] else EscapeChar(s[0]) + Escape(s[1..])
  }

  /** The inverse of `Escape`: reads the five named references back as their characters. */
  function Unescape(s: string): string
    decreases |s|
  {
    if s == [] then []
    else if s[0] != '&' then [s[0]] + Unescape(s[1..])
    else if "&amp;" <= s then "&" + Unescape(s[5..])
    else if "&quot;" <= s then "\"" + Unescape(s[6..])
    else if "&#039;" <= s then "'" + Unescape(s[6..])
    else if "&lt;" <= s then "<" + Unescape(s[4..])
    else if "&gt;" <= s then ">" + Unescape(s[4..])
    else [s[0]] + Unescape(s[1..])
  }

  /** A character other than `&` decodes as itself. */
  lemma UnescapePlain(c: char, rest: string)
    requires c != '&'
    ensures Unescape([c] + rest) == [c] + Unescape(rest)
  {
    assert ([c] + rest)[1..] == rest;
  }

  /** The reference `e`, which stands for `c`, decodes as `c`. */
  lemma UnescapeEntity(e: string, c: char, rest: string)
    requires e == EscapeChar(c) && |e| > 1
    ensures Unescape(e + rest) == [c] + Unescape(rest)
  {
    var t := e + rest;
    assert t[..|e|] == e && t[|e|..] == rest;
    assert t[0] == '&' && t[1] == e[1];
  }

  /** Decoding reads one escaped character back and then goes on with the rest. */
  lemma UnescapeChar(c: char, rest: string)
    ensures Unescape(EscapeChar(c) + rest) == [c] + Unescape(rest)
  {
    if |EscapeChar(c)| > 1 {
      UnescapeEntity(EscapeChar(c), c, rest);
    } else {
      UnescapePlain(c, rest);
    }
  }

  /** Escaping loses nothing: the escaped text decodes to the original. */
  lemma {:induction false} UnescapeEscape(s: string)
    ensures Unescape(Escape(s)) == s
    decreases |s|
  {
    if s != [] {
      UnescapeChar(s[0], Escape(s[1..]));
      UnescapeEscape(s[1..]);
      assert s == [s[0]] + s[1..];
    }
  }

  /** The number a string of decimal digits denotes. */
  function DecimalValue(s: string): int
    decreases |s|
  {
    if s == [] then 0 else DecimalValue(s[..|s| - 1]) * 10 + (s[|s| - 1] as int - '0' as int)
  }

  /** The decimal digits of `n`, without leading zeros, denoting `n`. */
  function Digits(n: nat): (r: string)
    ensures |r| >= 1 && (r[0] == '0' ==> r == "0")
    ensures forall k :: 0 <= k < |r| ==> '0' <= r[k] <= '9'
    ensures DecimalValue(r) == n
    decreases n
  {
    var d := ['0' + (n % 10) as char];
    if n < 10 then d
    else
      var high := Digits(n / 10);
      assert (high + d)[..|high + d| - 1] == high;
      high + d
  }

  /**
   * PHP's conversion of an integer to a string: a `-` exactly for a negative
   * number, then the decimal digits of its magnitude.
   */
  function IntText(i: int): (r: string)
    ensures |r| >= 1
    ensures r[0] == '-' <==> i < 0
    ensures i < 0 ==> DecimalValue(r[1..]) == -i
    ensures i >= 0 ==> DecimalValue(r) == i
    ensures forall k :: (if i < 0 then 1 else 0) <= k < |r| ==> '0' <= r[k] <= '9'
    ensures var digits := if i < 0 then r[1..] else r; |digits| >= 1 && (digits[0] == '0' ==> digits == "0")
  {
    if i < 0 then
      var d := Digits(-i);
      assert ("-" + d)[1..] == d;
      "-" + d
    else Digits(i)
  }
}

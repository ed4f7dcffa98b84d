/**
 * Byte strings as C and Python 2 see them, the decimal numerals `printf`
 * writes for `%lld`, and the quoting CPython 2 applies in `repr` of a `str`.
 */
module Text {
  import opened Wrappers

  /** One C `char`: Python 2 `str` values and directory-entry names are bytes. */
  type Byte = c: char | c as int < 256

  type Bytes = seq<Byte>

  predicate IsDigit(c: char) {
    '0' <= c <= '9'
  }

  predicate AllDigits(s: seq<char>) {
    forall i :: 0 <= i < |s| ==> IsDigit(s[i])
  }

  function DigitValue(c: char): (d: nat)
    requires IsDigit(c)
    ensures d < 10
  {
    c as int - '0' as int
  }

  function DigitChar(d: nat): (c: Byte)
    requires d < 10
    ensures IsDigit(c) && DigitValue(c) == d
  {
    (d + '0' as int) as char
  }

  /** The decimal numeral of `n`, most significant digit first, without leading zeros. */
  function DecimalNat(n: nat): (s: Bytes)
    ensures 1 <= |s|
    ensures AllDigits(s)
    ensures s[0] == '0' ==> n == 0
    decreases n
  {
    if n < 10 then [DigitChar(n)] else DecimalNat(n / 10) + [DigitChar(n % 10)]
  }

  /** Reads a string of digits back as a number. */
  function ParseDecimal(s: seq<char>): (n: nat)
    requires AllDigits(s)
  {
    if s == [] then 0 else 10 * ParseDecimal(s[..|s| - 1]) + DigitValue(s[|s| - 1])
  }

  lemma {:induction false} ParseDecimalOfDecimal(n: nat)
    ensures ParseDecimal(DecimalNat(n)) == n
  {
    if n >= 10 {
      var s := DecimalNat(n);
      assert s[..|s| - 1] == DecimalNat(n / 10);
      ParseDecimalOfDecimal(n / 10);
    }
  }

  /** What `printf("%lld", x)` writes: a minus sign for a negative value, then the digits. */
  function SignedDecimal(x: int): (s: Bytes)
    ensures 1 <= |s|
    ensures '\t' !in s && '\n' !in s
  {
    if x < 0 then ['-'] + DecimalNat(-x) else DecimalNat(x)
  }

  /** Reads the output of `SignedDecimal` back; `None` for anything that is not a numeral. */
  function ParseSigned(s: seq<char>): (r: Option<int>)
  {
    if 2 <= |s| && s[0] == '-' && AllDigits(s[1..]) then Some(-(ParseDecimal(s[1..]) as int))
    else if 1 <= |s| && AllDigits(s) then Some(ParseDecimal(s))
    else None
  }

  lemma {:induction false} ParseSignedOfSigned(x: int)
    ensures ParseSigned(SignedDecimal(x)) == Some(x)
  {
    var s := SignedDecimal(x);
    if x < 0 {
      assert s[1..] == DecimalNat(-x);
      ParseDecimalOfDecimal(-x);
    } else {
      assert IsDigit(s[0]);
      ParseDecimalOfDecimal(x);
    }
  }

  /** The lower-case hexadecimal digit for a value below 16. */
  function HexDigit(d: nat): (c: Byte)
    requires d < 16
    ensures IsDigit(c) || 'a' <= c <= 'f'
  {
    if d < 10 then DigitChar(d) else (d - 10 + 'a' as int) as char
  }

  /** The value of a lower-case hexadecimal digit, if `c` is one. */
  function HexValue(c: char): (d: Option<nat>)
    ensures d.Some? ==> d.value < 16
  {
    if IsDigit(c) then Some(DigitValue(c))
    else if 'a' <= c <= 'f' then Some(c as int - 'a' as int + 10)
    else None
  }

  lemma HexValueOfHexDigit(d: nat)
    requires d < 16
    ensures HexValue(HexDigit(d)) == Some(d)
  {
  }

  /** The quote CPython 2 puts around a `str`: double quotes only when the text has a `'` and no `"`. */
  function ReprQuote(s: Bytes): (q: Byte)
    ensures q == '\'' || q == '"'
    ensures q !in s || ('\'' in s && '"' in s)
  {
    if '\'' in s && '"' !in s then '"' else '\''
  }

  /** A byte `repr` shows as itself: printable ASCII. */
  predicate Printable(c: char) {
    ' ' <= c && c as int < 0x7f
  }

  /** One byte of a `str` inside its `repr`: quote and backslash escaped, controls and high bytes as `\xhh`. */
  function EscapeByte(c: Byte, quote: Byte): (r: Bytes)
    requires quote == '\'' || quote == '"'
    ensures 1 <= |r| <= 4
    ensures |r| == 1 <==> c != quote && c != '\\' && Printable(c)
    ensures |r| == 1 ==> r == [c]
    ensures |r| > 1 ==> r[0] == '\\'
    ensures forall i :: 0 <= i < |r| ==> Printable(r[i])
  {
    if c == quote || c == '\\' then ['\\', c]
    else if c == '\t' then ['\\', 't']
    else if c == '\n' then ['\\', 'n']
    else if c == '\r' then ['\\', 'r']
    else if !Printable(c) then ['\\', 'x', HexDigit(c as int / 16), HexDigit(c as int % 16)]
    else [c]
  }

  /** The text between the quotes of a `repr`: every byte escaped by `EscapeByte`. */
  function Escape(s: Bytes, quote: Byte): (r: Bytes)
    requires quote == '\'' || quote == '"'
    ensures |s| <= |r| <= 4 * |s|
    ensures forall i :: 0 <= i < |r| ==> Printable(r[i])
  {
    if s == [] then [] else EscapeByte(s[0], quote) + Escape(s[1..], quote)
  }

  /** `repr` of a Python 2 `str`. */
  function PyRepr(s: Bytes): (r: Bytes)
    ensures 2 <= |r| && r[0] == r[|r| - 1] == ReprQuote(s)
    ensures forall i :: 0 <= i < |r| ==> Printable(r[i])
  {
    var q := ReprQuote(s);
    [q] + Escape(s, q) + [q]
  }

  function Prepend(c: Byte, rest: Option<Bytes>): (r: Option<Bytes>)
    ensures r.Some? <==> rest.Some?
  {
    if rest.None? then None else Some([c] + rest.value)
  }

  /**
   * Reads the text between the quotes of a `repr` back into the bytes it
   * shows: `None` for a dangling or unknown escape and for an unescaped quote.
   */
  function Unescape(t: Bytes, quote: Byte): (r: Option<Bytes>)
    ensures r.Some? ==> |r.value| <= |t|
    decreases |t|
  {
    if t == [] then Some([])
    else if t[0] == '\\' then
      if |t| < 2 then None
      else if t[1] == 't' then Prepend('\t', Unescape(t[2..], quote))
      else if t[1] == 'n' then Prepend('\n', Unescape(t[2..], quote))
      else if t[1] == 'r' then Prepend('\r', Unescape(t[2..], quote))
      else if t[1] == 'x' then
        if |t| < 4 then None
        else match (HexValue(t[2]), HexValue(t[3]))
          case (Some(hi), Some(lo)) => Prepend((hi * 16 + lo) as char, Unescape(t[4..], quote))
          case _ => None
      else if t[1] == quote || t[1] == '\\' then Prepend(t[1], Unescape(t[2..], quote))
      else None
    else if t[0] == quote then None
    else Prepend(t[0], Unescape(t[1..], quote))
  }

  /** Reading back one escaped byte followed by any text. */
  lemma UnescapeEscapeByte(c: Byte, quote: Byte, rest: Bytes)
    requires quote == '\'' || quote == '"'
    ensures Unescape(EscapeByte(c, quote) + rest, quote) == Prepend(c, Unescape(rest, quote))
  {
    var e := EscapeByte(c, quote);
    var t := e + rest;
    assert t[..|e|] == e && t[|e|..] == rest;
    if |e| == 4 {
      HexValueOfHexDigit(c as int / 16);
      HexValueOfHexDigit(c as int % 16);
      assert ((c as int / 16) * 16 + c as int % 16) as char == c;
    }
  }

  /** The escaped text reads back as the original bytes, so no byte is lost or altered. */
  lemma {:induction false} UnescapeEscape(s: Bytes, quote: Byte)
    requires quote == '\'' || quote == '"'
    ensures Unescape(Escape(s, quote), quote) == Some(s)
  {
    if s != [] {
      UnescapeEscapeByte(s[0], quote, Escape(s[1..], quote));
      UnescapeEscape(s[1..], quote);
      assert [s[0]] + s[1..] == s;
    }
  }

  /**
   * A `repr` reads back as the `str` it shows: the text between the two
   * quotes unescapes to `s`, and so holds no unescaped quote.
   */
  lemma PyReprReadsBack(s: Bytes)
    ensures var r := PyRepr(s); Unescape(r[1..|r| - 1], r[0]) == Some(s)
  {
    var q := ReprQuote(s);
    var r := PyRepr(s);
    assert r[1..|r| - 1] == Escape(s, q);
    UnescapeEscape(s, q);
  }

  /** Printable text without quote or backslash. */
  predicate Plain(s: seq<char>) {
    forall i :: 0 <= i < |s| ==> Printable(s[i]) && s[i] != '\'' && s[i] != '\\'
  }

  lemma {:induction false} EscapePlain(s: Bytes, quote: Byte)
    requires quote == '\'' || quote == '"'
    requires Plain(s) && quote !in s
    ensures Escape(s, quote) == s
  {
    if s != [] {
      assert s[0] in s;
      assert forall c :: c in s[1..] ==> c in s;
      EscapePlain(s[1..], quote);
    }
  }

  /** Plain text is shown between single quotes and otherwise unchanged. */
  lemma PlainRepr(s: Bytes)
    requires Plain(s)
    ensures PyRepr(s) == ['\''] + s + ['\'']
  {
    assert '\'' !in s;
    EscapePlain(s, '\'');
  }
}

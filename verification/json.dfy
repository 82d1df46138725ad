/**
 The JSON-like values that the ticker API returns once decoded, and the two
 textual renderings the flattener uses: Python's `str(x)` of a scalar and
 `json.dumps(x, ensure_ascii=False)` of a whole value.
 */
module JsonValue {
  import opened Strings

  /** A decoded JSON value. An object keeps its fields in dict iteration
      order; numbers are integers only. A decoded dict never repeats a key,
      so a field list that repeats a name stands for no input of the script. */
  datatype Json =
    | Obj(fields: seq<(string, Json)>)
    | Arr(elems: seq<Json>)
    | Str(s: string)
    | Int(i: int)
    | Bool(b: bool)
    | Null

  /** `isinstance(x, (str, int, float, bool, type(None)))`. */
  predicate IsScalar(x: Json)
  {
    !x.Obj? && !x.Arr?
  }

  predicate AllScalar(xs: seq<Json>)
  {
    forall i :: 0 <= i < |xs| ==> IsScalar(xs[i])
  }

  // ---------------------------------------------------------------------
  // Decimal text of integers: `str(n)` and the number form of `json.dumps`.

  predicate IsDigit(ch: char)
  {
    '0' <= ch <= '9'
  }

  function DigitChar(d: nat): (ch: char)
    requires d < 10
    ensures IsDigit(ch)
  {
    ('0' as int + d) as char
  }

  function DigitValue(ch: char): (d: nat)
    requires IsDigit(ch)
    ensures d < 10 && DigitChar(d) == ch
  {
    ch as int - '0' as int
  }

  /** Decimal digits of `n`, most significant first, no leading zeros. */
  function NatText(n: nat): (r: string)
    ensures r != [] && forall k :: 0 <= k < |r| ==> IsDigit(r[k])
  {
    if n < 10 then [DigitChar(n)] else NatText(n / 10) + [DigitChar(n % 10)]
  }

  /** Reference reading of a digit string. */
  function ParseNat(s: string): nat
    requires forall k :: 0 <= k < |s| ==> IsDigit(s[k])
  {
    if s == [] then 0 else ParseNat(s[..|s| - 1]) * 10 + DigitValue(s[|s| - 1])
  }

  lemma {:induction false} NatTextRoundTrip(n: nat)
    ensures ParseNat(NatText(n)) == n
  {
    if n >= 10 {
      var t := NatText(n);
      assert t[..|t| - 1] == NatText(n / 10);
      NatTextRoundTrip(n / 10);
    }
  }

  /** `str(i)` for an `int`: an optional minus sign, then digits. */
  function IntText(i: int): (r: string)
    ensures r != [] && forall k :: 0 <= k < |r| ==> IsDigit(r[k]) || (k == 0 && r[k] == '-')
  {
    if i < 0 then "-" + NatText(-i) else NatText(i)
  }

  function ParseInt(s: string): int
    requires s != [] && forall k :: 0 <= k < |s| ==> IsDigit(s[k]) || (k == 0 && s[k] == '-')
  {
    if s[0] == '-' then -(ParseNat(s[1..]) as int) else ParseNat(s)
  }

  /** The decimal text of an integer reads back as that integer. */
  lemma IntTextRoundTrip(i: int)
    ensures ParseInt(IntText(i)) == i
  {
    if i < 0 {
      assert IntText(i)[1..] == NatText(-i);
      NatTextRoundTrip(-i);
    } else {
      NatTextRoundTrip(i);
    }
  }

  /** How the scalar-list branch of `flatten` renders one element:
      `'' if x is None else str(x)`. */
  function ScalarText(x: Json): string
    requires IsScalar(x)
  {
    match x
    case Null => ""
    case Str(s) => s
    case Int(i) => IntText(i)
    case Bool(b) => if b then "True" else "False"
  }

  /** Only a string element can put a `c` that is not a digit, `-` or a
      letter of `True`/`False` into its rendering. */
  lemma ScalarTextWithout(x: Json, c: char)
    requires IsScalar(x)
    requires !IsDigit(c) && c != '-' && c !in "TrueFals"
    requires x.Str? ==> c !in x.s
    ensures c !in ScalarText(x)
  {
    if x.Int? {
      var t := IntText(x.i);
      assert forall k :: 0 <= k < |t| ==> t[k] != c;
    }
  }

  function ScalarTexts(xs: seq<Json>): seq<string>
    requires AllScalar(xs)
  {
    seq(|xs|, i requires 0 <= i < |xs| => ScalarText(xs[i]))
  }

  // ---------------------------------------------------------------------
  // `json.dumps(x, ensure_ascii=False)` with the default separators
  // `', '` and `': '`.

  /** No C0 control character (below U+0020) occurs in `t`. DEL (U+007F)
      and the C1 controls (U+0080 to U+009F) are not excluded. */
  predicate NoC0Control(t: string)
  {
    forall i :: 0 <= i < |t| ==> t[i] as int >= 0x20
  }

  function HexDigit(d: nat): (ch: char)
    requires d < 16
    ensures ch as int >= 0x20
  {
    "0123456789abcdef"[d]
  }

  function HexValue(ch: char): (d: nat)
    ensures d < 16
  {
    if '0' <= ch <= '9' then ch as int - '0' as int
    else if 'a' <= ch <= 'f' then ch as int - 'a' as int + 10
    else if 'A' <= ch <= 'F' then ch as int - 'A' as int + 10
    else 0
  }

  /** The value of four hexadecimal digits. */
  function HexQuad(a: char, b: char, c: char, d: char): (v: nat)
    ensures v < 0x10000
  {
    HexValue(a) * 4096 + HexValue(b) * 256 + HexValue(c) * 16 + HexValue(d)
  }

  /** The escape `json.dumps` writes for one character of a string: quote,
      backslash and the control characters; with `ensure_ascii=False` every
      other character, non-ASCII included, is written as itself. */
  function EscapeChar(ch: char): (r: string)
    ensures |r| >= 1 && NoC0Control(r)
  {
    if ch == '"' then "\\\""
    else if ch == '\\' then "\\\\"
    else if ch == '\n' then "\\n"
    else if ch == '\r' then "\\r"
    else if ch == '\t' then "\\t"
    else if ch as int == 8 then "\\b"
    else if ch as int == 12 then "\\f"
    else if ch as int < 0x20 then "\\u00" + [HexDigit(ch as int / 16), HexDigit(ch as int % 16)]
    else [ch]
  }

  /** The body of the string literal: every character escaped in turn, so
      the text is never shorter. */
  function Escape(s: string): (r: string)
    ensures |r| >= |s|
  {
    if s == [] then "" else EscapeChar(s[0]) + Escape(s[1..])
  }

  /** The string literal: the escaped body between double quotes. */
  function QuoteString(s: string): (r: string)
    ensures |r| >= 2 && r[0] == '"' && r[|r| - 1] == '"'
  {
    "\"" + Escape(s) + "\""
  }

  lemma NoC0Concat(a: string, b: string)
    requires NoC0Control(a) && NoC0Control(b)
    ensures NoC0Control(a + b)
  {
    forall i | 0 <= i < |a + b| ensures (a + b)[i] as int >= 0x20 {
      if i >= |a| { assert (a + b)[i] == b[i - |a|]; }
    }
  }

  /** No C0 control character survives escaping. */
  lemma {:induction false} EscapeNoC0(s: string)
    ensures NoC0Control(Escape(s))
    ensures NoC0Control(QuoteString(s))
  {
    if s != [] {
      EscapeNoC0(s[1..]);
      NoC0Concat(EscapeChar(s[0]), Escape(s[1..]));
    }
    NoC0Concat("\"", Escape(s));
    NoC0Concat("\"" + Escape(s), "\"");
  }

  /** Reference decoder for the body of a JSON string literal (the escapes of
      section 7 of RFC 8259; a `\u` escape naming a surrogate code point,
      U+D800 to U+DFFF, is kept as text). */
  function Unescape(t: string): string
  {
    if t == [] then ""
    else if t[0] == '\\' && |t| >= 2 then
      var e := t[1];
      if e == 'u' && |t| >= 6 then
        var v := HexQuad(t[2], t[3], t[4], t[5]);
        if v < 0xD800 || 0xE000 <= v then [v as char] + Unescape(t[6..]) else [t[0]] + Unescape(t[1..])
      else [ShortEscape(e)] + Unescape(t[2..])
    else [t[0]] + Unescape(t[1..])
  }

  /** The character a two-character escape `\e` stands for. */
  function ShortEscape(e: char): char
  {
    if e == 'n' then '\n'
    else if e == 'r' then '\r'
    else if e == 't' then '\t'
    else if e == 'b' then 8 as char
    else if e == 'f' then 12 as char
    else e
  }

  lemma UnescapeControl(n: nat, rest: string)
    requires n < 0x20
    ensures Unescape("\\u00" + [HexDigit(n / 16), HexDigit(n % 16)] + rest) == [n as char] + Unescape(rest)
  {
    var t := "\\u00" + [HexDigit(n / 16), HexDigit(n % 16)] + rest;
    assert HexValue(HexDigit(n / 16)) == n / 16;
    assert HexValue(HexDigit(n % 16)) == n % 16;
    assert t[..6] == "\\u00" + [HexDigit(n / 16), HexDigit(n % 16)];
    assert HexQuad(t[2], t[3], t[4], t[5]) == n;
    assert t[6..] == rest;
  }

  lemma UnescapeEscapeChar(ch: char, rest: string)
    ensures Unescape(EscapeChar(ch) + rest) == [ch] + Unescape(rest)
  {
    var t := EscapeChar(ch) + rest;
    if ch as int < 0x20 && ch != '\n' && ch != '\r' && ch != '\t' && ch as int != 8 && ch as int != 12 {
      UnescapeControl(ch as int, rest);
    } else if |EscapeChar(ch)| == 2 {
      assert t[2..] == rest;
    } else {
      assert t[1..] == rest;
    }
  }

  /** Escaping loses nothing: the decoder gives the original string back. */
  lemma {:induction false} UnescapeEscape(s: string)
    ensures Unescape(Escape(s)) == s
  {
    if s != [] {
      UnescapeEscapeChar(s[0], Escape(s[1..]));
      UnescapeEscape(s[1..]);
      assert [s[0]] + s[1..] == s;
    }
  }

  /** `json.dumps(x, ensure_ascii=False)`: never empty. */
  function JsonText(x: Json): (r: string)
    decreases x, 1, 0
    ensures r != []
  {
    match x
    case Null => "null"
    case Bool(b) => if b then "true" else "false"
    case Int(i) => IntText(i)
    case Str(s) => QuoteString(s)
    case Arr(xs) => "[" + ElementsText(xs, |xs|) + "]"
    case Obj(fields) => "{" + MembersText(fields, |fields|) + "}"
  }

  /** The first `n` elements of an array, separated by `", "`. */
  function ElementsText(xs: seq<Json>, n: nat): (r: string)
    requires n <= |xs|
    decreases Arr(xs), 0, n
    ensures r == [] <==> n == 0
  {
    if n == 0 then ""
    else if n == 1 then JsonText(xs[0])
    else ElementsText(xs, n - 1) + ", " + JsonText(xs[n - 1])
  }

  /** The first `n` fields of an object as `"key": value`, separated by `", "`. */
  function MembersText(fields: seq<(string, Json)>, n: nat): (r: string)
    requires n <= |fields|
    decreases Obj(fields), 0, n
    ensures r == [] <==> n == 0
    ensures n > 0 ==> r[0] == '"'
  {
    if n == 0 then ""
    else
      var member := QuoteString(fields[n - 1].0) + ": " + JsonText(fields[n - 1].1);
      if n == 1 then member else MembersText(fields, n - 1) + ", " + member
  }

  /** The text `json.dumps` writes holds no C0 control character. */
  lemma {:induction false} JsonTextNoC0(x: Json)
    decreases x, 1, 0
    ensures NoC0Control(JsonText(x))
  {
    match x
    case Null =>
    case Bool(b) =>
    case Int(i) =>
      var t := IntText(i);
      assert NoC0Control(t) by {
        forall k | 0 <= k < |t| ensures t[k] as int >= 0x20 {
          assert IsDigit(t[k]) || t[k] == '-';
        }
      }
    case Str(s) => EscapeNoC0(s);
    case Arr(xs) =>
      ElementsNoC0(xs, |xs|);
      NoC0Concat("[", ElementsText(xs, |xs|));
      NoC0Concat("[" + ElementsText(xs, |xs|), "]");
    case Obj(fields) =>
      MembersNoC0(fields, |fields|);
      NoC0Concat("{", MembersText(fields, |fields|));
      NoC0Concat("{" + MembersText(fields, |fields|), "}");
  }

  lemma {:induction false} ElementsNoC0(xs: seq<Json>, n: nat)
    requires n <= |xs|
    decreases Arr(xs), 0, n
    ensures NoC0Control(ElementsText(xs, n))
  {
    if n == 1 {
      JsonTextNoC0(xs[0]);
    } else if n > 1 {
      ElementsNoC0(xs, n - 1);
      JsonTextNoC0(xs[n - 1]);
      NoC0Concat(ElementsText(xs, n - 1), ", ");
      NoC0Concat(ElementsText(xs, n - 1) + ", ", JsonText(xs[n - 1]));
    }
  }

  lemma {:induction false} MembersNoC0(fields: seq<(string, Json)>, n: nat)
    requires n <= |fields|
    decreases Obj(fields), 0, n
    ensures NoC0Control(MembersText(fields, n))
  {
    if n > 0 {
      var key := QuoteString(fields[n - 1].0);
      var value := JsonText(fields[n - 1].1);
      EscapeNoC0(fields[n - 1].0);
      JsonTextNoC0(fields[n - 1].1);
      NoC0Concat(key, ": ");
      NoC0Concat(key + ": ", value);
      if n > 1 {
        MembersNoC0(fields, n - 1);
        NoC0Concat(MembersText(fields, n - 1), ", ");
        NoC0Concat(MembersText(fields, n - 1) + ", ", key + ": " + value);
      }
    }
  }

  /** The cell a nested list becomes holds no `\n` and no `\r`. */
  lemma JsonTextNoNewline(x: Json)
    ensures '\n' !in JsonText(x) && '\r' !in JsonText(x)
  {
    JsonTextNoC0(x);
  }

  /** Every character from U+0020 up other than `"` and `\` is written as
      itself, so DEL (U+007F) and the C1 controls, NEL (U+0085) among them,
      reach the text unescaped. */
  lemma KeptAsIs(ch: char)
    requires 0x20 <= ch as int && ch != '"' && ch != '\\'
    ensures JsonText(Str([ch])) == ['"', ch, '"']
  {
    assert Escape([ch]) == [ch];
  }
}

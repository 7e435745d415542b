/** The JSON text the agent writes into an observation turn: Python's
    `json.dumps({"step": "observe", "content": obs})` with its default settings
    (`ensure_ascii`, separators ", " and ": "), and a decoder for the string it
    produces, so that the encoding can be shown to lose nothing. */
module Json {
  import opened Wrappers

  /** Lower-case hexadecimal digit, as `json.dumps` writes them. */
  function HexDigit(d: nat): (c: char)
    requires d < 16
    ensures ('0' <= c <= '9') || ('a' <= c <= 'f')
    ensures HexValue(c) == Some(d)
  {
    if d < 10 then ('0' as int + d) as char else ('a' as int + d - 10) as char
  }

  /** The value of a hexadecimal digit in either case. */
  function HexValue(c: char): (r: Option<nat>)
    ensures r.Some? ==> r.value < 16
  {
    if '0' <= c <= '9' then Some(c as int - '0' as int)
    else if 'a' <= c <= 'f' then Some(c as int - 'a' as int + 10)
    else if 'A' <= c <= 'F' then Some(c as int - 'A' as int + 10)
    else None
  }

  /** Four hexadecimal digits for a 16-bit code unit. */
  function Hex4(n: nat): (r: string)
    requires n < 0x1_0000
    ensures |r| == 4
    ensures forall i :: 0 <= i < 4 ==> ('0' <= r[i] <= '9') || ('a' <= r[i] <= 'f')
  {
    var n1 := n / 16;
    var n2 := n1 / 16;
    [HexDigit(n2 / 16), HexDigit(n2 % 16), HexDigit(n1 % 16), HexDigit(n % 16)]
  }

  /** Reads four hexadecimal digits. */
  function ParseHex4(s: string): (r: Option<nat>)
    requires |s| == 4
    ensures r.Some? ==> r.value < 0x1_0000
  {
    match (HexValue(s[0]), HexValue(s[1]), HexValue(s[2]), HexValue(s[3]))
    case (Some(a), Some(b), Some(c), Some(d)) => Some(((a * 16 + b) * 16 + c) * 16 + d)
    case _ => None
  }

  lemma Hex4RoundTrip(n: nat)
    requires n < 0x1_0000
    ensures ParseHex4(Hex4(n)) == Some(n)
  {
    var n1 := n / 16;
    var n2 := n1 / 16;
    assert n == n1 * 16 + n % 16;
    assert n1 == n2 * 16 + n1 % 16;
    assert n2 == (n2 / 16) * 16 + n2 % 16;
  }

  const Backspace: char := '\U{8}'
  const FormFeed: char := '\U{c}'

  /** How `json.dumps` writes one character inside a string literal: the two
      quoting characters and five control characters get a short escape, the
      printable ASCII range stands for itself, and everything else becomes
      `\uXXXX`, a character beyond the 16-bit range a UTF-16 surrogate pair. */
  function EscapeChar(c: char): string
  {
    if c == '"' then "\\\""
    else if c == '\\' then "\\\\"
    else if c == '\n' then "\\n"
    else if c == '\r' then "\\r"
    else if c == '\t' then "\\t"
    else if c == Backspace then "\\b"
    else if c == FormFeed then "\\f"
    else if ' ' <= c <= '~' then [c]
    else if c as int < 0x1_0000 then "\\u" + Hex4(c as int)
    else
      var m := c as int - 0x1_0000;
      "\\u" + Hex4(0xD800 + m / 0x400) + "\\u" + Hex4(0xDC00 + m % 0x400)
  }

  /** The body of the string literal `json.dumps` writes for `s`; with
      `ensure_ascii` it holds printable ASCII only. */
  function Escape(s: string): (r: string)
    ensures forall i :: 0 <= i < |r| ==> ' ' <= r[i] <= '~'
    decreases |s|
  {
    if s == [] then [] else EscapeChar(s[0]) + Escape(s[1..])
  }

  /** The character a two-character escape `\x` stands for. */
  function ShortEscape(x: char): Option<char>
  {
    if x == '"' then Some('"')
    else if x == '\\' then Some('\\')
    else if x == '/' then Some('/')
    else if x == 'b' then Some(Backspace)
    else if x == 'f' then Some(FormFeed)
    else if x == 'n' then Some('\n')
    else if x == 'r' then Some('\r')
    else if x == 't' then Some('\t')
    else None
  }

  /** The character a `\uXXXX` escape at the front of `s` stands for, reading
      a second `\uXXXX` when the first is a high surrogate. */
  function DecodeUnicodeEscape(s: string): (r: Option<(char, nat)>)
    ensures r.Some? ==> 0 < r.value.1 <= |s|
  {
    if |s| < 6 then None
    else
      match ParseHex4(s[2..6])
      case None => None
      case Some(hi) =>
        if 0xD800 <= hi < 0xDC00 then
          if |s| < 12 || s[6] != '\\' || s[7] != 'u' then None
          else
            match ParseHex4(s[8..12])
            case None => None
            case Some(lo) => CombineSurrogates(hi, lo)
        else if 0xDC00 <= hi < 0xE000 then None
        else Some((hi as char, 6))
  }

  /** The character a UTF-16 surrogate pair stands for. */
  function CombineSurrogates(hi: nat, lo: nat): (r: Option<(char, nat)>)
    requires 0xD800 <= hi < 0xDC00
    ensures r.Some? ==> r.value.1 == 12
  {
    if 0xDC00 <= lo < 0xE000
    then Some(((0x1_0000 + (hi - 0xD800) * 0x400 + (lo - 0xDC00)) as char, 12))
    else None
  }

  /** Decodes the first character of the body of a JSON string literal,
      giving the character and how many input characters it took. */
  function DecodeOne(s: string): (r: Option<(char, nat)>)
    requires s != []
    ensures r.Some? ==> 0 < r.value.1 <= |s|
  {
    if s[0] == '\\' then
      if |s| < 2 then None
      else if s[1] == 'u' then DecodeUnicodeEscape(s)
      else
        match ShortEscape(s[1])
        case None => None
        case Some(c) => Some((c, 2))
    else if s[0] == '"' || s[0] < ' ' then None
    else Some((s[0], 1))
  }

  /** Decodes the body of a JSON string literal; `None` if it is malformed. */
  function Unescape(s: string): Option<string>
    decreases |s|
  {
    if s == [] then Some([])
    else
      match DecodeOne(s)
      case None => None
      case Some((c, k)) =>
        match Unescape(s[k..])
        case None => None
        case Some(t) => Some([c] + t)
  }

  lemma DecodeEscapedChar(c: char, rest: string)
    ensures DecodeOne(EscapeChar(c) + rest) == Some((c, |EscapeChar(c)|))
  {
    if c == '"' || c == '\\' || c == '\n' || c == '\r' || c == '\t' || c == Backspace || c == FormFeed {
      DecodeShortEscape(c, rest);
    } else if ' ' <= c <= '~' {
    } else if c as int < 0x1_0000 {
      DecodeBasicEscape(c, rest);
    } else {
      DecodeSurrogatePair(c, rest);
    }
  }

  lemma DecodeShortEscape(c: char, rest: string)
    requires c == '"' || c == '\\' || c == '\n' || c == '\r' || c == '\t' || c == Backspace || c == FormFeed
    ensures DecodeOne(EscapeChar(c) + rest) == Some((c, |EscapeChar(c)|))
  {
    var s := EscapeChar(c) + rest;
    assert |EscapeChar(c)| == 2 && s[0] == '\\';
  }

  /** Positions inside a `\\uXXXX` escape followed by more text. */
  lemma UnicodeEscapeAt(h: string, t: string)
    requires |h| == 4
    ensures ("\\u" + h + t)[0] == '\\' && ("\\u" + h + t)[1] == 'u'
    ensures ("\\u" + h + t)[2..6] == h && ("\\u" + h + t)[6..] == t
  {
  }

  lemma DecodeBasicEscape(c: char, rest: string)
    requires !(' ' <= c <= '~') && c != '\n' && c != '\r' && c != '\t' && c != Backspace && c != FormFeed
    requires c as int < 0x1_0000
    ensures DecodeOne(EscapeChar(c) + rest) == Some((c, |EscapeChar(c)|))
  {
    var h := Hex4(c as int);
    assert EscapeChar(c) == "\\u" + h;
    var s := EscapeChar(c) + rest;
    assert s == "\\u" + h + rest;
    UnicodeEscapeAt(h, rest);
    Hex4RoundTrip(c as int);
  }

  lemma DecodeSurrogatePair(c: char, rest: string)
    requires c as int >= 0x1_0000
    ensures DecodeOne(EscapeChar(c) + rest) == Some((c, |EscapeChar(c)|))
  {
    var m := c as int - 0x1_0000;
    var hi, lo := 0xD800 + m / 0x400, 0xDC00 + m % 0x400;
    var h, l := Hex4(hi), Hex4(lo);
    assert EscapeChar(c) == "\\u" + h + "\\u" + l;
    PairEscapeAt(h, l, rest);
    var s := "\\u" + h + "\\u" + l + rest;
    DecodePair(s, hi, lo);
    SurrogatesOf(c);
    DecodeOneUnicode(s);
  }

  /** Positions inside two `\\uXXXX` escapes followed by more text. */
  lemma PairEscapeAt(h: string, l: string, t: string)
    requires |h| == 4 && |l| == 4
    ensures var s := "\\u" + h + "\\u" + l + t;
      |s| >= 12 && s[0] == '\\' && s[1] == 'u' && s[2..6] == h &&
      s[6] == '\\' && s[7] == 'u' && s[8..12] == l
  {
    var u: string := "\\u";
    var s := u + h + u + l + t;
    assert s == u + h + (u + l + t);
    UnicodeEscapeAt(h, u + l + t);
    UnicodeEscapeAt(l, t);
    assert s[8..12] == s[6..][2..6];
  }

  lemma DecodeOneUnicode(s: string)
    requires |s| >= 2 && s[0] == '\\' && s[1] == 'u'
    ensures DecodeOne(s) == DecodeUnicodeEscape(s)
  {
  }

  lemma DecodePair(s: string, hi: nat, lo: nat)
    requires 0xD800 <= hi < 0xDC00 && 0xDC00 <= lo < 0xE000
    requires |s| >= 12 && s[6] == '\\' && s[7] == 'u'
    requires s[2..6] == Hex4(hi) && s[8..12] == Hex4(lo)
    ensures DecodeUnicodeEscape(s) == CombineSurrogates(hi, lo)
  {
    Hex4RoundTrip(hi);
    Hex4RoundTrip(lo);
  }

  lemma SurrogatesOf(c: char)
    requires c as int >= 0x1_0000
    ensures CombineSurrogates(0xD800 + (c as int - 0x1_0000) / 0x400,
                              0xDC00 + (c as int - 0x1_0000) % 0x400) == Some((c, 12))
  {
    var m := c as int - 0x1_0000;
    assert 0x1_0000 + (m / 0x400) * 0x400 + m % 0x400 == c as int;
  }

  /** Decoding what `json.dumps` wrote gives back the original text. */
  lemma {:induction false} EscapeRoundTrip(s: string)
    ensures Unescape(Escape(s)) == Some(s)
    decreases |s|
  {
    if s != [] {
      var e := EscapeChar(s[0]);
      DecodeEscapedChar(s[0], Escape(s[1..]));
      assert Escape(s)[|e|..] == Escape(s[1..]);
      EscapeRoundTrip(s[1..]);
      assert [s[0]] + s[1..] == s;
    }
  }

  /** What precedes and follows the escaped tool output in an observation. */
  const ObservePrefix: string := "{\"step\": \"observe\", \"content\": \""
  const ObserveSuffix: string := "\"}"

  /** `json.dumps({"step": "observe", "content": obs})`. */
  function ObservationJson(obs: string): string
  {
    ObservePrefix + Escape(obs) + ObserveSuffix
  }

  /** Reads back the content of an observation written by `ObservationJson`. */
  function ParseObservation(s: string): Option<string>
  {
    if |s| >= |ObservePrefix| + |ObserveSuffix|
       && s[..|ObservePrefix|] == ObservePrefix
       && s[|s| - |ObserveSuffix|..] == ObserveSuffix
    then Unescape(s[|ObservePrefix|..|s| - |ObserveSuffix|])
    else None
  }

  /** The observation text the model is shown carries the tool output exactly. */
  lemma ObservationRoundTrip(obs: string)
    ensures ParseObservation(ObservationJson(obs)) == Some(obs)
  {
    var s := ObservationJson(obs);
    assert s[..|ObservePrefix|] == ObservePrefix;
    assert s[|s| - |ObserveSuffix|..] == ObserveSuffix;
    assert s[|ObservePrefix|..|s| - |ObserveSuffix|] == Escape(obs);
    EscapeRoundTrip(obs);
  }
}

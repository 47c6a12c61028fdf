/**
  Rust's `Debug` formatting of a path (`{path:?}`), used in two of the launcher's abort
  messages (src/main.rs:92-93): the text between double quotes, with backslash,
  double quote, apostrophe and the control characters tab, carriage return, line feed
  and NUL written as escapes.
*/
module DebugFormat {
  import opened Wrappers

  /** The escape sequence Rust's `char::escape_debug` writes for `c` inside a string. */
  function EscapeChar(c: char): (e: string)
    ensures 1 <= |e| <= 2
    ensures |e| == 2 <==> c in {'\\', '"', '\'', '\n', '\r', '\t', '\0'}
    ensures |e| == 2 ==> e[0] == '\\' && Unescaped(e[1]) == Some(c)
    ensures |e| == 1 ==> e == [c]
  {
    match c
    case '\\' => "\\\\"
    case '"' => "\\\""
    case '\'' => "\\'"
    case '\n' => "\\n"
    case '\r' => "\\r"
    case '\t' => "\\t"
    case '\0' => "\\0"
    case _ => [c]
  }

  /** The escaped text of a whole string. */
  function Escape(s: string): (e: string)
    ensures |s| <= |e| <= 2 * |s|
  {
    if s == [] then [] else EscapeChar(s[0]) + Escape(s[1..])
  }

  /** `format!("{:?}", path)` for a path whose text is `s`. */
  function DebugQuote(s: string): (q: string)
    ensures |q| >= 2 && q[0] == '"' && q[|q| - 1] == '"'
  {
    "\"" + Escape(s) + "\""
  }

  /** The character an escape `\x` stands for, if `x` is one of the escapes `EscapeChar` writes. */
  function Unescaped(x: char): Option<char>
  {
    match x
    case '\\' => Some('\\')
    case '"' => Some('"')
    case '\'' => Some('\'')
    case 'n' => Some('\n')
    case 'r' => Some('\r')
    case 't' => Some('\t')
    case '0' => Some('\0')
    case _ => None
  }

  /** Reads an escaped text back; `None` when it holds an escape `Escape` never writes. */
  function Unescape(e: string): Option<string>
    decreases |e|
  {
    if e == [] then Some([])
    else if e[0] == '\\' then
      if |e| < 2 then None
      else match (Unescaped(e[1]), Unescape(e[2..]))
        case (Some(c), Some(rest)) => Some([c] + rest)
        case _ => None
    else match Unescape(e[1..])
      case Some(rest) => Some([e[0]] + rest)
      case None => None
  }

  /** Reading the quoted form back gives the original path text. */
  function Unquote(q: string): Option<string>
  {
    if |q| >= 2 && q[0] == '"' && q[|q| - 1] == '"' then Unescape(q[1..|q| - 1]) else None
  }

  lemma {:induction false} EscapeRoundTrip(s: string)
    ensures Unescape(Escape(s)) == Some(s)
  {
    if s != [] {
      EscapeRoundTrip(s[1..]);
      var e := EscapeChar(s[0]);
      assert Escape(s) == e + Escape(s[1..]);
      if |e| == 2 {
        assert (e + Escape(s[1..]))[2..] == Escape(s[1..]);
      } else {
        assert (e + Escape(s[1..]))[1..] == Escape(s[1..]);
      }
      assert [s[0]] + s[1..] == s;
    }
  }

  /** The path in a manifest abort message can be recovered exactly from its quoted form. */
  lemma DebugQuoteRoundTrip(s: string)
    ensures Unquote(DebugQuote(s)) == Some(s)
  {
    var q := DebugQuote(s);
    assert q[1..|q| - 1] == Escape(s);
    EscapeRoundTrip(s);
  }

  /** Distinct paths are never quoted alike, so the message names the path unambiguously. */
  lemma DebugQuoteInjective(s1: string, s2: string)
    requires DebugQuote(s1) == DebugQuote(s2)
    ensures s1 == s2
  {
    DebugQuoteRoundTrip(s1);
    DebugQuoteRoundTrip(s2);
  }
}

/**
 * The stored form of the session's role list: what `JSON.stringify` writes
 * for an array of strings, and a reader for that form, as the session store
 * uses them under the key 'userRoles'.
 */
module RoleJson {
  import opened Wrappers

  /** The lower-case hexadecimal digit for `n`. */
  function HexDigit(n: nat): char
    requires n < 16
  {
    "0123456789abcdef"[n]
  }

  /** The value of a hexadecimal digit of either case. */
  function HexValue(c: char): Option<nat>
  {
    if '0' <= c <= '9' then Some(c as int - '0' as int)
    else if 'a' <= c <= 'f' then Some(c as int - 'a' as int + 10)
    else if 'A' <= c <= 'F' then Some(c as int - 'A' as int + 10)
    else None
  }

  /** How `JSON.stringify` writes one character inside a string literal:
      quote and backslash are escaped, control characters take their short
      escape or the `\u00XX` form, everything else stands for itself. */
  function EscapeChar(c: char): string
  {
    if c == '"' then "\\\""
    else if c == '\\' then "\\\\"
    else if c == '\U{8}' then "\\b"
    else if c == '\U{C}' then "\\f"
    else if c == '\n' then "\\n"
    else if c == '\r' then "\\r"
    else if c == '\t' then "\\t"
    else if c < ' ' then "\\u00" + [HexDigit(c as int / 16), HexDigit(c as int % 16)]
    else [c]
  }

  function Escape(s: string): string
  {
    if s == [] then [] else EscapeChar(s[0]) + Escape(s[1..])
  }

  function Quote(s: string): string
  {
    "\"" + Escape(s) + "\""
  }

  /** The elements of the array, quoted and separated by commas. */
  function Items(roles: seq<string>): string
  {
    if |roles| == 0 then []
    else if |roles| == 1 then Quote(roles[0])
    else Quote(roles[0]) + "," + Items(roles[1..])
  }

  /** `JSON.stringify(roles)`. */
  function Serialize(roles: seq<string>): (r: string)
    ensures |r| >= 2 && r[0] == '[' && r[|r| - 1] == ']'
    ensures roles == [] <==> r == "[]"
  {
    assert roles != [] ==> Items(roles)[0] == '"';
    "[" + Items(roles) + "]"
  }

  /** The character named by the escape that follows a backslash, and how many
      characters the escape takes after the backslash. */
  function Unescape(t: string): (r: Option<(char, nat)>)
    ensures r.Some? ==> 1 <= r.value.1 <= |t|
  {
    if |t| == 0 then None
    else if t[0] == '"' then Some(('"', 1))
    else if t[0] == '\\' then Some(('\\', 1))
    else if t[0] == '/' then Some(('/', 1))
    else if t[0] == 'b' then Some(('\U{8}', 1))
    else if t[0] == 'f' then Some(('\U{C}', 1))
    else if t[0] == 'n' then Some(('\n', 1))
    else if t[0] == 'r' then Some(('\r', 1))
    else if t[0] == 't' then Some(('\t', 1))
    else if t[0] == 'u' && |t| >= 5 then
      match (HexValue(t[1]), HexValue(t[2]), HexValue(t[3]), HexValue(t[4]))
      case (Some(a), Some(b), Some(c), Some(d)) =>
        var code := 4096 * a + 256 * b + 16 * c + d;
        // a lone surrogate half is not a character here
        if 0xD800 <= code < 0xE000 then None else Some((code as char, 5))
      case _ => None
    else None
  }

  /** Reads the body of a string literal up to its closing quote, giving the
      decoded string and what follows the quote. */
  function ParseString(t: string): (r: Option<(string, string)>)
    ensures r.Some? ==> |r.value.1| < |t|
    decreases |t|
  {
    if |t| == 0 then None
    else if t[0] == '"' then Some(([], t[1..]))
    else if t[0] == '\\' then
      match Unescape(t[1..])
      case None => None
      case Some((c, n)) =>
        match ParseString(t[1 + n..])
        case None => None
        case Some((s, rest)) => Some(([c] + s, rest))
    else if t[0] < ' ' then None
    else
      match ParseString(t[1..])
      case None => None
      case Some((s, rest)) => Some(([t[0]] + s, rest))
  }

  /** Reads `"..."` items separated by commas up to the closing bracket, which
      must end the text. */
  function ParseItems(t: string): Option<seq<string>>
    decreases |t|
  {
    if |t| == 0 || t[0] != '"' then None
    else
      match ParseString(t[1..])
      case None => None
      case Some((s, rest)) =>
        if rest == "]" then Some([s])
        else if |rest| > 0 && rest[0] == ',' then
          match ParseItems(rest[1..])
          case None => None
          case Some(more) => Some([s] + more)
        else None
  }

  /** `JSON.parse` of a stored role list, for the compact form that
      `JSON.stringify` writes; anything else is a parse failure. */
  function ParseRoles(t: string): (r: Option<seq<string>>)
    ensures r.Some? ==> |t| >= 2 && t[0] == '['
    ensures t == "[]" ==> r == Some([])
  {
    assert t == "[]" ==> t[1..] == "]";
    if |t| < 2 || t[0] != '[' then None
    else if t[1..] == "]" then Some([])
    else ParseItems(t[1..])
  }

  lemma HexRoundTrip(n: nat)
    requires n < 16
    ensures HexValue(HexDigit(n)) == Some(n)
  {
  }

  /** Reading one escaped character and then the rest reads the character
      followed by whatever the rest reads. */
  lemma ParseEscapedChar(c: char, u: string)
    ensures ParseString(EscapeChar(c) + u) ==
      match ParseString(u)
      case None => None
      case Some((s, rest)) => Some(([c] + s, rest))
  {
    var t := EscapeChar(c) + u;
    if c == '"' || c == '\\' || c == '\U{8}' || c == '\U{C}' || c == '\n' || c == '\r' || c == '\t' {
      assert t[0] == '\\' && t[1..][0] == EscapeChar(c)[1];
      assert t[1 + 1..] == u;
    } else if c < ' ' {
      var hi, lo := c as int / 16, c as int % 16;
      HexRoundTrip(hi);
      HexRoundTrip(lo);
      assert t[0] == '\\';
      assert t[1..][..5] == ['u', '0', '0', HexDigit(hi), HexDigit(lo)];
      assert Unescape(t[1..]) == Some((c, 5));
      assert t[1 + 5..] == u;
    } else {
      assert t[0] == c && t[1..] == u;
    }
  }

  /** An escaped string followed by a closing quote reads back as the string. */
  lemma {:induction false} ParseEscaped(s: string, rest: string)
    ensures ParseString(Escape(s) + "\"" + rest) == Some((s, rest))
  {
    if s == [] {
      assert Escape(s) + "\"" + rest == "\"" + rest;
      assert ("\"" + rest)[1..] == rest;
    } else {
      ParseEscaped(s[1..], rest);
      var u := Escape(s[1..]) + "\"" + rest;
      EscapeFirst(s, rest);
      ParseEscapedChar(s[0], u);
      assert [s[0]] + s[1..] == s;
    }
  }

  lemma EscapeFirst(s: string, rest: string)
    requires s != []
    ensures Escape(s) + "\"" + rest == EscapeChar(s[0]) + (Escape(s[1..]) + "\"" + rest)
  {
  }

  lemma {:induction false} ParseItemsRoundTrip(roles: seq<string>)
    requires |roles| >= 1
    ensures ParseItems(Items(roles) + "]") == Some(roles)
  {
    if |roles| == 1 {
      ParseLastItem(roles[0]);
      assert roles == [roles[0]];
    } else {
      ParseItemsRoundTrip(roles[1..]);
      ParseItemBeforeComma(roles[0], Items(roles[1..]) + "]");
      assert Items(roles) + "]" == Quote(roles[0]) + "," + (Items(roles[1..]) + "]");
      assert [roles[0]] + roles[1..] == roles;
    }
  }

  lemma ParseLastItem(r: string)
    ensures ParseItems(Quote(r) + "]") == Some([r])
  {
    var t := Quote(r) + "]";
    assert t[0] == '"';
    assert t[1..] == Escape(r) + "\"" + "]";
    ParseEscaped(r, "]");
  }

  lemma ParseItemBeforeComma(r: string, more: string)
    ensures ParseItems(Quote(r) + "," + more) ==
      match ParseItems(more)
      case None => None
      case Some(rs) => Some([r] + rs)
  {
    var t := Quote(r) + "," + more;
    assert t[0] == '"';
    assert t[1..] == Escape(r) + "\"" + ("," + more);
    ParseEscaped(r, "," + more);
    assert ("," + more)[1..] == more;
  }

  /** What `JSON.stringify` writes for a role list, the reader gives back. */
  lemma RolesRoundTrip(roles: seq<string>)
    ensures ParseRoles(Serialize(roles)) == Some(roles)
  {
    var t := Serialize(roles);
    if roles == [] {
      assert t == "[]";
    } else {
      ParseItemsRoundTrip(roles);
      assert t[1..] == Items(roles) + "]";
      assert Items(roles)[0] == '"';
    }
  }
}

/**
 What a client does with tool-call arguments: decode a JSON object of string members (sections 2, 4
 and 7 of RFC 8259).  Raw control characters are refused; of two members with one name the last
 one counts.
 */
module Json {
  datatype Option<T> = None | Some(value: T)

  /** A string scan: refused, or the decoded value and what follows the closing quote. */
  datatype Scan = Bad | Done(value: string, rest: string)

  datatype Member = Member(name: string, value: string)

  function Prepend(p: string, s: Scan): Scan {
    match s
    case Bad => Bad
    case Done(v, r) => Done(p + v, r)
  }

  function HexDigit(c: char): int {
    if '0' <= c <= '9' then c as int - '0' as int
    else if 'a' <= c <= 'f' then c as int - 'a' as int + 10
    else if 'A' <= c <= 'F' then c as int - 'A' as int + 10
    else -1
  }

  predicate HasHex4(s: string) {
    |s| >= 4 && forall i :: 0 <= i < 4 ==> HexDigit(s[i]) >= 0
  }

  function Hex4(s: string): (v: nat)
    requires HasHex4(s)
    ensures v <= 0xFFFF
  {
    HexDigit(s[0]) * 4096 + HexDigit(s[1]) * 256 + HexDigit(s[2]) * 16 + HexDigit(s[3])
  }

  predicate IsLowSurrogatePair(s: string) {
    |s| >= 2 && s[0] == '\\' && s[1] == 'u' && HasHex4(s[2..]) && 0xDC00 <= Hex4(s[2..]) <= 0xDFFF
  }

  /** The rune of a `\u` escape and how many characters it takes after the `u`; `s` starts there.
      A surrogate pair is one rune, a lone surrogate is the replacement character. */
  function UnicodeEscape(s: string): (r: (char, nat))
    requires HasHex4(s)
    ensures (r.1 == 4 || (r.1 == 10 && IsLowSurrogatePair(s[4..]))) && r.1 <= |s|
  {
    var v := Hex4(s);
    if 0xD800 <= v <= 0xDBFF && IsLowSurrogatePair(s[4..]) then
      ((0x10000 + (v - 0xD800) * 0x400 + (Hex4(s[4..][2..]) - 0xDC00)) as char, 10)
    else if 0xD800 <= v <= 0xDFFF then ('\U{FFFD}', 4)
    else (v as char, 4)
  }

  function SimpleEscape(c: char): Option<char> {
    match c
    case '"' => Some('"')
    case '\\' => Some('\\')
    case '/' => Some('/')
    case 'b' => Some('\U{8}')
    case 'f' => Some('\U{C}')
    case 'n' => Some('\n')
    case 'r' => Some('\r')
    case 't' => Some('\t')
    case _ => None
  }

  /** Decodes a string from just after its opening quote. */
  function Unescape(s: string): (r: Scan)
    ensures r.Done? ==> |r.rest| < |s|
  {
    if s == "" then Bad
    else if s[0] == '"' then Done("", s[1..])
    else if s[0] == '\\' then
      if |s| == 1 then Bad
      else if s[1] == 'u' then
        if !HasHex4(s[2..]) then Bad
        else var (c, n) := UnicodeEscape(s[2..]); Prepend([c], Unescape(s[2..][n..]))
      else
        match SimpleEscape(s[1])
        case None => Bad
        case Some(c) => Prepend([c], Unescape(s[2..]))
    else if s[0] < ' ' then Bad
    else Prepend([s[0]], Unescape(s[1..]))
  }

  function SkipWs(s: string): (r: string)
    ensures |r| <= |s|
  {
    if s != "" && (s[0] == ' ' || s[0] == '\t' || s[0] == '\n' || s[0] == '\r') then SkipWs(s[1..]) else s
  }

  /** The members from a name on. */
  function ParseMembers(s: string): Option<seq<Member>>
    decreases |s|, 1
  {
    var s0 := SkipWs(s);
    if s0 == "" || s0[0] != '"' then None
    else
      match Unescape(s0[1..])
      case Bad => None
      case Done(name, rest) => ParseValue(name, rest)
  }

  /** The colon and the string value of a member. */
  function ParseValue(name: string, s: string): Option<seq<Member>>
    decreases |s|, 3
  {
    var s0 := SkipWs(s);
    if s0 == "" || s0[0] != ':' then None
    else
      var s1 := SkipWs(s0[1..]);
      if s1 == "" || s1[0] != '"' then None
      else
        match Unescape(s1[1..])
        case Bad => None
        case Done(value, rest) => ParseAfter(Member(name, value), rest)
  }

  /** What may follow a member: the end of the object, or a comma and more members. */
  function ParseAfter(m: Member, s: string): Option<seq<Member>>
    decreases |s|, 2
  {
    var s0 := SkipWs(s);
    if s0 == "" then None
    else if s0[0] == '}' then if SkipWs(s0[1..]) == "" then Some([m]) else None
    else if s0[0] == ',' then
      match ParseMembers(s0[1..])
      case None => None
      case Some(ms) => Some([m] + ms)
    else None
  }

  function WithValue(name: string, scan: Scan): Option<seq<Member>> {
    match scan
    case Bad => None
    case Done(value, rest) => ParseAfter(Member(name, value), rest)
  }

  function ParseObject(s: string): Option<seq<Member>> {
    var s0 := SkipWs(s);
    if s0 == "" || s0[0] != '{' then None
    else
      var s1 := SkipWs(s0[1..]);
      if s1 != "" && s1[0] == '}' && SkipWs(s1[1..]) == "" then Some([]) else ParseMembers(s1)
  }

  function Field(ms: seq<Member>, name: string): Option<string> {
    if ms == [] then None
    else if ms[|ms| - 1].name == name then Some(ms[|ms| - 1].value)
    else Field(ms[..|ms| - 1], name)
  }

  /** The string member `name` of a JSON object, if the text is one. */
  function DecodeField(s: string, name: string): Option<string> {
    match ParseObject(s)
    case None => None
    case Some(ms) => Field(ms, name)
  }

  // ---------- decoding what needs no escape ----------

  predicate PlainText(s: string) {
    forall i :: 0 <= i < |s| ==> s[i] != '"' && s[i] != '\\' && s[i] >= ' '
  }

  function Quoted(s: string): string {
    "\"" + s + "\""
  }

  lemma {:induction false} UnescapePlain(p: string, t: string)
    requires PlainText(p)
    ensures Unescape(p + t) == Prepend(p, Unescape(t))
  {
    if p == "" {
      assert p + t == t;
    } else {
      UnescapePlain(p[1..], t);
      assert (p + t)[1..] == p[1..] + t;
      assert Unescape(p + t) == Prepend([p[0]], Unescape((p + t)[1..]));
      PrependPrepend([p[0]], p[1..], Unescape(t));
      assert [p[0]] + p[1..] == p;
    }
  }

  lemma PrependPrepend(p: string, q: string, s: Scan)
    ensures Prepend(p, Prepend(q, s)) == Prepend(p + q, s)
  {
    if s.Done? {
      assert p + (q + s.value) == (p + q) + s.value;
    }
  }

  lemma UnescapeQuoted(p: string, t: string)
    requires PlainText(p)
    ensures Unescape(p + "\"" + t) == Done(p, t)
  {
    UnescapePlain(p, "\"" + t);
    assert p + "\"" + t == p + ("\"" + t);
    assert ("\"" + t)[1..] == t;
  }

  /** A member with a plain name: the rest depends on how its value decodes. */
  lemma ParseMemberIs(name: string, body: string)
    requires PlainText(name)
    ensures ParseMembers(Quoted(name) + ":\"" + body)
            == WithValue(name, Unescape(body))
  {
    var s, s1 := Quoted(name) + ":\"" + body, ":\"" + body;
    assert s[0] == '"' && s[1..] == name + "\"" + s1;
    UnescapeQuoted(name, s1);
    assert ParseMembers(s) == ParseValue(name, s1);
    ParseValueIs(name, body);
  }

  lemma ParseValueIs(name: string, body: string)
    ensures ParseValue(name, ":\"" + body)
            == WithValue(name, Unescape(body))
  {
    var s1 := ":\"" + body;
    assert SkipWs(s1) == s1 && s1[1..] == "\"" + body;
    assert SkipWs("\"" + body) == "\"" + body && ("\"" + body)[1..] == body;
  }

  /** The two-character escapes of section 7 of RFC 8259. */
  lemma EscapeIs(c: char, v: char, t: string)
    requires c == v == '"' || c == v == '\\' || c == v == '/' || (c == 'n' && v == '\n') || (c == 'r' && v == '\r')
             || (c == 't' && v == '\t') || (c == 'b' && v == '\U{8}') || (c == 'f' && v == '\U{C}')
    ensures Unescape(['\\', c] + t) == Prepend([v], Unescape(t))
  {
    assert (['\\', c] + t)[2..] == t;
  }
}

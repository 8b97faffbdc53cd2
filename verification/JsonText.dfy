/**
 The text of a batch: escaping a message, and reading a batch back with a
 string-aware splitter on top-level commas.
 String bodies follow section 7 of RFC 8259.
 */
module JsonText {

  datatype Option<+T> = None | Some(value: T)

  // ---------- escaping ----------

  /** isspace in the C locale. */
  predicate IsSpace(c: char) {
    c == ' ' || 9 as char <= c <= 13 as char
  }

  function TrimRight(s: string): string {
    if s != "" && IsSpace(s[|s| - 1]) then TrimRight(s[..|s| - 1]) else s
  }

  function EscapeChar(c: char): string {
    if c == '\n' || c == '\r' then "\\n"
    else if c == '"' || c == '\\' then ['\\', c]
    else [c]
  }

  function EscapeAll(s: string): string {
    if s == "" then "" else EscapeChar(s[0]) + EscapeAll(s[1..])
  }

  function Lined(s: string): string {
    seq(|s|, i requires 0 <= i < |s| => if s[i] == '\r' then '\n' else s[i])
  }

  /** What survives of a message: trailing white space dropped, carriage returns turned into newlines. */
  function Normalised(s: string): string {
    Lined(TrimRight(s))
  }

  /**
   t is what is to come back of s: everything up to the last character that is not white space, with carriage returns
   as newlines.
   */
  predicate Kept(s: string, t: string) {
    && |t| <= |s|
    && (forall i :: 0 <= i < |t| ==> t[i] == if s[i] == '\r' then '\n' else s[i])
    && (forall i :: |t| <= i < |s| ==> s[i] in [' ', 9 as char, 10 as char, 11 as char, 12 as char, 13 as char])
    && (t != "" ==> s[|t| - 1] !in [' ', 9 as char, 10 as char, 11 as char, 12 as char, 13 as char])
  }

  lemma {:induction false} TrimRightKeeps(s: string)
    ensures Kept(s, Normalised(s))
  {
    if s != "" && IsSpace(s[|s| - 1]) {
      TrimRightKeeps(s[..|s| - 1]);
    }
  }

  method JsonEscape(s: string) returns (out: string)
    ensures out == EscapeAll(TrimRight(s))
    ensures Unescape(out, false).Some? && Kept(s, Unescape(out, false).value)
  {
    var t := s;
    while t != "" && IsSpace(t[|t| - 1])
      invariant TrimRight(t) == TrimRight(s)
      decreases |t|
    {
      t := t[..|t| - 1];
    }
    out := "";
    assert t[0..] == t;
    for i := 0 to |t|
      invariant out + EscapeAll(t[i..]) == EscapeAll(t)
    {
      var a := t[i];
      ghost var was := out;
      assert t[i..][1..] == t[i + 1..];
      assert was + (EscapeChar(a) + EscapeAll(t[i + 1..])) == was + EscapeChar(a) + EscapeAll(t[i + 1..]);
      if a == '"' || a == '\\' {
        out := out + ['\\'];
      }
      if a == '\n' || a == '\r' {
        out := out + "\\n";
        continue;
      }
      out := out + [a];
      assert out == was + EscapeChar(a);
    }
    EscapeRoundTrip(s);
  }

  function EscapeCode(c: char): Option<char> {
    match c
    case '"' => Some('"')
    case '\\' => Some('\\')
    case '/' => Some('/')
    case 'b' => Some(8 as char)
    case 'f' => Some(12 as char)
    case 'n' => Some('\n')
    case 'r' => Some('\r')
    case 't' => Some('\t')
    case _ => None
  }

  /**
   The text that a JSON string body denotes (four-digit \u escapes are not read). A strict reader refuses raw
   control characters, as the standard does; a lenient one takes them as they are.
   */
  function Unescape(body: string, strict: bool): Option<string> {
    if body == "" then Some("")
    else if body[0] == '\\' then
      if |body| < 2 || EscapeCode(body[1]).None? then None else
        var rest := Unescape(body[2..], strict);
        if rest.None? then None else Some([EscapeCode(body[1]).value] + rest.value)
    else if body[0] == '"' || (strict && body[0] < ' ') then None
    else
      var rest := Unescape(body[1..], strict);
      if rest.None? then None else Some([body[0]] + rest.value)
  }

  /** No control character other than the two that are escaped. */
  predicate Clean(s: string) {
    forall i :: 0 <= i < |s| ==> s[i] >= ' ' || s[i] == '\n' || s[i] == '\r'
  }

  lemma UnescapeChar(c: char, rest: string, strict: bool)
    ensures Unescape(EscapeChar(c) + rest, strict) ==
            if (strict && c < ' ' && c != '\n' && c != '\r') || Unescape(rest, strict).None? then None
            else Some([if c == '\r' then '\n' else c] + Unescape(rest, strict).value)
  {
    var t := EscapeChar(c) + rest;
    if c == '\n' || c == '\r' || c == '"' || c == '\\' {
      assert t[2..] == rest && t[0] == '\\';
    } else {
      assert t[1..] == rest;
    }
  }

  lemma {:induction false} UnescapeEscaped(s: string, strict: bool)
    ensures Unescape(EscapeAll(s), strict) == if strict && !Clean(s) then None else Some(Lined(s))
  {
    if s != "" {
      UnescapeEscaped(s[1..], strict);
      UnescapeChar(s[0], EscapeAll(s[1..]), strict);
      FirstAndRest(s);
    } else {
      assert Lined(s) == "";
    }
  }

  lemma FirstAndRest(s: string)
    requires s != ""
    ensures Clean(s) <==> Clean(s[1..]) && (s[0] >= ' ' || s[0] == '\n' || s[0] == '\r')
    ensures Lined(s) == [if s[0] == '\r' then '\n' else s[0]] + Lined(s[1..])
  {
    assert s == [s[0]] + s[1..];
  }

  /** A lenient reader gets back every message, whatever it contains, up to the normalisation. */
  lemma EscapeRoundTrip(s: string)
    ensures Unescape(EscapeAll(TrimRight(s)), false) == Some(Normalised(s)) && Kept(s, Normalised(s))
  {
    UnescapeEscaped(TrimRight(s), false);
    TrimRightKeeps(s);
  }

  /** The escaped text is a JSON string by the standard exactly when the message has no other control character. */
  lemma StrictlyJsonIff(s: string)
    ensures Unescape(EscapeAll(TrimRight(s)), true).Some? <==> Clean(TrimRight(s))
  {
    UnescapeEscaped(TrimRight(s), true);
  }

  // ---------- splitting at top-level commas ----------

  datatype Scan = Scan(depth: int, inString: bool, escaped: bool)

  function Next(st: Scan, c: char): Scan {
    if st.inString then
      if st.escaped then st.(escaped := false)
      else if c == '\\' then st.(escaped := true)
      else if c == '"' then st.(inString := false)
      else st
    else if c == '"' then st.(inString := true)
    else if c == '{' || c == '[' then st.(depth := st.depth + 1)
    else if c == '}' || c == ']' then st.(depth := st.depth - 1)
    else st
  }

  predicate Cuts(st: Scan, c: char) {
    !st.inString && st.depth == 0 && c == ','
  }

  function SplitFrom(text: string, current: string, st: Scan): seq<string> {
    if text == "" then [current]
    else if Cuts(st, text[0]) then [current] + SplitFrom(text[1..], "", st)
    else SplitFrom(text[1..], current + [text[0]], Next(st, text[0]))
  }

  const START: Scan := Scan(0, false, false)

  function SplitTop(text: string): seq<string> {
    SplitFrom(text, "", START)
  }

  function Run(text: string, st: Scan): Scan {
    if text == "" then st else Run(text[1..], Next(st, text[0]))
  }

  /** Nothing in the text is a cut when the scan starts from `st`. */
  predicate Quiet(text: string, st: Scan) {
    text == "" || (!Cuts(st, text[0]) && Quiet(text[1..], Next(st, text[0])))
  }

  lemma {:induction false} Glue(a: string, b: string, st: Scan)
    ensures Run(a + b, st) == Run(b, Run(a, st))
    ensures Quiet(a + b, st) == (Quiet(a, st) && Quiet(b, Run(a, st)))
  {
    if a == "" {
      assert a + b == b;
    } else {
      assert (a + b)[1..] == a[1..] + b;
      Glue(a[1..], b, Next(st, a[0]));
    }
  }

  lemma {:induction false} SplitQuiet(a: string, b: string, current: string, st: Scan)
    requires Quiet(a, st)
    ensures SplitFrom(a + b, current, st) == SplitFrom(b, current + a, Run(a, st))
    decreases |a|
  {
    if a == "" {
      assert a + b == b && current + a == current;
    } else {
      assert (a + b)[1..] == a[1..] + b;
      assert current + [a[0]] + a[1..] == current + a;
      SplitQuiet(a[1..], b, current + [a[0]], Next(st, a[0]));
    }
  }

  /** Scanned at this depth outside strings, the text cuts nothing and leaves the scan as it found it. */
  predicate Neutral(text: string, depth: nat) {
    Run(text, Scan(depth, false, false)) == Scan(depth, false, false) && Quiet(text, Scan(depth, false, false))
  }

  lemma NeutralConcat(a: string, b: string, depth: nat)
    requires Neutral(a, depth) && Neutral(b, depth)
    ensures Neutral(a + b, depth)
  {
    Glue(a, b, Scan(depth, false, false));
  }

  function Quoted(body: string): string {
    "\"" + body + "\""
  }

  predicate Plain(s: string) {
    forall i :: 0 <= i < |s| ==> s[i] != '"' && s[i] != '\\'
  }

  /** Scanned inside a string, the text stays inside it. */
  predicate Body(s: string, depth: nat) {
    Run(s, Scan(depth, true, false)) == Scan(depth, true, false) && Quiet(s, Scan(depth, true, false))
  }

  lemma {:induction false} PlainIsBody(s: string, depth: nat)
    requires Plain(s)
    ensures Body(s, depth)
  {
    if s != "" {
      PlainIsBody(s[1..], depth);
    }
  }

  lemma {:induction false} EscapedIsBody(s: string, depth: nat)
    ensures Body(EscapeAll(s), depth)
  {
    if s != "" {
      var st, e := Scan(depth, true, false), EscapeChar(s[0]);
      EscapedIsBody(s[1..], depth);
      assert Run(e, st) == st && Quiet(e, st) by {
        if |e| == 2 {
          assert Next(st, e[0]) == Scan(depth, true, true) && Next(Next(st, e[0]), e[1]) == st;
          assert e[1..] == [e[1]] && e[1..][1..] == "";
          assert Run(e[1..], Next(st, e[0])) == st && Quiet(e[1..], Next(st, e[0]));
        } else {
          assert e[1..] == "" && Next(st, e[0]) == st;
        }
      }
      Glue(e, EscapeAll(s[1..]), st);
    }
  }

  lemma QuotedNeutral(body: string, depth: nat)
    requires Body(body, depth)
    ensures Neutral(Quoted(body), depth)
  {
    var st, instr := Scan(depth, false, false), Scan(depth, true, false);
    assert "\""[1..] == "" && Run("\"", st) == instr && Run("\"", instr) == st;
    assert Quiet("\"", st) && Quiet("\"", instr);
    Glue("\"" + body, "\"", st);
    Glue("\"", body, st);
  }

  /** Characters that mean nothing to the scan outside strings. */
  predicate Inert(s: string) {
    forall i :: 0 <= i < |s| ==> s[i] !in "\",{}[]"
  }

  lemma {:induction false} InertNeutral(s: string, depth: nat)
    requires Inert(s)
    ensures Neutral(s, depth)
  {
    if s != "" {
      assert forall c :: c !in "\",{}[]" ==> c !in ['"', ',', '{', '}', '[', ']'];
      InertNeutral(s[1..], depth);
    }
  }

  function JoinComma(parts: seq<string>): string {
    if parts == [] then "" else if |parts| == 1 then parts[0] else parts[0] + "," + JoinComma(parts[1..])
  }

  lemma {:induction false} JoinSnoc(parts: seq<string>, p: string)
    ensures JoinComma(parts + [p]) == if parts == [] then p else JoinComma(parts) + "," + p
  {
    if parts == [] {
      assert parts + [p] == [p];
    } else {
      assert (parts + [p])[1..] == parts[1..] + [p];
      JoinSnoc(parts[1..], p);
    }
  }

  predicate AllNeutral(parts: seq<string>, depth: nat) {
    forall i :: 0 <= i < |parts| ==> Neutral(parts[i], depth)
  }

  lemma {:induction false} SplitJoinFrom(parts: seq<string>)
    requires parts != [] && AllNeutral(parts, 0)
    ensures SplitFrom(JoinComma(parts), "", START) == parts
  {
    if |parts| == 1 {
      assert parts[0] + "" == parts[0] && "" + parts[0] == parts[0];
      SplitQuiet(parts[0], "", "", START);
    } else {
      var rest := "," + JoinComma(parts[1..]);
      assert JoinComma(parts) == parts[0] + rest;
      assert "" + parts[0] == parts[0] && rest[1..] == JoinComma(parts[1..]);
      SplitQuiet(parts[0], rest, "", START);
      SplitJoinFrom(parts[1..]);
      assert [parts[0]] + parts[1..] == parts;
    }
  }

  /** Splitting a comma-joined list of neutral texts gives the list back. */
  lemma SplitJoin(parts: seq<string>)
    requires parts != [] && AllNeutral(parts, 0)
    ensures SplitTop(JoinComma(parts)) == parts
  {
    SplitJoinFrom(parts);
  }

  lemma {:induction false} JoinNeutralInside(parts: seq<string>, depth: nat)
    requires depth > 0 && AllNeutral(parts, depth)
    ensures Neutral(JoinComma(parts), depth)
  {
    if |parts| > 1 {
      assert ","[1..] == "" && Neutral(",", depth);
      JoinNeutralInside(parts[1..], depth);
      NeutralConcat(parts[0], ",", depth);
      NeutralConcat(parts[0] + ",", JoinComma(parts[1..]), depth);
    }
  }

  // ---------- objects ----------

  datatype Member = Member(key: string, value: string)

  function MemberText(m: Member): string {
    Quoted(m.key) + ":" + m.value
  }

  function Texts(ms: seq<Member>): (ts: seq<string>)
    ensures |ts| == |ms|
  {
    seq(|ms|, i requires 0 <= i < |ms| => MemberText(ms[i]))
  }

  function Object(ms: seq<Member>): string {
    "{" + JoinComma(Texts(ms)) + "}"
  }

  /** Keys plain and distinct, values neutral at both depths they are scanned at. */
  predicate WellFormed(ms: seq<Member>) {
    && ms != []
    && (forall i :: 0 <= i < |ms| ==> Plain(ms[i].key) && Neutral(ms[i].value, 0) && Neutral(ms[i].value, 1))
    && (forall i, j :: 0 <= i < j < |ms| ==> ms[i].key != ms[j].key)
  }

  lemma MemberNeutral(m: Member, depth: nat)
    requires Plain(m.key) && Neutral(m.value, depth)
    ensures Neutral(MemberText(m), depth)
  {
    PlainIsBody(m.key, depth);
    QuotedNeutral(m.key, depth);
    InertNeutral(":", depth);
    NeutralConcat(Quoted(m.key), ":", depth);
    NeutralConcat(Quoted(m.key) + ":", m.value, depth);
  }

  lemma ObjectNeutral(ms: seq<Member>)
    requires WellFormed(ms)
    ensures Neutral(Object(ms), 0)
  {
    forall i | 0 <= i < |ms| ensures Neutral(Texts(ms)[i], 1) {
      MemberNeutral(ms[i], 1);
    }
    var inner := JoinComma(Texts(ms));
    JoinNeutralInside(Texts(ms), 1);
    var one := Scan(1, false, false);
    assert "{"[1..] == "" && Run("{", START) == one && Quiet("{", START);
    assert "}"[1..] == "" && Run("}", one) == START && Quiet("}", one);
    Glue("{", inner, START);
    Glue("{" + inner, "}", START);
  }

  predicate HasPrefix(s: string, p: string) {
    |p| <= |s| && s[..|p|] == p
  }

  function Lookup(parts: seq<string>, key: string): Option<string> {
    var p := Quoted(key) + ":";
    if parts == [] then None
    else if HasPrefix(parts[0], p) then Some(parts[0][|p|..])
    else Lookup(parts[1..], key)
  }

  /** The text starts and ends with these characters, which are not the same one. */
  predicate Between(s: string, open: char, close: char) {
    |s| >= 2 && s[0] == open && s[|s| - 1] == close
  }

  /** The raw value of a member of an object text, found by splitting the inside at top-level commas. */
  function FieldOf(obj: string, key: string): Option<string> {
    if Between(obj, '{', '}') then Lookup(SplitTop(obj[1..|obj| - 1]), key) else None
  }

  /** The text of a string value. */
  function StringOf(value: Option<string>): Option<string> {
    if value.Some? && Between(value.value, '"', '"') then Unescape(value.value[1..|value.value| - 1], false) else None
  }

  function FirstQuote(s: string): nat {
    if s == "" || s[0] == '"' then 0 else 1 + FirstQuote(s[1..])
  }

  lemma {:induction false} PlainEndsAtQuote(body: string, rest: string)
    requires Plain(body)
    ensures FirstQuote(body + "\"" + rest) == |body|
  {
    if body != "" {
      PlainEndsAtQuote(body[1..], rest);
      assert (body + "\"" + rest)[1..] == body[1..] + "\"" + rest;
    }
  }

  lemma KeysApart(m: Member, key: string)
    requires Plain(m.key) && Plain(key)
    ensures HasPrefix(MemberText(m), Quoted(key) + ":") <==> m.key == key
  {
    var t, p := MemberText(m), Quoted(key) + ":";
    if m.key == key {
      assert t[..|p|] == p;
    }
    if HasPrefix(t, p) {
      PlainEndsAtQuote(m.key, ":" + m.value);
      PlainEndsAtQuote(key, ":" + t[|p|..]);
      assert t[1..] == m.key + "\"" + (":" + m.value);
      assert t == p + t[|p|..] && p[1..] == key + "\"" + ":";
      assert t[1..] == p[1..] + t[|p|..];
      assert t[1..] == key + "\"" + (":" + t[|p|..]);
      assert t[1..][..|key|] == key && t[1..][..|m.key|] == m.key;
    }
  }

  lemma {:induction false} LookupFinds(ms: seq<Member>, i: nat)
    requires i < |ms| && forall j :: 0 <= j < |ms| ==> Plain(ms[j].key)
    requires forall j :: 0 <= j < i ==> ms[j].key != ms[i].key
    ensures Lookup(Texts(ms), ms[i].key) == Some(ms[i].value)
  {
    KeysApart(ms[0], ms[i].key);
    if i == 0 {
      var p := Quoted(ms[0].key) + ":";
      assert MemberText(ms[0])[|p|..] == ms[0].value;
    } else {
      assert Texts(ms)[1..] == Texts(ms[1..]);
      LookupFinds(ms[1..], i - 1);
    }
  }

  /** Every member of a printed object can be read back by its key. */
  lemma ReadMember(ms: seq<Member>, i: nat)
    requires WellFormed(ms) && i < |ms|
    ensures FieldOf(Object(ms), ms[i].key) == Some(ms[i].value)
  {
    forall j | 0 <= j < |ms| ensures Neutral(Texts(ms)[j], 0) {
      MemberNeutral(ms[j], 0);
    }
    var obj := Object(ms);
    assert obj[1..|obj| - 1] == JoinComma(Texts(ms));
    SplitJoin(Texts(ms));
    LookupFinds(ms, i);
  }
}

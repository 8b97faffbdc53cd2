/**
 The store's flat JSON printer, and the parser that counts quotes: a key is what
 stands between the first two, a value what stands between the next two, and the
 character after the fourth commits the pair. It undoes the printer exactly
 when no key and no value has a quote.
 */
module FlatJson {
  import opened JsonText
  import opened BatchText

  type Vars = map<string, string>
  type Encode = string -> string   // the archive encoding a parsed value is stored under

  function PairText(k: string, v: string): string {
    "\"" + k + "\":\"" + v + "\""
  }

  function PairTexts(order: seq<string>, m: Vars): (ts: seq<string>)
    requires forall k :: k in order ==> k in m
    ensures |ts| == |order|
  {
    seq(|order|, i requires 0 <= i < |order| => PairText(order[i], m[order[i]]))
  }

  function PrintText(order: seq<string>, m: Vars): string
    requires forall k :: k in order ==> k in m
  {
    "{" + JoinComma(PairTexts(order, m)) + "}"
  }

  lemma PrintSnoc(order: seq<string>, m: Vars, i: nat)
    requires i < |order| && forall k :: k in order ==> k in m
    ensures "{" + JoinComma(PairTexts(order[..i + 1], m)) ==
            "{" + JoinComma(PairTexts(order[..i], m)) + (if i == 0 then "" else ",") + PairText(order[i], m[order[i]])
  {
    var before, e := PairTexts(order[..i], m), PairText(order[i], m[order[i]]);
    assert PairTexts(order[..i + 1], m) == before + [e];
    JoinSnoc(before, e);
  }

  /** Keys in the order the map is iterated in. */
  method Print(order: seq<string>, m: Vars) returns (text: string)
    requires forall k :: k in order ==> k in m
    ensures text == PrintText(order, m)
  {
    text := "{";
    var first := true;
    for i := 0 to |order|
      invariant first <==> i == 0
      invariant text == "{" + JoinComma(PairTexts(order[..i], m))
    {
      var k := order[i];
      PrintSnoc(order, m, i);
      if !first {
        text := text + ",";
      }
      text := text + ("\"" + k + "\":\"" + m[k] + "\"");
      first := false;
    }
    assert order[..|order|] == order;
    text := text + "}";
  }

  // ---------- what was printed is JSON ----------

  function PairMembers(order: seq<string>, m: Vars): (ms: seq<Member>)
    requires forall k :: k in order ==> k in m
    ensures |ms| == |order|
  {
    seq(|order|, i requires 0 <= i < |order| => Member(order[i], Quoted(m[order[i]])))
  }

  lemma PairIsMember(k: string, v: string)
    ensures PairText(k, v) == MemberText(Member(k, Quoted(v)))
  {
    assert "\"" + k + "\":\"" + v + "\"" == ("\"" + k + "\"") + ":" + ("\"" + v + "\"");
  }

  /** The printed text is an object in which a JSON reader finds every key with its value. */
  lemma PrintedIsJson(order: seq<string>, m: Vars, i: nat)
    requires i < |order| && forall k :: k in order ==> k in m && Plain(k) && Plain(m[k])
    requires forall a, b :: 0 <= a < b < |order| ==> order[a] != order[b]
    ensures StringOf(FieldOf(PrintText(order, m), order[i])) == Some(m[order[i]])
  {
    var ms := PairMembers(order, m);
    forall j | 0 <= j < |order| ensures PairTexts(order, m)[j] == Texts(ms)[j] {
      PairIsMember(order[j], m[order[j]]);
    }
    assert PairTexts(order, m) == Texts(ms);
    forall j, d: nat | 0 <= j < |ms| && d < 2 ensures Neutral(ms[j].value, d) {
      PlainIsBody(m[order[j]], d);
      QuotedNeutral(m[order[j]], d);
    }
    ReadMember(ms, i);
    ReadPlain(m[order[i]]);
  }

  // ---------- parsing ----------

  /** Quotes seen since the last commit, and the key and value gathered. */
  datatype Parser = Parser(count: nat, key: string, value: string, out: Vars)

  function ParseChar(p: Parser, c: char, encode: Encode): Parser {
    if c == '"' then p.(count := p.count + 1)
    else if p.count == 1 then p.(key := p.key + [c])
    else if p.count == 3 then p.(value := p.value + [c])
    else if p.count == 4 then Parser(0, "", "", p.out[p.key := encode(p.value)])
    else p
  }

  function Parse(text: string, p: Parser, encode: Encode): Parser {
    if text == "" then p else Parse(text[1..], ParseChar(p, text[0], encode), encode)
  }

  method JsonParser(input: string, variables: Vars, encode: Encode) returns (out: Vars)
    ensures out == Parse(input, Parser(0, "", "", variables), encode).out
  {
    var kind, key, value := 0, "", "";
    out := variables;
    assert input[0..] == input;
    for i := 0 to |input|
      invariant 0 <= kind
      invariant Parse(input[i..], Parser(kind, key, value, out), encode) ==
                Parse(input, Parser(0, "", "", variables), encode)
    {
      assert input[i..][1..] == input[i + 1..];
      if input[i] == '"' {
        kind := kind + 1;
      } else if kind == 1 {
        key := key + [input[i]];
      } else if kind == 3 {
        value := value + [input[i]];
      } else if kind == 4 {
        kind := 0;
        out := out[key := encode(value)];
        key, value := "", "";
      }
    }
  }

  predicate QuoteFree(s: string) {
    '"' !in s
  }

  lemma {:induction false} ParseBody(s: string, rest: string, p: Parser, encode: Encode)
    requires QuoteFree(s) && (p.count == 1 || p.count == 3)
    ensures Parse(s + rest, p, encode) ==
            Parse(rest, if p.count == 1 then p.(key := p.key + s) else p.(value := p.value + s), encode)
    decreases |s|
  {
    if s == "" {
      assert s + rest == rest && p.key + s == p.key && p.value + s == p.value;
    } else {
      assert (s + rest)[1..] == s[1..] + rest;
      var p' := ParseChar(p, s[0], encode);
      assert p.key + [s[0]] + s[1..] == p.key + s && p.value + [s[0]] + s[1..] == p.value + s;
      ParseBody(s[1..], rest, p', encode);
    }
  }

  /** An entry and the separator after it store the entry. */
  lemma ParseEntry(k: string, v: string, sep: char, rest: string, out: Vars, encode: Encode)
    requires QuoteFree(k) && QuoteFree(v) && sep != '"'
    ensures Parse(PairText(k, v) + [sep] + rest, Parser(0, "", "", out), encode) ==
            Parse(rest, Parser(0, "", "", out[k := encode(v)]), encode)
  {
    EntrySplit(k, v, sep, rest);
    ParseKey(k, ":" + ("\"" + (v + ("\"" + ([sep] + rest)))), out, encode);
    ParseColon("\"" + (v + ("\"" + ([sep] + rest))), Parser(2, k, "", out), encode);
    ParseValue(k, v, [sep] + rest, out, encode);
    assert ([sep] + rest)[1..] == rest;
  }

  lemma EntrySplit(k: string, v: string, sep: char, rest: string)
    ensures PairText(k, v) + [sep] + rest ==
            "\"" + (k + ("\"" + (":" + ("\"" + (v + ("\"" + ([sep] + rest)))))))
  {
  }

  lemma ParseKey(k: string, rest: string, out: Vars, encode: Encode)
    requires QuoteFree(k)
    ensures Parse("\"" + (k + ("\"" + rest)), Parser(0, "", "", out), encode) == Parse(rest, Parser(2, k, "", out), encode)
  {
    ParseQuote(k + ("\"" + rest), Parser(0, "", "", out), encode);
    ParseBody(k, "\"" + rest, Parser(1, "", "", out), encode);
    assert "" + k == k;
    ParseQuote(rest, Parser(1, k, "", out), encode);
  }

  lemma ParseColon(rest: string, p: Parser, encode: Encode)
    requires p.count == 2
    ensures Parse(":" + rest, p, encode) == Parse(rest, p, encode)
  {
    ParseOne(':', rest, p, encode);
    assert ":" == [':'];
  }

  lemma ParseValue(k: string, v: string, rest: string, out: Vars, encode: Encode)
    requires QuoteFree(v)
    ensures Parse("\"" + (v + ("\"" + rest)), Parser(2, k, "", out), encode) == Parse(rest, Parser(4, k, v, out), encode)
  {
    ParseQuote(v + ("\"" + rest), Parser(2, k, "", out), encode);
    ParseBody(v, "\"" + rest, Parser(3, k, "", out), encode);
    assert "" + v == v;
    ParseQuote(rest, Parser(3, k, v, out), encode);
  }

  lemma ParseNext(text: string, rest: string, p: Parser, encode: Encode)
    requires text != "" && text[1..] == rest
    ensures Parse(text, p, encode) == Parse(rest, ParseChar(p, text[0], encode), encode)
  {
  }

  lemma ParseOne(c: char, rest: string, p: Parser, encode: Encode)
    ensures Parse([c] + rest, p, encode) == Parse(rest, ParseChar(p, c, encode), encode)
  {
    var text := [c] + rest;
    assert text[0] == c && text[1..] == rest;
    ParseNext(text, rest, p, encode);
  }

  lemma QuoteFirst(rest: string)
    ensures ("\"" + rest)[0] == '"' && ("\"" + rest)[1..] == rest
  {
  }

  lemma QuoteCounts(p: Parser, encode: Encode)
    ensures ParseChar(p, '"', encode) == p.(count := p.count + 1)
  {
  }

  lemma ParseQuote(rest: string, p: Parser, encode: Encode)
    ensures Parse("\"" + rest, p, encode) == Parse(rest, p.(count := p.count + 1), encode)
  {
    QuoteFirst(rest);
    QuoteCounts(p, encode);
    ParseNext("\"" + rest, rest, p, encode);
  }

  function Stored(order: seq<string>, m: Vars, out: Vars, encode: Encode): Vars
    requires forall k :: k in order ==> k in m
  {
    if order == [] then out else Stored(order[1..], m, out[order[0] := encode(m[order[0]])], encode)
  }

  lemma {:induction false} ParseEntries(order: seq<string>, m: Vars, out: Vars, encode: Encode)
    requires forall k :: k in order ==> k in m && QuoteFree(k) && QuoteFree(m[k])
    ensures Parse(JoinComma(PairTexts(order, m)) + "}", Parser(0, "", "", out), encode).out == Stored(order, m, out, encode)
  {
    if order == [] {
      assert JoinComma(PairTexts(order, m)) + "}" == "}" && "}"[1..] == "";
      return;
    }
    var ts, k := PairTexts(order, m), order[0];
    assert ts[1..] == PairTexts(order[1..], m);
    var out' := out[k := encode(m[k])];
    if |order| == 1 {
      assert ts[0] + "}" == PairText(k, m[k]) + ['}'] + "";
      ParseEntry(k, m[k], '}', "", out, encode);
      assert order[1..] == [];
    } else {
      var rest := JoinComma(ts[1..]) + "}";
      assert JoinComma(ts) + "}" == PairText(k, m[k]) + [','] + rest;
      ParseEntry(k, m[k], ',', rest, out, encode);
      ParseEntries(order[1..], m, out', encode);
    }
  }

  lemma {:induction false} StoredAt(order: seq<string>, m: Vars, out: Vars, encode: Encode, k: string)
    requires forall k :: k in order ==> k in m
    ensures k in Stored(order, m, out, encode) <==> k in order || k in out
    ensures k in order ==> Stored(order, m, out, encode)[k] == encode(m[k])
    ensures k !in order && k in out ==> Stored(order, m, out, encode)[k] == out[k]
  {
    if order != [] {
      StoredAt(order[1..], m, out[order[0] := encode(m[order[0]])], encode, k);
      assert k in order <==> k == order[0] || k in order[1..];
    }
  }

  /** The map as the parser stores it: over what was there, every value under its encoding. */
  function Encoded(m: Vars, out: Vars, encode: Encode): Vars {
    out + map k | k in m :: encode(m[k])
  }

  ghost predicate Iterates(order: seq<string>, m: Vars) {
    forall k :: k in order <==> k in m
  }

  /** Parsing a printed map into a store adds exactly its entries, for quote-free keys and values. */
  lemma ParsePrinted(order: seq<string>, m: Vars, out: Vars, encode: Encode)
    requires Iterates(order, m) && forall k :: k in m ==> QuoteFree(k) && QuoteFree(m[k])
    ensures Parse(PrintText(order, m), Parser(0, "", "", out), encode).out == Encoded(m, out, encode)
  {
    var body := JoinComma(PairTexts(order, m)) + "}";
    assert PrintText(order, m)[0] == '{' && PrintText(order, m)[1..] == body;
    ParseEntries(order, m, out, encode);
    forall k
      ensures k in Stored(order, m, out, encode) <==> k in Encoded(m, out, encode)
      ensures k in Encoded(m, out, encode) ==> Stored(order, m, out, encode)[k] == Encoded(m, out, encode)[k]
    {
      StoredAt(order, m, out, encode, k);
    }
  }

  /** Whatever the text, the parser gathers and stores only quote-free keys and values. */
  lemma {:induction false} ParsedQuoteFree(text: string, p: Parser, encode: Encode)
    requires QuoteFree(p.key) && QuoteFree(p.value)
    requires forall k :: k in p.out ==> QuoteFree(k) && exists v :: QuoteFree(v) && p.out[k] == encode(v)
    ensures var out := Parse(text, p, encode).out;
            forall k :: k in out ==> QuoteFree(k) && exists v :: QuoteFree(v) && out[k] == encode(v)
    decreases |text|
  {
    if text != "" {
      ParsedQuoteFree(text[1..], ParseChar(p, text[0], encode), encode);
    }
  }

  /**
   Exactly: a map survives printing and parsing into an empty store if and only if no key and no value has a quote
   (for an encoding that tells values apart, as the archive's does).
   */
  lemma ParsePrintedIff(order: seq<string>, m: Vars, encode: Encode)
    requires Iterates(order, m) && forall v, w :: encode(v) == encode(w) ==> v == w
    ensures Parse(PrintText(order, m), Parser(0, "", "", map[]), encode).out == Encoded(m, map[], encode)
            <==> forall k :: k in m ==> QuoteFree(k) && QuoteFree(m[k])
  {
    var out := Parse(PrintText(order, m), Parser(0, "", "", map[]), encode).out;
    if out == Encoded(m, map[], encode) {
      ParsedQuoteFree(PrintText(order, m), Parser(0, "", "", map[]), encode);
      forall k | k in m ensures QuoteFree(k) && QuoteFree(m[k]) {
        assert k in out && out[k] == encode(m[k]);
      }
    }
    if forall k :: k in m ==> QuoteFree(k) && QuoteFree(m[k]) {
      ParsePrinted(order, m, map[], encode);
    }
  }
}

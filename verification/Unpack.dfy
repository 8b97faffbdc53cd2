/**
 Unpacking a nested JSON description of slow controls: objects and lists are
 walked recursively, lists by counting brackets.
 */
module Unpack {
  import opened BatchText
  import opened JsonText

  /** A key or path, and the text stored under it. */
  type Entry = (string, string)

  /**
   Store's parser, which is not part of this model: it lists the members found in the order in which the store is
   iterated, that of their keys, and gives the "name" member of an object text. Its only known property is that the
   values are shorter than the text parsed.
   */
  datatype Env = Env(parse: string -> seq<Entry>, name: string -> string)

  predicate Shorter(members: seq<Entry>, bound: nat) {
    forall i :: 0 <= i < |members| ==> |members[i].1| < bound
  }

  predicate AllShorter(texts: seq<string>, bound: nat) {
    forall i :: 0 <= i < |texts| ==> |texts[i]| < bound
  }

  ghost predicate Shrinks(env: Env) {
    forall t: string :: Shorter(env.parse(t), |t|)
  }

  // ---------- the bracket counter ----------

  /** Opening minus closing braces. */
  function Depth(s: string): int {
    if s == "" then 0
    else Depth(s[..|s| - 1]) + (if s[|s| - 1] == '{' then 1 else if s[|s| - 1] == '}' then -1 else 0)
  }

  /** An object text: from a brace to the one that closes it. */
  predicate Balanced(s: string) {
    s != "" && s[0] == '{' && Depth(s) == 0 && forall k :: 0 < k < |s| ==> Depth(s[..k]) > 0
  }

  predicate BraceFree(s: string) {
    forall i :: 0 <= i < |s| ==> s[i] != '{' && s[i] != '}'
  }

  /** What the loop cuts out from position i on. */
  function Pieces(text: string, i: nat, start: nat, depth: int): seq<string>
    requires start <= i
    decreases |text| - i
  {
    if i >= |text| then []
    else
      var c := text[i];
      var start' := if c == '{' && depth == 0 then i else start;
      if c == '{' then Pieces(text, i + 1, start', depth + 1)
      else if c == '}' && depth == 1 then [text[start'..i + 1]] + Pieces(text, i + 1, start', 0)
      else if c == '}' then Pieces(text, i + 1, start', depth - 1)
      else Pieces(text, i + 1, start', depth)
  }

  /** An opened object's text so far. */
  predicate Opened(s: string, depth: int) {
    s != "" && s[0] == '{' && Depth(s) == depth && forall k :: 0 < k <= |s| ==> Depth(s[..k]) > 0
  }

  lemma OpenedStep(s: string, c: char, depth: int)
    requires Opened(s, depth)
    ensures c == '{' ==> Opened(s + [c], depth + 1)
    ensures c == '}' && depth > 1 ==> Opened(s + [c], depth - 1)
    ensures c == '}' && depth == 1 ==> Balanced(s + [c])
    ensures c != '{' && c != '}' ==> Opened(s + [c], depth)
  {
    var t := s + [c];
    assert t[..|t| - 1] == s;
    forall k | 0 < k <= |s| ensures Depth(t[..k]) > 0 {
      assert t[..k] == s[..k];
    }
    assert t[..|t|] == t && s[..|s|] == s;
  }

  /** Whatever the text, everything cut out is a balanced object and shorter than a text it does not start. */
  lemma {:induction false} PiecesBalanced(text: string, i: nat, start: nat, depth: int)
    requires start <= i <= |text| && (depth >= 1 ==> Opened(text[start..i], depth))
    ensures forall p :: p in Pieces(text, i, start, depth) ==> Balanced(p)
    decreases |text| - i
  {
    if i < |text| {
      var c := text[i];
      var start' := if c == '{' && depth == 0 then i else start;
      if depth >= 1 {
        OpenedStep(text[start..i], c, depth);
        assert text[start..i + 1] == text[start..i] + [c];
      }
      if c == '{' && depth == 0 {
        assert text[i..i + 1] == "{" && "{"[..0] == "" && Depth("") == 0 && Depth("{") == 1;
        assert forall k :: 0 < k <= 1 ==> "{"[..k] == "{";
      }
      var depth' := if c == '{' then depth + 1 else if c == '}' && depth == 1 then 0
                    else if c == '}' then depth - 1 else depth;
      PiecesBalanced(text, i + 1, start', depth');
    }
  }

  // ---------- lists ----------

  /** A list body: each object preceded by brace-free text. */
  datatype Cell = Cell(before: string, text: string)

  function Listed(cells: seq<Cell>, end: string): string {
    if cells == [] then end else cells[0].before + cells[0].text + Listed(cells[1..], end)
  }

  function Objects(cells: seq<Cell>): (os: seq<string>)
    ensures |os| == |cells|
  {
    seq(|cells|, i requires 0 <= i < |cells| => cells[i].text)
  }

  predicate WellFormed(cells: seq<Cell>, end: string) {
    BraceFree(end) && forall i :: 0 <= i < |cells| ==> BraceFree(cells[i].before) && Balanced(cells[i].text)
  }

  /** Brace-free text is passed over. */
  lemma {:induction false} SkipFree(text: string, i: nat, j: nat, start: nat, depth: int)
    requires start <= i <= j <= |text| && BraceFree(text[i..j])
    ensures Pieces(text, i, start, depth) == Pieces(text, j, start, depth)
    decreases j - i
  {
    if i < j {
      assert text[i] == text[i..j][0] && text[i + 1..j] == text[i..j][1..];
      SkipFree(text, i + 1, j, start, depth);
    }
  }

  /** Inside an object the loop only counts, up to its closing brace. */
  lemma {:induction false} CountInside(text: string, s: nat, e: nat, k: nat)
    requires s < k <= e - 1 < |text| && Balanced(text[s..e])
    ensures Pieces(text, k, s, Depth(text[s..k])) == Pieces(text, e - 1, s, 1)
    decreases e - k
  {
    if k < e - 1 {
      PrefixDepth(text, s, e, k);
      PrefixDepth(text, s, e, k + 1);
      DepthStep(text, s, k);
      CountInside(text, s, e, k + 1);
    } else {
      LastBrace(text[s..e]);
      assert text[s..e][..e - s - 1] == text[s..k];
    }
  }

  lemma DepthStep(text: string, s: nat, k: nat)
    requires s <= k < |text|
    ensures Depth(text[s..k + 1]) ==
            Depth(text[s..k]) + (if text[k] == '{' then 1 else if text[k] == '}' then -1 else 0)
  {
    var t := text[s..k + 1];
    assert t[..|t| - 1] == text[s..k] && t[|t| - 1] == text[k];
  }

  lemma PrefixDepth(text: string, s: nat, e: nat, k: nat)
    requires s < k < e <= |text| && Balanced(text[s..e])
    ensures Depth(text[s..k]) > 0
  {
    assert text[s..e][..k - s] == text[s..k];
  }

  /** An object ends with the brace that takes the depth from one to zero. */
  lemma LastBrace(o: string)
    requires Balanced(o)
    ensures |o| > 1 && o[|o| - 1] == '}' && Depth(o[..|o| - 1]) == 1
  {
    assert o[..1] == [o[0]] && o[..1][..0] == "";
    assert Depth(o[..1]) == 1;
  }

  /** One object: cut out whole. */
  lemma CutObject(text: string, s: nat, e: nat, start: nat)
    requires start <= s < e <= |text| && Balanced(text[s..e])
    ensures exists from: nat :: from <= e && Pieces(text, s, start, 0) == [text[s..e]] + Pieces(text, e, from, 0)
  {
    var o := text[s..e];
    assert text[s] == o[0];
    assert text[s..s + 1] == "{" && "{"[..0] == "" && Depth("{") == 1;
    LastBrace(o);
    CountInside(text, s, e, s + 1);
    assert text[e - 1] == o[|o| - 1] == '}';
    assert Pieces(text, e - 1, s, 1) == [text[s..e]] + Pieces(text, e, s, 0);
  }

  lemma CellAt(text: string, i: nat, c: Cell, rest: string)
    requires i <= |text| && text[i..] == c.before + c.text + rest
    ensures var s, e := i + |c.before|, i + |c.before| + |c.text|;
            e <= |text| && text[i..s] == c.before && text[s..e] == c.text && text[e..] == rest
  {
    var s, e := |c.before|, |c.before| + |c.text|;
    assert text[i..i + s] == text[i..][..s] && text[i + s..i + e] == text[i..][s..e] && text[i + e..] == text[i..][e..];
  }

  lemma {:induction false} ListFrom(text: string, i: nat, start: nat, cells: seq<Cell>, end: string)
    requires start <= i <= |text| && text[i..] == Listed(cells, end) && WellFormed(cells, end)
    ensures Pieces(text, i, start, 0) == Objects(cells)
    decreases |cells|
  {
    if cells == [] {
      assert text[i..|text|] == end;
      SkipFree(text, i, |text|, start, 0);
    } else {
      var c, rest := cells[0], Listed(cells[1..], end);
      var s, e := i + |c.before|, i + |c.before| + |c.text|;
      CellAt(text, i, c, rest);
      SkipFree(text, i, s, start, 0);
      CutObject(text, s, e, start);
      var from: nat :| from <= e && Pieces(text, s, start, 0) == [text[s..e]] + Pieces(text, e, from, 0);
      ListFrom(text, e, from, cells[1..], end);
      assert Objects(cells) == [c.text] + Objects(cells[1..]);
    }
  }

  /** A list of balanced objects of any depth is split into exactly those objects, in order. */
  lemma ListSplits(cells: seq<Cell>, end: string)
    requires WellFormed(cells, end)
    ensures Pieces(ListText(cells, end), 1, 0, 0) == Objects(cells)
  {
    var text := "[" + Listed(cells, end);
    assert text[1..] == Listed(cells, end);
    ListFrom(text, 1, 0, cells, end);
  }

  // ---------- the whole walk ----------

  /** The cuts of the simpler loop over SCArray, which knows no nesting. */
  function FlatPieces(text: string, i: nat, first: nat): seq<string>
    requires first <= i
    decreases |text| - i
  {
    if i >= |text| then []
    else
      var first' := if text[i] == '{' then i else first;
      (if text[i] == '}' then [text[first'..i + 1]] else []) + FlatPieces(text, i + 1, first')
  }

  function Prefix(header: string): string {
    if header == "" then "" else header + "::"
  }

  function NamedAll(prefix: string, texts: seq<string>, env: Env): (es: seq<Entry>)
    ensures |es| == |texts|
  {
    seq(|texts|, i requires 0 <= i < |texts| => (prefix + env.name(texts[i]), texts[i]))
  }

  /** Every object found, in order, under the path it is found at. */
  ghost function Entries(text: string, header: string, env: Env): seq<Entry>
    requires Shrinks(env)
    decreases |text|, 3
  {
    EntriesOver(env.parse(text), header, env, |text|)
  }

  ghost function EntriesOver(members: seq<Entry>, header: string, env: Env, bound: nat): seq<Entry>
    requires Shrinks(env) && Shorter(members, bound)
    decreases bound, 2, |members|
  {
    if members == [] then [] else
      var (key, value) := members[|members| - 1];
      EntriesOver(members[..|members| - 1], header, env, bound) + MemberEntries(key, value, Prefix(header), env)
  }

  ghost function MemberEntries(key: string, value: string, prefix: string, env: Env): seq<Entry>
    requires Shrinks(env)
    decreases |value|, 4
  {
    if key == "SCObject" then NamedAll(prefix, [value], env)
    else if key == "SCArray" then NamedAll(prefix, FlatPieces(value, 1, 0), env)
    else if value != "" && value[0] == '{' then Entries(value, prefix + key, env)
    else if value != "" && value[0] == '[' then
      PiecesShorter(value, 1, 0, 0);
      PieceEntries(Pieces(value, 1, 0, 0), prefix + key, env, |value|)
    else []
  }

  /** The objects of a list, under consecutive indices. */
  ghost function PieceEntries(ps: seq<string>, header: string, env: Env, bound: nat): seq<Entry>
    requires Shrinks(env) && AllShorter(ps, bound)
    decreases bound, 1, |ps|
  {
    if ps == [] then [] else
      PieceEntries(ps[..|ps| - 1], header, env, bound)
      + Entries(ps[|ps| - 1], header + "::" + Decimal(|ps| - 1), env)
  }

  lemma {:induction false} PiecesShorter(text: string, i: nat, start: nat, depth: int)
    requires start <= i && i > 0 && (start == 0 ==> depth <= 0)
    ensures AllShorter(Pieces(text, i, start, depth), |text|)
    decreases |text| - i
  {
    if i < |text| {
      var c := text[i];
      var start' := if c == '{' && depth == 0 then i else start;
      var depth' := if c == '{' then depth + 1 else if c == '}' && depth == 1 then 0
                    else if c == '}' then depth - 1 else depth;
      PiecesShorter(text, i + 1, start', depth');
    }
  }

  /** The map after the entries were written to it, in order. */
  function Put(m: map<string, string>, es: seq<Entry>): map<string, string> {
    if es == [] then m else Put(m, es[..|es| - 1])[es[|es| - 1].0 := es[|es| - 1].1]
  }

  lemma {:induction false} PutConcat(m: map<string, string>, a: seq<Entry>, b: seq<Entry>)
    ensures Put(m, a + b) == Put(Put(m, a), b)
  {
    if b == [] {
      assert a + b == a;
    } else {
      assert (a + b)[..|a + b| - 1] == a + b[..|b| - 1];
      PutConcat(m, a, b[..|b| - 1]);
    }
  }

  /** The entry at i is the last one under its path. */
  predicate LastAt(es: seq<Entry>, i: nat, k: string)
    requires i < |es|
  {
    es[i].0 == k && forall j :: i < j < |es| ==> es[j].0 != k
  }

  /** Of several objects under one path the last one found is kept; other keys are left alone. */
  lemma {:induction false} LastIsKept(m: map<string, string>, es: seq<Entry>, k: string)
    ensures k in Put(m, es) <==> k in m || exists i :: 0 <= i < |es| && es[i].0 == k
    ensures forall i :: 0 <= i < |es| && LastAt(es, i, k) ==> k in Put(m, es) && Put(m, es)[k] == es[i].1
    ensures k in m && (forall i :: 0 <= i < |es| ==> es[i].0 != k) ==> Put(m, es)[k] == m[k]
  {
    if es != [] {
      var init := es[..|es| - 1];
      LastIsKept(m, init, k);
      forall i | 0 <= i < |init| && LastAt(es, i, k) ensures LastAt(init, i, k) {
      }
    }
  }

  method Store(out: map<string, string>, prefix: string, texts: seq<string>, env: Env) returns (out': map<string, string>)
    ensures out' == Put(out, NamedAll(prefix, texts, env))
  {
    out' := out;
    ghost var es := NamedAll(prefix, texts, env);
    for i := 0 to |texts|
      invariant out' == Put(out, es[..i])
    {
      out' := out'[prefix + env.name(texts[i]) := texts[i]];
      assert es[..i + 1][..i] == es[..i];
    }
    assert es[..|texts|] == es;
  }

  lemma ShiftPiece(done: seq<string>, p: string, rest: seq<string>)
    ensures done + ([p] + rest) == done + [p] + rest
  {
  }

  /** The loop has cut out `done`, and goes on from position i. */
  predicate CutSoFar(value: string, done: seq<string>, i: nat, start: nat, depth: int)
    requires start <= i
  {
    Pieces(value, 1, 0, 0) == done + Pieces(value, i, start, depth)
  }

  /** One round of the loop. */
  lemma CutStep(value: string, done: seq<string>, i: nat, start: nat, depth: int)
    requires start <= i < |value| && CutSoFar(value, done, i, start, depth)
    ensures value[i] == '{' ==> CutSoFar(value, done, i + 1, if depth == 0 then i else start, depth + 1)
    ensures value[i] == '}' && depth == 1 ==> CutSoFar(value, done + [value[start..i + 1]], i + 1, start, 0)
    ensures value[i] == '}' && depth != 1 ==> CutSoFar(value, done, i + 1, start, depth - 1)
    ensures value[i] != '{' && value[i] != '}' ==> CutSoFar(value, done, i + 1, start, depth)
  {
    if value[i] == '}' && depth == 1 {
      ShiftPiece(done, value[start..i + 1], Pieces(value, i + 1, start, 0));
    }
  }

  /** What was cut out is shorter than the value. */
  lemma CutShorter(value: string, done: seq<string>, i: nat, start: nat, depth: int)
    requires start <= i && CutSoFar(value, done, i, start, depth)
    ensures AllShorter(done, |value|)
  {
    var all := Pieces(value, 1, 0, 0);
    PiecesShorter(value, 1, 0, 0);
    assert forall k :: 0 <= k < |done| ==> done[k] == all[k];
  }

  /** Unpacks the next object of a list under its index. */
  method UnpackPiece(piece: string, header: string, env: Env, ghost out0: map<string, string>,
                     ghost done: seq<string>, counter: nat, ghost bound: nat, out: map<string, string>)
    returns (out': map<string, string>)
    requires Shrinks(env) && counter == |done| && AllShorter(done, bound) && AllShorter(done + [piece], bound)
    requires out == Put(out0, PieceEntries(done, header, env, bound))
    ensures out' == Put(out0, PieceEntries(done + [piece], header, env, bound))
    decreases bound, 3
  {
    assert (done + [piece])[|done|] == piece;
    out' := Unpack(piece, header + "::" + Decimal(counter), env, out);
    PutConcat(out0, PieceEntries(done, header, env, bound), Entries(piece, header + "::" + Decimal(counter), env));
    assert (done + [piece])[..|done|] == done;
  }

  /** The list branch: counts brackets and unpacks each object under its index. */
  method UnpackList(value: string, header: string, env: Env, out: map<string, string>) returns (out': map<string, string>)
    requires Shrinks(env)
    ensures AllShorter(Pieces(value, 1, 0, 0), |value|)
    ensures out' == Put(out, PieceEntries(Pieces(value, 1, 0, 0), header, env, |value|))
    decreases |value|, 4
  {
    out' := out;
    var depth, start, counter := 0, 0, 0;
    ghost var done: seq<string> := [];
    PiecesShorter(value, 1, 0, 0);
    assert CutSoFar(value, [], 1, 0, 0);
    var i := 1;
    while i < |value|
      invariant 0 <= start <= i && counter == |done|
      invariant CutSoFar(value, done, i, start, depth) && AllShorter(done, |value|)
      invariant out' == Put(out, PieceEntries(done, header, env, |value|))
      decreases |value| - i
    {
      CutStep(value, done, i, start, depth);
      start := if value[i] == '{' && depth == 0 then i else start;
      if value[i] == '{' {
        depth := depth + 1;
      } else if value[i] == '}' && depth == 1 {
        CutShorter(value, done + [value[start..i + 1]], i + 1, start, 0);
        out' := UnpackPiece(value[start..i + 1], header, env, out, done, counter, |value|, out');
        done := done + [value[start..i + 1]];
        counter := counter + 1;
        depth := 0;
      } else if value[i] == '}' {
        depth := depth - 1;
      }
      i := i + 1;
    }
    assert done + [] == done;
  }

  method UnpackFlat(value: string) returns (texts: seq<string>)
    ensures texts == FlatPieces(value, 1, 0)
  {
    texts := [];
    var first, i := 0, 1;
    ghost var all := FlatPieces(value, 1, 0);
    while i < |value|
      invariant 0 <= first <= i && all == texts + FlatPieces(value, i, first)
      decreases |value| - i
    {
      if value[i] == '{' {
        first := i;
      }
      if value[i] == '}' {
        ShiftPiece(texts, value[first..i + 1], FlatPieces(value, i + 1, first));
        texts := texts + [value[first..i + 1]];
      } else {
        assert [] + FlatPieces(value, i + 1, first) == FlatPieces(value, i + 1, first);
      }
      i := i + 1;
    }
    assert texts + [] == texts;
  }

  method UnpackMember(key: string, value: string, prefix: string, env: Env, out: map<string, string>)
    returns (out': map<string, string>)
    requires Shrinks(env)
    ensures out' == Put(out, MemberEntries(key, value, prefix, env))
    decreases |value|, 5
  {
    out' := out;
    if key == "SCObject" {
      out' := Store(out, prefix, [value], env);
    } else if key == "SCArray" {
      var texts := UnpackFlat(value);
      out' := Store(out, prefix, texts, env);
    } else if value != "" && value[0] == '{' {
      out' := Unpack(value, prefix + key, env, out);
    } else if value != "" && value[0] == '[' {
      out' := UnpackList(value, prefix + key, env, out);
    }
  }

  /**
   Terminates on every text, because each level works on shorter texts, and writes exactly the objects found, in order,
   each under the path it was found at.
   */
  method Unpack(text: string, header: string, env: Env, out: map<string, string>) returns (out': map<string, string>)
    requires Shrinks(env)
    ensures out' == Put(out, Entries(text, header, env))
    decreases |text|, 3
  {
    var found := env.parse(text);
    out' := out;
    for i := 0 to |found|
      invariant out' == Put(out, EntriesOver(found[..i], header, env, |text|))
    {
      MemberNext(out, found, i, header, env, |text|);
      out' := UnpackMember(found[i].0, found[i].1, Prefix(header), env, out');
    }
    assert found[..|found|] == found;
  }

  lemma MemberNext(out: map<string, string>, found: seq<Entry>, i: nat, header: string, env: Env, bound: nat)
    requires Shrinks(env) && Shorter(found, bound) && i < |found|
    ensures Put(out, EntriesOver(found[..i + 1], header, env, bound)) ==
            Put(Put(out, EntriesOver(found[..i], header, env, bound)),
                MemberEntries(found[i].0, found[i].1, Prefix(header), env))
  {
    assert found[..i + 1][..i] == found[..i];
    PutConcat(out, EntriesOver(found[..i], header, env, bound),
              MemberEntries(found[i].0, found[i].1, Prefix(header), env));
  }

  function ListText(cells: seq<Cell>, end: string): string {
    "[" + Listed(cells, end)
  }

  predicate Under(es: seq<Entry>, prefix: string) {
    forall e :: e in es ==> HasPrefix(e.0, prefix)
  }

  lemma UnderLonger(es: seq<Entry>, prefix: string, more: string)
    requires Under(es, prefix + more)
    ensures Under(es, prefix)
  {
    forall e | e in es ensures HasPrefix(e.0, prefix) {
      assert e.0[..|prefix|] == e.0[..|prefix + more|][..|prefix|] == prefix;
    }
  }

  /** Every path written lies under the header it was unpacked under. */
  lemma {:induction false} EntriesUnderHeader(text: string, header: string, env: Env)
    requires Shrinks(env)
    ensures Under(Entries(text, header, env), Prefix(header))
    decreases |text|, 3
  {
    MembersUnder(env.parse(text), header, env, |text|);
  }

  lemma {:induction false} MembersUnder(members: seq<Entry>, header: string, env: Env, bound: nat)
    requires Shrinks(env) && Shorter(members, bound)
    ensures Under(EntriesOver(members, header, env, bound), Prefix(header))
    decreases bound, 2, |members|
  {
    if members != [] {
      MembersUnder(members[..|members| - 1], header, env, bound);
      var (key, value) := members[|members| - 1];
      MemberUnderPrefix(key, value, Prefix(header), env);
    }
  }

  lemma {:induction false} MemberUnderPrefix(key: string, value: string, prefix: string, env: Env)
    requires Shrinks(env)
    ensures Under(MemberEntries(key, value, prefix, env), prefix)
    decreases |value|, 4
  {
    if key == "SCObject" || key == "SCArray" {
    } else if value != "" && value[0] == '{' {
      EntriesUnderHeader(value, prefix + key, env);
      HeaderPrefix(prefix, key, Entries(value, prefix + key, env));
    } else if value != "" && value[0] == '[' {
      PiecesShorter(value, 1, 0, 0);
      PiecesUnder(Pieces(value, 1, 0, 0), prefix + key, env, |value|);
      UnderLonger(PieceEntries(Pieces(value, 1, 0, 0), prefix + key, env, |value|), prefix, key);
    }
  }

  lemma HeaderPrefix(prefix: string, key: string, es: seq<Entry>)
    requires Under(es, Prefix(prefix + key))
    ensures Under(es, prefix)
  {
    if prefix + key == "" {
      assert prefix == "";
    } else {
      assert Prefix(prefix + key) == prefix + (key + "::");
      UnderLonger(es, prefix, key + "::");
    }
  }

  lemma {:induction false} PiecesUnder(ps: seq<string>, header: string, env: Env, bound: nat)
    requires Shrinks(env) && AllShorter(ps, bound)
    ensures Under(PieceEntries(ps, header, env, bound), header)
    decreases bound, 1, |ps|
  {
    if ps != [] {
      var n := |ps| - 1;
      var path := "::" + Decimal(n);
      assert header + "::" + Decimal(n) == header + path;
      EntriesUnderHeader(ps[n], header + path, env);
      HeaderPrefix(header, path, Entries(ps[n], header + path, env));
      PiecesUnder(ps[..n], header, env, bound);
    }
  }
}

/** Where the objects of a nested description end up: under which paths, and that none of a list is lost. */
module UnpackPaths {
  import opened BatchText
  import opened JsonText
  import opened Unpack

  // ---------- the objects of a list ----------

  function Concat<T>(xss: seq<seq<T>>): seq<T> {
    if xss == [] then [] else Concat(xss[..|xss| - 1]) + xss[|xss| - 1]
  }

  /** What each of these texts is unpacked to, under its position. */
  ghost function Numbered(texts: seq<string>, path: string, env: Env): (ess: seq<seq<Entry>>)
    requires Shrinks(env)
    ensures |ess| == |texts|
  {
    seq(|texts|, i requires 0 <= i < |texts| && Shrinks(env) => Entries(texts[i], path + "::" + Decimal(i), env))
  }

  lemma {:induction false} PiecesNumbered(ps: seq<string>, header: string, env: Env, bound: nat)
    requires Shrinks(env) && AllShorter(ps, bound)
    ensures PieceEntries(ps, header, env, bound) == Concat(Numbered(ps, header, env))
  {
    if ps != [] {
      var n := |ps| - 1;
      PiecesNumbered(ps[..n], header, env, bound);
      assert Numbered(ps, header, env)[..n] == Numbered(ps[..n], header, env);
    }
  }

  /** What each member of a text is unpacked to. */
  ghost function MemberWise(members: seq<Entry>, prefix: string, env: Env): (ess: seq<seq<Entry>>)
    requires Shrinks(env)
    ensures |ess| == |members|
  {
    seq(|members|, i requires 0 <= i < |members| && Shrinks(env) => MemberEntries(members[i].0, members[i].1, prefix, env))
  }

  lemma {:induction false} OverInOrder(members: seq<Entry>, header: string, env: Env, bound: nat)
    requires Shrinks(env) && Shorter(members, bound)
    ensures EntriesOver(members, header, env, bound) == Concat(MemberWise(members, Prefix(header), env))
  {
    if members != [] {
      var n := |members| - 1;
      OverInOrder(members[..n], header, env, bound);
      MemberWiseInit(members, Prefix(header), env);
    }
  }

  lemma MemberWiseInit(members: seq<Entry>, prefix: string, env: Env)
    requires Shrinks(env) && members != []
    ensures var n := |members| - 1;
            && MemberWise(members, prefix, env)[..n] == MemberWise(members[..n], prefix, env)
            && MemberWise(members, prefix, env)[n] == MemberEntries(members[n].0, members[n].1, prefix, env)
  {
  }

  /** The members of a text are unpacked in the order the store lists them in. */
  lemma MembersInOrder(text: string, header: string, env: Env)
    requires Shrinks(env)
    ensures Entries(text, header, env) == Concat(MemberWise(env.parse(text), Prefix(header), env))
  {
    OverInOrder(env.parse(text), header, env, |text|);
  }

  /** A list's objects are unpacked in order, each under its position in the list. */
  lemma ListUnpacked(key: string, cells: seq<Cell>, end: string, prefix: string, env: Env)
    requires Shrinks(env) && Unpack.WellFormed(cells, end) && key != "SCObject" && key != "SCArray"
    ensures MemberEntries(key, ListText(cells, end), prefix, env) == Concat(Numbered(Objects(cells), prefix + key, env))
  {
    ListSplits(cells, end);
    PiecesShorter(ListText(cells, end), 1, 0, 0);
    PiecesNumbered(Objects(cells), prefix + key, env, |ListText(cells, end)|);
  }

  predicate ColonFree(s: string) {
    forall i :: 0 <= i < |s| ==> s[i] != ':'
  }

  lemma SamePrefix(q: string, a: string, b: string)
    requires ColonFree(a) && ColonFree(b) && HasPrefix(q, a + "::") && HasPrefix(q, b + "::")
    ensures a == b
  {
    assert forall k :: 0 <= k < |a| ==> q[k] == (a + "::")[k] == a[k];
    assert forall k :: 0 <= k < |b| ==> q[k] == (b + "::")[k] == b[k];
    assert q[|a|] == (a + "::")[|a|] == ':' && q[|b|] == (b + "::")[|b|] == ':';
  }

  lemma StripPrefix(p: string, x: string, y: string)
    requires HasPrefix(p, x + y)
    ensures |x| <= |p| && HasPrefix(p[|x|..], y)
  {
    assert p[|x|..][..|y|] == p[..|x + y|][|x|..] == y;
  }

  /** Paths below different positions differ. */
  lemma PositionsApart(path: string, i: nat, j: nat, p: string)
    requires HasPrefix(p, (path + "::") + (Decimal(i) + "::")) && HasPrefix(p, (path + "::") + (Decimal(j) + "::"))
    ensures i == j
  {
    StripPrefix(p, path + "::", Decimal(i) + "::");
    StripPrefix(p, path + "::", Decimal(j) + "::");
    DecimalDigits(i);
    DecimalDigits(j);
    SamePrefix(p[|path + "::"|..], Decimal(i), Decimal(j));
    DecimalRoundTrip(i);
    DecimalRoundTrip(j);
  }

  predicate Writes(es: seq<Entry>, k: string) {
    exists i :: 0 <= i < |es| && es[i].0 == k
  }

  lemma WritesBelow(text: string, path: string, i: nat, env: Env, k: string)
    requires Shrinks(env) && Writes(Entries(text, path + "::" + Decimal(i), env), k)
    ensures HasPrefix(k, (path + "::") + (Decimal(i) + "::"))
  {
    EntriesUnderHeader(text, path + "::" + Decimal(i), env);
    assert Prefix(path + "::" + Decimal(i)) == (path + "::") + (Decimal(i) + "::");
  }

  /** No object of a list is written under a path of another element's. */
  lemma ElementsApart(texts: seq<string>, path: string, env: Env, i: nat, j: nat, k: string)
    requires Shrinks(env) && i < |texts| && j < |texts| && i != j
    ensures !(Writes(Numbered(texts, path, env)[i], k) && Writes(Numbered(texts, path, env)[j], k))
  {
    if Writes(Numbered(texts, path, env)[i], k) && Writes(Numbered(texts, path, env)[j], k) {
      WritesBelow(texts[i], path, i, env, k);
      WritesBelow(texts[j], path, j, env, k);
      PositionsApart(path, i, j, k);
    }
  }

  lemma {:induction false} PutOnly(m: map<string, string>, m': map<string, string>, es: seq<Entry>, k: string)
    requires Writes(es, k)
    ensures k in Put(m, es) && k in Put(m', es) && Put(m, es)[k] == Put(m', es)[k]
  {
    if es[|es| - 1].0 != k {
      var i :| 0 <= i < |es| && es[i].0 == k;
      assert es[..|es| - 1][i].0 == k;
      PutOnly(m, m', es[..|es| - 1], k);
    }
  }

  /** Whatever else a list holds, what one of its elements wrote stays as if it were alone. */
  lemma {:induction false} ElementKept(m: map<string, string>, ess: seq<seq<Entry>>, i: nat, k: string)
    requires i < |ess| && Writes(ess[i], k) && forall j :: 0 <= j < |ess| && j != i ==> !Writes(ess[j], k)
    ensures k in Put(m, Concat(ess)) && k in Put(m, ess[i]) && Put(m, Concat(ess))[k] == Put(m, ess[i])[k]
  {
    var init, last := ess[..|ess| - 1], ess[|ess| - 1];
    PutConcat(m, Concat(init), last);
    if i == |init| {
      PutOnly(Put(m, Concat(init)), m, last, k);
    } else {
      ElementKept(m, init, i, k);
      LastIsKept(Put(m, Concat(init)), last, k);
    }
  }

  /** So every object of a list ends up in the map as if its element had been unpacked alone. */
  lemma ListKeepsAll(m: map<string, string>, cells: seq<Cell>, path: string, env: Env, i: nat, k: string)
    requires Shrinks(env) && i < |cells| && Writes(Entries(cells[i].text, path + "::" + Decimal(i), env), k)
    ensures var alone := Put(m, Entries(cells[i].text, path + "::" + Decimal(i), env));
            var all := Put(m, Concat(Numbered(Objects(cells), path, env)));
            k in alone && k in all && all[k] == alone[k]
  {
    var ess := Numbered(Objects(cells), path, env);
    forall j | 0 <= j < |ess| && j != i ensures !Writes(ess[j], k) {
      ElementsApart(Objects(cells), path, env, i, j, k);
    }
    ElementKept(m, ess, i, k);
  }

  // ---------- which objects are found ----------

  /** One level down: to an object under a key, or to an element of a list under it. */
  datatype Hop = Key(key: string) | Element(key: string, i: nat)

  function HopText(h: Hop): string {
    match h
    case Key(key) => key
    case Element(key, i) => key + "::" + Decimal(i)
  }

  /** The member is what the hop takes, and this is where it ends. */
  predicate Takes(m: Entry, h: Hop, to: string) {
    m.0 == h.key && m.1 != "" && h.key != "SCObject" && h.key != "SCArray" &&
    match h
    case Key(_) => m.1[0] == '{' && to == m.1
    case Element(_, i) => m.1[0] == '[' && i < |Pieces(m.1, 1, 0, 0)| && to == Pieces(m.1, 1, 0, 0)[i]
  }

  ghost predicate Leads(text: string, h: Hop, to: string, env: Env) {
    exists m :: m in env.parse(text) && Takes(m, h, to)
  }

  /** The object stands in the text itself. */
  ghost predicate Holds(text: string, found: string, env: Env) {
    exists m :: m in env.parse(text) &&
      ((m.0 == "SCObject" && found == m.1) || (m.0 == "SCArray" && found in FlatPieces(m.1, 1, 0)))
  }

  /** The object is reached from the text by these hops. */
  ghost predicate Reached(text: string, hops: seq<Hop>, found: string, env: Env)
    decreases |hops|
  {
    if hops == [] then Holds(text, found, env)
    else exists to :: Leads(text, hops[0], to, env) && Reached(to, hops[1..], found, env)
  }

  /** The path of what the hops lead to from a header: everything joined by double colons. */
  function PathOf(header: string, hops: seq<Hop>): string
    decreases |hops|
  {
    if hops == [] then (if header == "" then "" else header + "::")
    else PathOf((if header == "" then "" else header + "::") + HopText(hops[0]), hops[1..])
  }

  lemma {:induction false} InOver(members: seq<Entry>, header: string, env: Env, bound: nat, e: Entry)
    requires Shrinks(env) && Shorter(members, bound)
    ensures e in EntriesOver(members, header, env, bound) <==>
            exists m :: m in members && e in MemberEntries(m.0, m.1, Prefix(header), env)
  {
    if members != [] {
      var init, last := members[..|members| - 1], members[|members| - 1];
      InOver(init, header, env, bound, e);
      assert forall m :: m in members <==> m in init || m == last;
      assert e in EntriesOver(members, header, env, bound) <==>
             e in EntriesOver(init, header, env, bound) || e in MemberEntries(last.0, last.1, Prefix(header), env);
    }
  }

  lemma {:induction false} InConcat<T>(xss: seq<seq<T>>, x: T)
    ensures x in Concat(xss) <==> exists i :: 0 <= i < |xss| && x in xss[i]
  {
    if xss != [] {
      var n := |xss| - 1;
      InConcat(xss[..n], x);
      assert x in Concat(xss) <==> x in Concat(xss[..n]) || x in xss[n];
      assert forall i :: 0 <= i < n ==> xss[..n][i] == xss[i];
    }
  }

  /** Where the member brings e from: an object in it, or a hop to a text in which e is found. */
  ghost predicate Brings(text: string, prefix: string, env: Env, e: Entry)
    requires Shrinks(env)
  {
    || (Holds(text, e.1, env) && e.0 == prefix + env.name(e.1))
    || exists h, to :: Leads(text, h, to, env) && e in Entries(to, prefix + HopText(h), env)
  }

  lemma ListMember(m: Entry, prefix: string, env: Env)
    requires Shrinks(env) && m.0 != "SCObject" && m.0 != "SCArray" && m.1 != "" && m.1[0] == '['
    ensures MemberEntries(m.0, m.1, prefix, env) == Concat(Numbered(Pieces(m.1, 1, 0, 0), prefix + m.0, env))
  {
    PiecesShorter(m.1, 1, 0, 0);
    PiecesNumbered(Pieces(m.1, 1, 0, 0), prefix + m.0, env, |m.1|);
  }

  lemma HopHeader(prefix: string, key: string, i: nat)
    ensures prefix + key + "::" + Decimal(i) == prefix + HopText(Element(key, i))
  {
  }

  lemma ListBrings(text: string, m: Entry, prefix: string, env: Env, e: Entry)
    requires Shrinks(env) && m in env.parse(text) && m.0 != "SCObject" && m.0 != "SCArray" && m.1 != "" && m.1[0] == '['
    requires e in MemberEntries(m.0, m.1, prefix, env)
    ensures Brings(text, prefix, env, e)
  {
    var ps := Pieces(m.1, 1, 0, 0);
    ListMember(m, prefix, env);
    InConcat(Numbered(ps, prefix + m.0, env), e);
    var i: nat :| i < |ps| && e in Numbered(ps, prefix + m.0, env)[i];
    HopHeader(prefix, m.0, i);
    assert Takes(m, Element(m.0, i), ps[i]);
  }

  lemma MemberBrings(text: string, m: Entry, prefix: string, env: Env, e: Entry)
    requires Shrinks(env) && m in env.parse(text) && e in MemberEntries(m.0, m.1, prefix, env)
    ensures Brings(text, prefix, env, e)
  {
    if m.0 == "SCObject" || m.0 == "SCArray" {
      assert Holds(text, e.1, env);
    } else if m.1[0] == '{' {
      assert Leads(text, Key(m.0), m.1, env) && prefix + m.0 == prefix + HopText(Key(m.0));
    } else {
      ListBrings(text, m, prefix, env, e);
    }
  }

  lemma Prepend(text: string, h: Hop, to: string, hops: seq<Hop>, found: string, header: string, env: Env)
    requires Leads(text, h, to, env) && Reached(to, hops, found, env)
    ensures Reached(text, [h] + hops, found, env)
    ensures PathOf(header, [h] + hops) == PathOf(Prefix(header) + HopText(h), hops)
  {
    assert ([h] + hops)[1..] == hops;
  }

  lemma LeadsShorter(text: string, h: Hop, to: string, env: Env)
    requires Shrinks(env) && Leads(text, h, to, env)
    ensures |to| < |text|
  {
    var m :| m in env.parse(text) && Takes(m, h, to);
    PiecesShorter(m.1, 1, 0, 0);
  }

  lemma {:induction false} FoundIsReached(text: string, header: string, env: Env, e: Entry) returns (hops: seq<Hop>)
    requires Shrinks(env) && e in Entries(text, header, env)
    ensures Reached(text, hops, e.1, env) && e.0 == PathOf(header, hops) + env.name(e.1)
    decreases |text|
  {
    var prefix := Prefix(header);
    InOver(env.parse(text), header, env, |text|, e);
    var m :| m in env.parse(text) && e in MemberEntries(m.0, m.1, prefix, env);
    MemberBrings(text, m, prefix, env, e);
    if Holds(text, e.1, env) && e.0 == prefix + env.name(e.1) {
      return [];
    }
    var h, to :| Leads(text, h, to, env) && e in Entries(to, prefix + HopText(h), env);
    LeadsShorter(text, h, to, env);
    var rest := FoundIsReached(to, prefix + HopText(h), env, e);
    Prepend(text, h, to, rest, e.1, header, env);
    hops := [h] + rest;
  }

  /** And conversely. */
  lemma BroughtIsFound(text: string, header: string, env: Env, e: Entry)
    requires Shrinks(env) && Brings(text, Prefix(header), env, e)
    ensures e in Entries(text, header, env)
  {
    InOver(env.parse(text), header, env, |text|, e);
    if Holds(text, e.1, env) && e.0 == Prefix(header) + env.name(e.1) {
      HeldIsFound(text, Prefix(header), env, e);
    } else {
      var h, to :| Leads(text, h, to, env) && e in Entries(to, Prefix(header) + HopText(h), env);
      HopIsFound(text, h, to, Prefix(header), env, e);
    }
  }

  lemma HeldIsFound(text: string, prefix: string, env: Env, e: Entry)
    requires Shrinks(env) && Holds(text, e.1, env) && e.0 == prefix + env.name(e.1)
    ensures exists m :: m in env.parse(text) && e in MemberEntries(m.0, m.1, prefix, env)
  {
    var m :| m in env.parse(text) && ((m.0 == "SCObject" && e.1 == m.1) || (m.0 == "SCArray" && e.1 in FlatPieces(m.1, 1, 0)));
    var texts := if m.0 == "SCObject" then [m.1] else FlatPieces(m.1, 1, 0);
    var i :| 0 <= i < |texts| && texts[i] == e.1;
    assert NamedAll(prefix, texts, env)[i] == e;
    assert MemberEntries(m.0, m.1, prefix, env) == NamedAll(prefix, texts, env);
  }

  lemma ElementIsFound(m: Entry, h: Hop, to: string, prefix: string, env: Env, e: Entry)
    requires Shrinks(env) && h.Element? && Takes(m, h, to) && e in Entries(to, prefix + HopText(h), env)
    ensures e in MemberEntries(m.0, m.1, prefix, env)
  {
    var ps := Pieces(m.1, 1, 0, 0);
    ListMember(m, prefix, env);
    HopHeader(prefix, m.0, h.i);
    assert e in Numbered(ps, prefix + m.0, env)[h.i];
    InConcat(Numbered(ps, prefix + m.0, env), e);
  }

  lemma HopIsFound(text: string, h: Hop, to: string, prefix: string, env: Env, e: Entry)
    requires Shrinks(env) && Leads(text, h, to, env) && e in Entries(to, prefix + HopText(h), env)
    ensures exists m :: m in env.parse(text) && e in MemberEntries(m.0, m.1, prefix, env)
  {
    var m :| m in env.parse(text) && Takes(m, h, to);
    if h.Element? {
      ElementIsFound(m, h, to, prefix, env, e);
    }
    assert e in MemberEntries(m.0, m.1, prefix, env);
  }

  lemma {:induction false} ReachedIsFound(text: string, hops: seq<Hop>, header: string, env: Env, found: string)
    requires Shrinks(env) && Reached(text, hops, found, env)
    ensures (PathOf(header, hops) + env.name(found), found) in Entries(text, header, env)
    decreases |hops|
  {
    var e, prefix := (PathOf(header, hops) + env.name(found), found), Prefix(header);
    if hops != [] {
      var to :| Leads(text, hops[0], to, env) && Reached(to, hops[1..], found, env);
      ReachedIsFound(to, hops[1..], prefix + HopText(hops[0]), env, found);
    }
    BroughtIsFound(text, header, env, e);
  }

  /**
   What Unpack writes, for every text: exactly the objects reached from it through keys and list positions, each under
   those keys and positions joined by double colons, and its own name.
   */
  lemma FoundIff(text: string, header: string, env: Env, path: string, found: string)
    requires Shrinks(env)
    ensures (path, found) in Entries(text, header, env) <==>
            exists hops :: Reached(text, hops, found, env) && path == PathOf(header, hops) + env.name(found)
  {
    if (path, found) in Entries(text, header, env) {
      var hops := FoundIsReached(text, header, env, (path, found));
    }
    if hops :| Reached(text, hops, found, env) && path == PathOf(header, hops) + env.name(found) {
      ReachedIsFound(text, hops, header, env, found);
    }
  }

  // ---------- the simpler loop ----------

  /** How often the character occurs. */
  function Occurs(s: string, c: char): nat {
    if s == "" then 0 else Occurs(s[..|s| - 1], c) + if s[|s| - 1] == c then 1 else 0
  }

  lemma {:induction false} OccursConcat(a: string, b: string, c: char)
    ensures Occurs(a + b, c) == Occurs(a, c) + Occurs(b, c)
  {
    if b == "" {
      assert a + b == a;
    } else {
      assert (a + b)[..|a + b| - 1] == a + b[..|b| - 1];
      OccursConcat(a, b[..|b| - 1], c);
    }
  }

  lemma OccursOnce(c: char, d: char)
    ensures Occurs([c], d) == if c == d then 1 else 0
  {
    assert [c][..0] == "";
  }

  /** The simpler loop cuts at every closing brace. */
  lemma {:induction false} CutsAtEachBrace(text: string, i: nat, first: nat)
    requires first <= i <= |text|
    ensures |FlatPieces(text, i, first)| == Occurs(text[i..], '}')
    decreases |text| - i
  {
    if i < |text| {
      var c := text[i];
      CutsAtEachBrace(text, i + 1, if c == '{' then i else first);
      assert text[i..] == [c] + text[i + 1..];
      OccursConcat([c], text[i + 1..], '}');
      OccursOnce(c, '}');
    } else {
      assert text[i..] == "";
    }
  }

  /** Nothing is nested in the object. */
  predicate Flat(o: string) {
    |o| >= 2 && o[0] == '{' && o[|o| - 1] == '}' && BraceFree(o[1..|o| - 1])
  }

  lemma {:induction false} NoBraces(s: string)
    requires BraceFree(s)
    ensures Occurs(s, '{') == 0 && Occurs(s, '}') == 0
  {
    if s != "" {
      NoBraces(s[..|s| - 1]);
    }
  }

  lemma {:induction false} SomeBraces(s: string)
    ensures Depth(s) == Occurs(s, '{') - Occurs(s, '}')
    ensures Occurs(s, '{') == 0 && Occurs(s, '}') == 0 ==> BraceFree(s)
  {
    if s != "" {
      SomeBraces(s[..|s| - 1]);
    }
  }

  /** A balanced object has one closing brace exactly when nothing is nested in it, and otherwise more. */
  lemma BracesOf(o: string)
    requires Balanced(o)
    ensures Occurs(o, '}') >= 1 && (Occurs(o, '}') == 1 <==> Flat(o))
  {
    LastBrace(o);
    var inner := o[1..|o| - 1];
    assert o == ("{" + inner) + "}";
    forall c ensures Occurs(o, c) == Occurs("{", c) + Occurs(inner, c) + Occurs("}", c) {
      OccursConcat("{" + inner, "}", c);
      OccursConcat("{", inner, c);
    }
    OccursOnce('{', '{'); OccursOnce('{', '}'); OccursOnce('}', '{'); OccursOnce('}', '}');
    SomeBraces(inner);
    SomeBraces(o);
    if BraceFree(inner) {
      NoBraces(inner);
    }
  }

  lemma {:induction false} BracesListed(cells: seq<Cell>, end: string)
    requires Unpack.WellFormed(cells, end)
    ensures Occurs(Listed(cells, end), '}') >= |cells|
    ensures Occurs(Listed(cells, end), '}') == |cells| <==> forall i :: 0 <= i < |cells| ==> Flat(cells[i].text)
  {
    if cells == [] {
      NoBraces(end);
    } else {
      var c, rest := cells[0], Listed(cells[1..], end);
      BracesListed(cells[1..], end);
      OccursConcat(c.before + c.text, rest, '}');
      OccursConcat(c.before, c.text, '}');
      NoBraces(c.before);
      BracesOf(c.text);
      assert forall i :: 0 < i < |cells| ==> cells[i] == cells[1..][i - 1];
    }
  }

  /** Brace-free text is passed over. */
  lemma {:induction false} FlatSkip(text: string, i: nat, j: nat, first: nat)
    requires first <= i <= j <= |text| && BraceFree(text[i..j])
    ensures FlatPieces(text, i, first) == FlatPieces(text, j, first)
    decreases j - i
  {
    if i < j {
      assert text[i] == text[i..j][0] && text[i + 1..j] == text[i..j][1..];
      FlatSkip(text, i + 1, j, first);
    }
  }

  lemma InnerSlice(text: string, s: nat, e: nat)
    requires s + 2 <= e <= |text|
    ensures text[s + 1..e - 1] == text[s..e][1..e - s - 1]
  {
    var o := text[s..e];
    var inner := o[1..e - s - 1];
    assert forall k :: 0 <= k < |inner| ==> inner[k] == o[k + 1];
  }

  /** A flat object is cut out whole. */
  lemma FlatCut(text: string, s: nat, e: nat, first: nat)
    requires first <= s < e <= |text| && Flat(text[s..e])
    ensures FlatPieces(text, s, first) == [text[s..e]] + FlatPieces(text, e, s)
  {
    var o := text[s..e];
    assert text[s] == o[0] == '{' && text[e - 1] == o[|o| - 1] == '}';
    assert FlatPieces(text, s, first) == FlatPieces(text, s + 1, s);
    InnerSlice(text, s, e);
    FlatSkip(text, s + 1, e - 1, s);
    assert FlatPieces(text, e - 1, s) == [text[s..e]] + FlatPieces(text, e, s);
  }

  lemma ObjectsCons(cells: seq<Cell>)
    requires cells != []
    ensures Objects(cells) == [cells[0].text] + Objects(cells[1..])
  {
  }

  lemma {:induction false} FlatListFrom(text: string, i: nat, first: nat, cells: seq<Cell>, end: string)
    requires first <= i <= |text| && text[i..] == Listed(cells, end) && Unpack.WellFormed(cells, end)
    requires forall k :: 0 <= k < |cells| ==> Flat(cells[k].text)
    ensures FlatPieces(text, i, first) == Objects(cells)
    decreases |cells|
  {
    if cells == [] {
      assert text[i..|text|] == end;
      FlatSkip(text, i, |text|, first);
    } else {
      var c, rest := cells[0], Listed(cells[1..], end);
      var s, e := i + |c.before|, i + |c.before| + |c.text|;
      CellAt(text, i, c, rest);
      FlatSkip(text, i, s, first);
      FlatCut(text, s, e, first);
      FlatListFrom(text, e, s, cells[1..], end);
      ObjectsCons(cells);
    }
  }

  /** The loop over SCArray, which does not count, splits a list into its objects exactly when none has objects inside. */
  lemma FlatSplitsIff(cells: seq<Cell>, end: string)
    requires Unpack.WellFormed(cells, end)
    ensures FlatPieces(ListText(cells, end), 1, 0) == Objects(cells) <==>
            forall i :: 0 <= i < |cells| ==> Flat(cells[i].text)
  {
    var text := ListText(cells, end);
    assert text[1..] == Listed(cells, end);
    CutsAtEachBrace(text, 1, 0);
    BracesListed(cells, end);
    if forall i :: 0 <= i < |cells| ==> Flat(cells[i].text) {
      FlatListFrom(text, 1, 0, cells, end);
    }
  }
}

/**
 Devices are printed without escaping: which batches of log entries a reader can
 undo, and what the others can look like. Where a device has a quote or a
 backslash, the reader is followed up to it and seen to leave the string there
 or to swallow the end of it.
 */
module DeviceText {
  import opened Bytes
  import opened JsonText
  import opened BatchText

  // ---------- around the device ----------

  /** The text of an entry before and after its device. */
  function Head(t: Uint64, timeText: Uint64 -> string): string {
    "{" + MemberText(Member("topic", Quoted("LOGGING"))) + ("," + MemberText(Member("time", Quoted(timeText(t)))))
    + ",\"device\":\""
  }

  function Tail(e: LogEntry): string {
    "\"" + ("," + MemberText(Member("severity", Decimal(e.severity))))
    + ("," + MemberText(Member("message", Quoted(EscapeAll(TrimRight(e.message))))))
    + ("," + MemberText(Member("repeats", Decimal(e.repeats)))) + "}"
  }

  lemma EntryAroundDevice(e: LogEntry, timeText: Uint64 -> string)
    ensures EntryText(e, timeText) == Head(e.timestamp, timeText) + e.device + Tail(e)
  {
    var ms := Members(e, timeText);
    JoinSix(Texts(ms));
    LiteralParts("", e.device, "", "", "");
    var h := "{" + MemberText(ms[0]) + ("," + MemberText(ms[1]));
    var t := ("," + MemberText(ms[3])) + ("," + MemberText(ms[4])) + ("," + MemberText(ms[5])) + "}";
    Around(h, e.device, t);
    EntryPieces(Texts(ms), h, t);
    TailPieces(MemberText(ms[3]), MemberText(ms[4]), MemberText(ms[5]), t);
  }

  lemma Around(h: string, device: string, t: string)
    ensures h + (",\"device\":\"" + device + "\"") + t == h + ",\"device\":\"" + device + ("\"" + t)
  {
  }

  lemma EntryPieces(ts: seq<string>, h: string, t: string)
    requires |ts| == 6 && h == "{" + ts[0] + ("," + ts[1])
    requires t == ("," + ts[3]) + ("," + ts[4]) + ("," + ts[5]) + "}"
    ensures "{" + (ts[0] + ("," + ts[1]) + ("," + ts[2]) + ("," + ts[3]) + ("," + ts[4]) + ("," + ts[5])) + "}"
            == h + ("," + ts[2]) + t
  {
  }

  lemma TailPieces(severity: string, message: string, repeats: string, t: string)
    requires t == ("," + severity) + ("," + message) + ("," + repeats) + "}"
    ensures "\"" + ("," + severity) + ("," + message) + ("," + repeats) + "}" == "\"" + t
  {
  }

  const BREAK: string := "\",\""   // ends the device and begins the next key

  lemma TailBreaks(e: LogEntry)
    ensures |Tail(e)| >= 3 && Tail(e) == BREAK + Tail(e)[3..]
  {
    var severity := MemberText(Member("severity", Decimal(e.severity)));
    assert severity[0] == '"' && ("\"" + ("," + severity))[..3] == BREAK;
    assert Tail(e)[..3] == ("\"" + ("," + severity))[..3];
  }

  // ---------- what unescaping can return ----------

  /** Unescaping never lengthens, and keeps the length only of plain text. */
  lemma {:induction false} UnescapeShortens(s: string)
    requires Unescape(s, false).Some?
    ensures |Unescape(s, false).value| <= |s|
    ensures |Unescape(s, false).value| == |s| ==> Plain(s)
  {
    if s != "" {
      if s[0] == '\\' {
        UnescapeShortens(s[2..]);
      } else {
        UnescapeShortens(s[1..]);
      }
    }
  }

  /** No body goes on past a closing quote, a comma and another quote, even if it escapes the first. */
  lemma {:induction false} UnescapeBlocked(x: string, y: string)
    ensures Unescape(x + BREAK + y, false).None?
  {
    var t := x + BREAK + y;
    if x == "" {
      assert t[0] == '"';
    } else if x[0] != '\\' {
      assert t[1..] == x[1..] + BREAK + y;
      UnescapeBlocked(x[1..], y);
    } else if |x| == 1 {
      assert t[1] == '"' && t[2..] == ",\"" + y && t[2..][1..] == "\"" + y;
      assert Unescape(t[2..][1..], false).None?;
    } else {
      assert t[2..] == x[2..] + BREAK + y;
      UnescapeBlocked(x[2..], y);
    }
  }

  /** Nor does what it denotes end as it does, when it stops before that quote. */
  lemma {:induction false} UnescapeAtQuote(x: string, end: string)
    requires end == "\"" || end == "\","
    requires Unescape(x + end, false).Some?
    ensures var v := Unescape(x + end, false).value;
            x != "" && v != "" && x[|x| - 1] == '\\' && v[|v| - 1] == end[|end| - 1]
  {
    var t := x + end;
    if x == "" {
      assert false;
    } else if x[0] != '\\' {
      assert t[1..] == x[1..] + end;
      UnescapeAtQuote(x[1..], end);
    } else if |x| == 1 {
      assert t[1] == '"' && t[2..] == end[1..];
      assert ","[1..] == "" && Unescape(",", false) == Some([','] + "");
      assert end[1..] == "" || end[1..] == ",";
    } else {
      assert t[2..] == x[2..] + end;
      UnescapeAtQuote(x[2..], end);
    }
  }

  /** A raw string value that starts at a printed device denotes the device only if the device is plain. */
  lemma RawDevice(device: string, y: string, raw: string)
    requires raw <= "\"" + device + BREAK + y && StringOf(Some(raw)) == Some(device)
    ensures Plain(device)
  {
    var body, all := raw[1..|raw| - 1], device + BREAK + y;
    assert ("\"" + device + BREAK + y)[1..] == all;
    assert body == all[..|body|];
    UnescapeShortens(body);
    if |body| == |device| {
      assert body == device;
    } else if |body| <= |device| + 2 {
      var end := BREAK[..|body| - |device|];
      assert body == device + end;
      assert end == "\"" || end == "\",";
      UnescapeAtQuote(device, end);
    } else {
      var rest := y[..|body| - |device| - 3];
      assert body == device + BREAK + rest;
      UnescapeBlocked(device, rest);
    }
  }

  // ---------- the device of the first entry read ----------

  /** Where the first cut is. */
  function FirstCut(text: string, st: Scan): (k: nat)
    ensures k <= |text|
  {
    if text == "" || Cuts(st, text[0]) then 0 else 1 + FirstCut(text[1..], Next(st, text[0]))
  }

  lemma {:induction false} FirstPiece(text: string, current: string, st: Scan)
    ensures var pieces := SplitFrom(text, current, st);
            pieces != [] && pieces[0] == current + text[..FirstCut(text, st)]
    decreases |text|
  {
    if text != "" && !Cuts(st, text[0]) {
      FirstPiece(text[1..], current + [text[0]], Next(st, text[0]));
      assert text[..FirstCut(text, st)] == [text[0]] + text[1..][..FirstCut(text, st) - 1];
    }
  }

  lemma NextPiece(a: string, rest: string)
    requires Neutral(a, 0)
    ensures SplitTop(a + "," + rest) == [a] + SplitTop(rest)
  {
    var t := "," + rest;
    assert a + "," + rest == a + t && t[1..] == rest && "" + a == a;
    SplitQuiet(a, t, "", START);
  }

  function TopicText(): string {
    MemberText(Member("topic", Quoted("LOGGING")))
  }

  function TimeMember(t: Uint64, timeText: Uint64 -> string): Member {
    Member("time", Quoted(timeText(t)))
  }

  const KEY: string := "\"device\":"

  /** What precedes the value of the device inside the object. */
  function Leading(t: Uint64, timeText: Uint64 -> string): string {
    TopicText() + "," + MemberText(TimeMember(t, timeText)) + "," + KEY
  }

  lemma HeadLeads(t: Uint64, timeText: Uint64 -> string)
    ensures Head(t, timeText) == "{" + Leading(t, timeText) + "\""
  {
    assert ",\"device\":\"" == "," + KEY + "\"";
  }

  lemma LeadingNeutral(t: Uint64, timeText: Uint64 -> string, depth: nat)
    requires Plain(timeText(t))
    ensures Neutral(TopicText(), depth) && Neutral(MemberText(TimeMember(t, timeText)), depth) && Neutral(KEY, depth)
  {
    PlainIsBody("LOGGING", depth); QuotedNeutral("LOGGING", depth);
    MemberNeutral(Member("topic", Quoted("LOGGING")), depth);
    PlainIsBody(timeText(t), depth); QuotedNeutral(timeText(t), depth);
    assert Plain("time");
    MemberNeutral(TimeMember(t, timeText), depth);
    InertNeutral("", depth);
    assert Plain("device");
    MemberNeutral(Member("device", ""), depth);
    assert KEY == MemberText(Member("device", ""));
  }

  lemma LeadingQuiet(t: Uint64, timeText: Uint64 -> string)
    requires Plain(timeText(t))
    ensures Neutral(Leading(t, timeText), 1)
  {
    LeadingNeutral(t, timeText, 1);
    var topic, time := TopicText(), MemberText(TimeMember(t, timeText));
    assert ","[1..] == "" && Neutral(",", 1);
    NeutralConcat(topic, ",", 1);
    NeutralConcat(topic + ",", time, 1);
    NeutralConcat(topic + "," + time, ",", 1);
    NeutralConcat(topic + "," + time + ",", KEY, 1);
  }

  /** The scan of a batch makes no cut before the first device. */
  lemma HeadQuiet(t: Uint64, timeText: Uint64 -> string)
    requires Plain(timeText(t))
    ensures Quiet(Head(t, timeText), START)
  {
    LeadingQuiet(t, timeText);
    HeadLeads(t, timeText);
    var one := Scan(1, false, false);
    assert "{"[1..] == "" && Run("{", START) == one && Quiet("{", START);
    assert "\""[1..] == "" && Quiet("\"", one);
    Glue("{", Leading(t, timeText), START);
    Glue("{" + Leading(t, timeText), "\"", START);
  }

  lemma ThreeParts(a: string, b: string, key: string, r: string)
    ensures a + "," + b + "," + key + r == a + "," + (b + "," + (key + r))
  {
  }

  lemma SplitThree(a: string, b: string, key: string, r: string)
    requires Neutral(a, 0) && Neutral(b, 0) && Neutral(key, 0)
    ensures SplitTop(a + "," + b + "," + key + r) == [a] + ([b] + SplitFrom(r, key, START))
  {
    ThreeParts(a, b, key, r);
    NextPiece(a, b + "," + (key + r));
    NextPiece(b, key + r);
    assert "" + key == key;
    SplitQuiet(key, r, "", START);
  }

  lemma LookupThird(first: string, second: string, third: seq<string>, key: string, value: string)
    requires !HasPrefix(first, Quoted(key) + ":") && !HasPrefix(second, Quoted(key) + ":")
    requires third != [] && third[0] == Quoted(key) + ":" + value
    ensures Lookup([first] + ([second] + third), key) == Some(value)
  {
    assert third[0][..|Quoted(key) + ":"|] == Quoted(key) + ":";
    assert third[0][|Quoted(key) + ":"|..] == value;
    assert Lookup(third, key) == Some(value);
    assert ([second] + third)[1..] == third;
    assert Lookup([second] + third, key) == Some(value);
    assert ([first] + ([second] + third))[1..] == [second] + third;
  }

  lemma InsideObject(lead: string, q: string)
    ensures var obj := "{" + lead + "\"" + q; obj[1..|obj| - 1] == lead + ("\"" + q)[..|q|]
  {
  }

  /** The device that a reader finds in a piece starting like an entry begins where the printed one does. */
  lemma DeviceField(t: Uint64, timeText: Uint64 -> string, q: string)
    requires Plain(timeText(t))
    ensures var field := FieldOf(Head(t, timeText) + q, "device");
            field.Some? ==> field.value <= "\"" + q
  {
    var r := ("\"" + q)[..|q|];
    HeadLeads(t, timeText);
    InsideObject(Leading(t, timeText), q);
    DeviceInside(t, timeText, r);
  }

  lemma DeviceInside(t: Uint64, timeText: Uint64 -> string, r: string)
    requires Plain(timeText(t))
    ensures Lookup(SplitTop(Leading(t, timeText) + r), "device") == Some(r[..FirstCut(r, START)])
  {
    LeadingNeutral(t, timeText, 0);
    SplitThree(TopicText(), MemberText(TimeMember(t, timeText)), KEY, r);
    FirstPiece(r, KEY, START);
    KeysDiffer(t, timeText);
    assert Quoted("device") + ":" == KEY;
    LookupThird(TopicText(), MemberText(TimeMember(t, timeText)), SplitFrom(r, KEY, START), "device",
                r[..FirstCut(r, START)]);
  }

  lemma KeysDiffer(t: Uint64, timeText: Uint64 -> string)
    ensures !HasPrefix(TopicText(), Quoted("device") + ":")
    ensures !HasPrefix(MemberText(TimeMember(t, timeText)), Quoted("device") + ":")
  {
    assert Plain("topic") && Plain("time") && Plain("device");
    assert |"topic"| != |"device"| && |"time"| != |"device"|;
    KeysApart(Member("topic", Quoted("LOGGING")), "device");
    KeysApart(TimeMember(t, timeText), "device");
  }

  /** The first piece cut from a text that starts like an entry gives back its device only if that is plain. */
  lemma FirstDevice(t: Uint64, timeText: Uint64 -> string, device: string, y: string)
    requires Plain(timeText(t))
    ensures var pieces := SplitTop(Head(t, timeText) + (device + BREAK + y));
            pieces != [] && (StringOf(FieldOf(pieces[0], "device")) == Some(device) ==> Plain(device))
  {
    var head, rest := Head(t, timeText), device + BREAK + y;
    HeadQuiet(t, timeText);
    assert "" + head == head;
    SplitQuiet(head, rest, "", START);
    FirstPiece(rest, head, Run(head, START));
    PieceDevice(t, timeText, device, y, rest[..FirstCut(rest, Run(head, START))]);
  }

  lemma PieceDevice(t: Uint64, timeText: Uint64 -> string, device: string, y: string, q: string)
    requires Plain(timeText(t)) && q <= device + BREAK + y
    ensures StringOf(FieldOf(Head(t, timeText) + q, "device")) == Some(device) ==> Plain(device)
  {
    DeviceField(t, timeText, q);
    if StringOf(FieldOf(Head(t, timeText) + q, "device")) == Some(device) {
      var raw := FieldOf(Head(t, timeText) + q, "device").value;
      assert "\"" + q <= "\"" + (device + BREAK + y);
      assert "\"" + (device + BREAK + y) == "\"" + device + BREAK + y;
      RawDevice(device, y, raw);
    }
  }

  // ---------- which entries and batches read back ----------

  /** An entry's text up to its device and the break after it. */
  lemma BreaksAfterDevice(e: LogEntry, timeText: Uint64 -> string, after: string)
    ensures EntryText(e, timeText) + after ==
            Head(e.timestamp, timeText) + (e.device + BREAK + (Tail(e)[3..] + after))
  {
    EntryAroundDevice(e, timeText);
    TailBreaks(e);
    Reassociate(Head(e.timestamp, timeText), e.device, BREAK, Tail(e)[3..], after);
  }

  lemma Reassociate(a: string, b: string, c: string, d: string, e: string)
    ensures a + b + (c + d) + e == a + (b + c + (d + e))
  {
  }

  /** A printed entry reads back as itself if and only if its device has no quote or backslash. */
  lemma EntryReadsBackIff(e: LogEntry, timeText: Uint64 -> string)
    requires Plain(timeText(e.timestamp))
    ensures ReadEntry(EntryText(e, timeText)) == Some(RecordOf(e, timeText)) <==> Plain(e.device)
  {
    if Plain(e.device) {
      ReadPrinted(e, timeText);
    } else {
      var text, y := EntryText(e, timeText), Tail(e)[3..] + "";
      BreaksAfterDevice(e, timeText, "");
      assert text + "" == text;
      PieceDevice(e.timestamp, timeText, e.device, y, e.device + BREAK + y);
    }
  }

  lemma JoinFirst(ts: seq<string>)
    requires ts != []
    ensures JoinComma(ts) == ts[0] + if |ts| == 1 then "" else "," + JoinComma(ts[1..])
  {
  }

  /** The first entry of a batch that reads back is plain. */
  lemma FirstIsPlain(es: seq<LogEntry>, timeText: Uint64 -> string)
    requires es != [] && Plain(timeText(es[0].timestamp))
    requires ReadBatch(LogBatchText(es, timeText)) == RecordsOf(es, timeText)
    ensures Plain(es[0].device)
  {
    var e, text := es[0], LogBatchText(es, timeText);
    var ts := EntryTexts(es, timeText);
    JoinFirst(ts);
    var after := if |ts| == 1 then "" else "," + JoinComma(ts[1..]);
    BreaksAfterDevice(e, timeText, after);
    FirstDevice(e.timestamp, timeText, e.device, Tail(e)[3..] + after);
    assert ReadBatch(text)[0] == Some(RecordOf(e, timeText));
  }

  lemma SplitsFirst(es: seq<LogEntry>, timeText: Uint64 -> string)
    requires |es| > 1 && Plain(timeText(es[0].timestamp)) && Plain(es[0].device)
    ensures SplitTop(LogBatchText(es, timeText)) ==
            [EntryText(es[0], timeText)] + SplitTop(LogBatchText(es[1..], timeText))
  {
    var ts := EntryTexts(es, timeText);
    assert ts[1..] == EntryTexts(es[1..], timeText);
    MembersWellFormed(es[0], timeText);
    ObjectNeutral(Members(es[0], timeText));
    NextPiece(ts[0], JoinComma(ts[1..]));
  }

  lemma ReadsFirst(first: string, rest: seq<string>)
    ensures ReadEach([first] + rest) == [ReadEntry(first)] + ReadEach(rest)
  {
  }

  lemma FirstRecord(es: seq<LogEntry>, timeText: Uint64 -> string)
    requires es != []
    ensures RecordsOf(es, timeText) == [Some(RecordOf(es[0], timeText))] + RecordsOf(es[1..], timeText)
  {
  }

  /** And so the others read back too. */
  lemma RestReadsBack(es: seq<LogEntry>, timeText: Uint64 -> string)
    requires |es| > 1 && Plain(timeText(es[0].timestamp)) && Plain(es[0].device)
    requires ReadBatch(LogBatchText(es, timeText)) == RecordsOf(es, timeText)
    ensures ReadBatch(LogBatchText(es[1..], timeText)) == RecordsOf(es[1..], timeText)
  {
    var rest := SplitTop(LogBatchText(es[1..], timeText));
    SplitsFirst(es, timeText);
    ReadsFirst(EntryText(es[0], timeText), rest);
    FirstRecord(es, timeText);
    SameTails(ReadEntry(EntryText(es[0], timeText)), ReadEach(rest), Some(RecordOf(es[0], timeText)), RecordsOf(es[1..], timeText));
  }

  lemma SameTails<T>(x: T, xs: seq<T>, y: T, ys: seq<T>)
    requires [x] + xs == [y] + ys
    ensures xs == ys
  {
    assert ([x] + xs)[1..] == xs && ([y] + ys)[1..] == ys;
  }

  lemma {:induction false} OnlyPlainReadBack(es: seq<LogEntry>, timeText: Uint64 -> string)
    requires es != [] && forall i :: 0 <= i < |es| ==> Plain(timeText(es[i].timestamp))
    requires ReadBatch(LogBatchText(es, timeText)) == RecordsOf(es, timeText)
    ensures forall i :: 0 <= i < |es| ==> Plain(es[i].device)
  {
    FirstIsPlain(es, timeText);
    if |es| > 1 {
      RestReadsBack(es, timeText);
      OnlyPlainReadBack(es[1..], timeText);
      assert forall i :: 0 < i < |es| ==> es[i] == es[1..][i - 1];
    }
  }

  /**
   A batch reads back as its entries, one record each and in order, if and only if every device is free of quotes and
   backslashes; messages are arbitrary.
   */
  lemma BatchReadsBackIff(es: seq<LogEntry>, timeText: Uint64 -> string)
    requires es != [] && forall i :: 0 <= i < |es| ==> Plain(timeText(es[i].timestamp))
    ensures ReadBatch(LogBatchText(es, timeText)) == RecordsOf(es, timeText) <==>
            forall i :: 0 <= i < |es| ==> Plain(es[i].device)
  {
    if forall i :: 0 <= i < |es| ==> Plain(es[i].device) {
      BatchReadsBack(es, timeText);
    }
    if ReadBatch(LogBatchText(es, timeText)) == RecordsOf(es, timeText) {
      OnlyPlainReadBack(es, timeText);
    }
  }

  // ---------- what the others can look like ----------

  /**
   Without plain devices no reader can undo the text: any two entries of the same time print exactly like a single
   entry with a suitable device.
   */
  lemma UnescapedDeviceForges(e1: LogEntry, e2: LogEntry, timeText: Uint64 -> string)
    requires e1.timestamp == e2.timestamp
    ensures var device := e1.device + Tail(e1) + "," + Head(e2.timestamp, timeText) + e2.device;
            LogBatchText([e2.(device := device)], timeText) == LogBatchText([e1, e2], timeText)
  {
    var device := e1.device + Tail(e1) + "," + Head(e2.timestamp, timeText) + e2.device;
    var e := e2.(device := device);
    EntryAroundDevice(e, timeText);
    EntryAroundDevice(e1, timeText);
    EntryAroundDevice(e2, timeText);
    var one, two := EntryTexts([e], timeText), EntryTexts([e1, e2], timeText);
    assert one == [EntryText(e, timeText)];
    assert two[1..] == [EntryText(e2, timeText)] && JoinComma(two[1..]) == EntryText(e2, timeText);
    assert Tail(e) == Tail(e2);
    Regroup(Head(e1.timestamp, timeText), e1.device, Tail(e1), e2.device, Tail(e2));
  }

  lemma Regroup(h: string, d1: string, t1: string, d2: string, t2: string)
    ensures h + (d1 + t1 + "," + h + d2) + t2 == (h + d1 + t1) + "," + (h + d2 + t2)
  {
  }
}

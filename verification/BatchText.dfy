/**
 The text of one logging datagram, and a reader that undoes it. The datagram is
 the comma-joined list of the entries, each an object of six members of which
 only the message is escaped; the reader splits at top-level commas, looks the
 members up and turns their texts back.
 */
module BatchText {
  import opened Bytes
  import opened JsonText

  datatype LogEntry = LogEntry(message: string, severity: nat, device: string, timestamp: Uint64, repeats: Uint32)

  // ---------- numbers ----------

  function Digit(d: nat): char
    requires d < 10
  {
    ('0' as int + d) as char
  }

  function Decimal(n: nat): string {
    if n < 10 then [Digit(n)] else Decimal(n / 10) + [Digit(n % 10)]
  }

  function ParseDecimal(s: string): int {
    if s == "" then 0 else ParseDecimal(s[..|s| - 1]) * 10 + (s[|s| - 1] as int - '0' as int)
  }

  lemma {:induction false} DecimalRoundTrip(n: nat)
    ensures ParseDecimal(Decimal(n)) == n
  {
    if n >= 10 {
      DecimalRoundTrip(n / 10);
      assert Decimal(n)[..|Decimal(n)| - 1] == Decimal(n / 10);
    } else {
      assert Decimal(n)[..0] == "";
    }
  }

  /** A number is written in digits only. */
  lemma {:induction false} DecimalDigits(n: nat)
    ensures Decimal(n) != "" && forall i :: 0 <= i < |Decimal(n)| ==> '0' <= Decimal(n)[i] <= '9'
  {
    if n >= 10 {
      DecimalDigits(n / 10);
    }
  }

  lemma {:induction false} DecimalInert(n: nat)
    ensures Inert(Decimal(n))
  {
    assert forall d: nat :: d < 10 ==> Digit(d) !in "\",{}[]" by {
      assert forall c :: c in "\",{}[]" ==> c in ['"', ',', '{', '}', '[', ']'];
    }
    if n >= 10 {
      DecimalInert(n / 10);
    }
  }

  // ---------- printing ----------

  function Members(e: LogEntry, timeText: Uint64 -> string): (ms: seq<Member>)
    ensures |ms| == 6
  {
    [ Member("topic", Quoted("LOGGING")),
      Member("time", Quoted(timeText(e.timestamp))),
      Member("device", Quoted(e.device)),
      Member("severity", Decimal(e.severity)),
      Member("message", Quoted(EscapeAll(TrimRight(e.message)))),
      Member("repeats", Decimal(e.repeats)) ]
  }

  function EntryText(e: LogEntry, timeText: Uint64 -> string): string {
    Object(Members(e, timeText))
  }

  function EntryTexts(es: seq<LogEntry>, timeText: Uint64 -> string): (ts: seq<string>)
    ensures |ts| == |es|
  {
    seq(|es|, i requires 0 <= i < |es| => EntryText(es[i], timeText))
  }

  function LogBatchText(es: seq<LogEntry>, timeText: Uint64 -> string): string {
    JoinComma(EntryTexts(es, timeText))
  }

  /** The text as the program assembles it. */
  method PrintEntry(e: LogEntry, timeText: Uint64 -> string) returns (text: string)
    ensures text == EntryText(e, timeText)
  {
    var escaped := JsonEscape(e.message);
    var time, device := ",\"time\":\"" + timeText(e.timestamp) + "\"", ",\"device\":\"" + e.device + "\"";
    var severity, message := ",\"severity\":" + Decimal(e.severity), ",\"message\":\"" + escaped + "\"";
    var repeats := ",\"repeats\":" + Decimal(e.repeats);
    text := "{\"topic\":\"LOGGING\"" + time + device + severity + message + repeats + "}";
    LiteralParts(timeText(e.timestamp), e.device, Decimal(e.severity), escaped, Decimal(e.repeats));
    Assembled(Members(e, timeText), text);
  }

  lemma Assembled(ms: seq<Member>, text: string)
    requires |ms| == 6
    requires text == "{" + MemberText(ms[0]) + ("," + MemberText(ms[1])) + ("," + MemberText(ms[2]))
                   + ("," + MemberText(ms[3])) + ("," + MemberText(ms[4])) + ("," + MemberText(ms[5])) + "}"
    ensures text == Object(ms)
  {
    var ts := Texts(ms);
    JoinSix(ts);
    Braced(ts[0], "," + ts[1], "," + ts[2], "," + ts[3], "," + ts[4], "," + ts[5]);
  }

  lemma Braced(a: string, b: string, c: string, d: string, e: string, f: string)
    ensures "{" + a + b + c + d + e + f + "}" == "{" + (a + b + c + d + e + f) + "}"
  {
  }

  lemma LiteralParts(time: string, device: string, severity: string, message: string, repeats: string)
    ensures "{" + MemberText(Member("topic", Quoted("LOGGING"))) == "{\"topic\":\"LOGGING\""
    ensures "," + MemberText(Member("time", Quoted(time))) == ",\"time\":\"" + time + "\""
    ensures "," + MemberText(Member("device", Quoted(device))) == ",\"device\":\"" + device + "\""
    ensures "," + MemberText(Member("severity", severity)) == ",\"severity\":" + severity
    ensures "," + MemberText(Member("message", Quoted(message))) == ",\"message\":\"" + message + "\""
    ensures "," + MemberText(Member("repeats", repeats)) == ",\"repeats\":" + repeats
  {
    KeyLiterals();
    StringMember("time", time);
    StringMember("device", device);
    NumberMember("severity", severity);
    StringMember("message", message);
    NumberMember("repeats", repeats);
  }

  lemma StringMember(key: string, body: string)
    ensures "," + MemberText(Member(key, Quoted(body))) == (",\"" + key + "\":\"") + body + "\""
  {
  }

  lemma NumberMember(key: string, number: string)
    ensures "," + MemberText(Member(key, number)) == (",\"" + key + "\":") + number
  {
  }

  lemma KeyLiterals()
    ensures ",\"" + "time" + "\":\"" == ",\"time\":\""
    ensures ",\"" + "device" + "\":\"" == ",\"device\":\""
    ensures ",\"" + "severity" + "\":" == ",\"severity\":"
    ensures ",\"" + "message" + "\":\"" == ",\"message\":\""
    ensures ",\"" + "repeats" + "\":" == ",\"repeats\":"
  {
  }

  lemma JoinSix(ts: seq<string>)
    requires |ts| == 6
    ensures JoinComma(ts) == ts[0] + ("," + ts[1]) + ("," + ts[2]) + ("," + ts[3]) + ("," + ts[4]) + ("," + ts[5])
  {
    assert JoinComma(ts[5..]) == ts[5];
    assert ts[4..][1..] == ts[5..] && JoinComma(ts[4..]) == ts[4] + "," + ts[5];
    assert ts[3..][1..] == ts[4..] && JoinComma(ts[3..]) == ts[3] + "," + JoinComma(ts[4..]);
    assert ts[2..][1..] == ts[3..] && JoinComma(ts[2..]) == ts[2] + "," + JoinComma(ts[3..]);
    assert ts[1..][1..] == ts[2..] && JoinComma(ts[1..]) == ts[1] + "," + JoinComma(ts[2..]);
  }

  // ---------- reading back ----------

  /** What a reader learns of one entry. */
  datatype Record = Record(topic: string, time: string, device: string, severity: int, message: string, repeats: int)

  function ReadEntry(text: string): Option<Record> {
    var topic, time := StringOf(FieldOf(text, "topic")), StringOf(FieldOf(text, "time"));
    var device, message := StringOf(FieldOf(text, "device")), StringOf(FieldOf(text, "message"));
    var severity, repeats := FieldOf(text, "severity"), FieldOf(text, "repeats");
    if topic.None? || time.None? || device.None? || message.None? || severity.None? || repeats.None? then None
    else Some(Record(topic.value, time.value, device.value, ParseDecimal(severity.value), message.value,
                     ParseDecimal(repeats.value)))
  }

  function ReadEach(texts: seq<string>): (rs: seq<Option<Record>>)
    ensures |rs| == |texts|
  {
    seq(|texts|, i requires 0 <= i < |texts| => ReadEntry(texts[i]))
  }

  function ReadBatch(text: string): seq<Option<Record>> {
    ReadEach(SplitTop(text))
  }

  function RecordOf(e: LogEntry, timeText: Uint64 -> string): Record {
    Record("LOGGING", timeText(e.timestamp), e.device, e.severity, Normalised(e.message), e.repeats)
  }

  function RecordsOf(es: seq<LogEntry>, timeText: Uint64 -> string): (rs: seq<Option<Record>>)
    ensures |rs| == |es|
  {
    seq(|es|, i requires 0 <= i < |es| => Some(RecordOf(es[i], timeText)))
  }

  /** The record tells everything about the entry, and its message as far as it is kept. */
  predicate Tells(r: Record, e: LogEntry, timeText: Uint64 -> string) {
    && r.topic == "LOGGING" && r.time == timeText(e.timestamp) && r.device == e.device
    && r.severity == e.severity && r.repeats == e.repeats && Kept(e.message, r.message)
  }

  lemma ValuesNeutral(e: LogEntry, timeText: Uint64 -> string, d: nat)
    requires Plain(e.device) && Plain(timeText(e.timestamp))
    ensures forall i :: 0 <= i < 6 ==> Neutral(Members(e, timeText)[i].value, d)
  {
    PlainIsBody("LOGGING", d); QuotedNeutral("LOGGING", d);
    PlainIsBody(timeText(e.timestamp), d); QuotedNeutral(timeText(e.timestamp), d);
    PlainIsBody(e.device, d); QuotedNeutral(e.device, d);
    EscapedIsBody(TrimRight(e.message), d); QuotedNeutral(EscapeAll(TrimRight(e.message)), d);
    DecimalInert(e.severity); InertNeutral(Decimal(e.severity), d);
    DecimalInert(e.repeats); InertNeutral(Decimal(e.repeats), d);
  }

  lemma KeysDistinct(ms: seq<Member>)
    requires |ms| == 6 && ms[0].key == "topic" && ms[1].key == "time" && ms[2].key == "device"
    requires ms[3].key == "severity" && ms[4].key == "message" && ms[5].key == "repeats"
    ensures forall i :: 0 <= i < |ms| ==> Plain(ms[i].key)
    ensures forall i, j :: 0 <= i < j < |ms| ==> ms[i].key != ms[j].key
  {
    assert ms[4].key[0] == 'm' && ms[5].key[0] == 'r';
    assert |ms[0].key| == 5 && |ms[1].key| == 4 && |ms[2].key| == 6 && |ms[3].key| == 8
        && |ms[4].key| == 7 && |ms[5].key| == 7;
  }

  lemma MembersWellFormed(e: LogEntry, timeText: Uint64 -> string)
    requires Plain(e.device) && Plain(timeText(e.timestamp))
    ensures WellFormed(Members(e, timeText))
  {
    ValuesNeutral(e, timeText, 0);
    ValuesNeutral(e, timeText, 1);
    KeysDistinct(Members(e, timeText));
  }

  lemma {:induction false} UnescapePlain(s: string)
    requires Plain(s)
    ensures Unescape(s, false) == Some(s)
  {
    if s != "" {
      UnescapePlain(s[1..]);
      assert [s[0]] + s[1..] == s;
    }
  }

  lemma ReadQuoted(body: string)
    ensures StringOf(Some(Quoted(body))) == Unescape(body, false)
  {
    assert Quoted(body)[1..|Quoted(body)| - 1] == body;
  }

  lemma ReadPlain(body: string)
    requires Plain(body)
    ensures StringOf(Some(Quoted(body))) == Some(body)
  {
    ReadQuoted(body);
    UnescapePlain(body);
  }

  lemma FieldsPrinted(e: LogEntry, timeText: Uint64 -> string)
    requires Plain(e.device) && Plain(timeText(e.timestamp))
    ensures var text := EntryText(e, timeText);
            && FieldOf(text, "topic") == Some(Quoted("LOGGING"))
            && FieldOf(text, "time") == Some(Quoted(timeText(e.timestamp)))
            && FieldOf(text, "device") == Some(Quoted(e.device))
            && FieldOf(text, "severity") == Some(Decimal(e.severity))
            && FieldOf(text, "message") == Some(Quoted(EscapeAll(TrimRight(e.message))))
            && FieldOf(text, "repeats") == Some(Decimal(e.repeats))
  {
    var ms := Members(e, timeText);
    MembersWellFormed(e, timeText);
    forall i | 0 <= i < 6 ensures FieldOf(Object(ms), ms[i].key) == Some(ms[i].value) {
      ReadMember(ms, i);
    }
    assert ms[0].key == "topic" && ms[1].key == "time" && ms[2].key == "device" && ms[3].key == "severity"
        && ms[4].key == "message" && ms[5].key == "repeats";
  }

  lemma ReadPrinted(e: LogEntry, timeText: Uint64 -> string)
    requires Plain(e.device) && Plain(timeText(e.timestamp))
    ensures ReadEntry(EntryText(e, timeText)) == Some(RecordOf(e, timeText)) && Tells(RecordOf(e, timeText), e, timeText)
  {
    FieldsPrinted(e, timeText);
    ReadPlain("LOGGING");
    ReadPlain(timeText(e.timestamp));
    ReadPlain(e.device);
    ReadQuoted(EscapeAll(TrimRight(e.message)));
    EscapeRoundTrip(e.message);
    DecimalRoundTrip(e.severity);
    DecimalRoundTrip(e.repeats);
  }

  /**
   One record per entry, in order, whatever the messages contain: quotes, backslashes and separators
   in a message neither split nor merge entries.
   */
  lemma BatchReadsBack(es: seq<LogEntry>, timeText: Uint64 -> string)
    requires es != [] && forall i :: 0 <= i < |es| ==> Plain(es[i].device) && Plain(timeText(es[i].timestamp))
    ensures SplitTop(LogBatchText(es, timeText)) == EntryTexts(es, timeText)
    ensures var rs := ReadBatch(LogBatchText(es, timeText));
            && rs == RecordsOf(es, timeText) && |rs| == |es|
            && forall i :: 0 <= i < |es| ==> rs[i].Some? && Tells(rs[i].value, es[i], timeText)
  {
    var ts := EntryTexts(es, timeText);
    forall i | 0 <= i < |es|
      ensures Neutral(ts[i], 0) && ReadEntry(ts[i]) == Some(RecordOf(es[i], timeText))
      ensures Tells(RecordOf(es[i], timeText), es[i], timeText)
    {
      MembersWellFormed(es[i], timeText);
      ObjectNeutral(Members(es[i], timeText));
      ReadPrinted(es[i], timeText);
    }
    SplitJoin(ts);
    assert ReadEach(ts) == RecordsOf(es, timeText);
  }
}

/**
 The text of a monitoring datagram, read back. The data of an entry is JSON text
 of its own and goes in as it is, and so do the device, the subject and the time:
 a reader finds every entry again when the data is balanced and the others have
 no quote or backslash.
 */
module MonitoringText {
  import opened Bytes
  import opened JsonText
  import opened BatchText
  import opened Batching

  function Members(e: MonEntry, timeText: Uint64 -> string): (ms: seq<Member>)
    ensures |ms| == 5
  {
    [ Member("topic", Quoted("MONITORING")),
      Member("time", Quoted(timeText(e.timestamp))),
      Member("device", Quoted(e.device)),
      Member("subject", Quoted(e.subject)),
      Member("data", e.data) ]
  }

  /** The data goes in as it is: it must be balanced JSON text, and nothing else is escaped either. */
  predicate Printable(e: MonEntry, timeText: Uint64 -> string) {
    Plain(e.device) && Plain(e.subject) && Plain(timeText(e.timestamp)) && Neutral(e.data, 0) && Neutral(e.data, 1)
  }

  lemma JoinFive(ts: seq<string>)
    requires |ts| == 5
    ensures JoinComma(ts) == ts[0] + ("," + ts[1]) + ("," + ts[2]) + ("," + ts[3]) + ("," + ts[4])
  {
    assert JoinComma(ts[4..]) == ts[4];
    assert ts[3..][1..] == ts[4..] && JoinComma(ts[3..]) == ts[3] + "," + ts[4];
    assert ts[2..][1..] == ts[3..] && JoinComma(ts[2..]) == ts[2] + "," + JoinComma(ts[3..]);
    assert ts[1..][1..] == ts[2..] && JoinComma(ts[1..]) == ts[1] + "," + JoinComma(ts[2..]);
  }

  lemma LiteralParts(time: string, device: string, subject: string, data: string)
    ensures "{" + MemberText(Member("topic", Quoted("MONITORING"))) == "{\"topic\":\"MONITORING\""
    ensures "," + MemberText(Member("time", Quoted(time))) == ",\"time\":\"" + time + "\""
    ensures "," + MemberText(Member("device", Quoted(device))) == ",\"device\":\"" + device + "\""
    ensures "," + MemberText(Member("subject", Quoted(subject))) == ",\"subject\":\"" + subject + "\""
    ensures "," + MemberText(Member("data", data)) == ",\"data\":" + data
  {
    KeyLiterals();
    assert ",\"" + "subject" + "\":\"" == ",\"subject\":\"" && ",\"" + "data" + "\":" == ",\"data\":";
    StringMember("time", time);
    StringMember("device", device);
    StringMember("subject", subject);
    NumberMember("data", data);
  }

  lemma Braced(a: string, b: string, c: string, d: string, e: string)
    ensures "{" + a + b + c + d + e + "}" == "{" + (a + b + c + d + e) + "}"
  {
  }

  lemma Flat(a: string, t1: string, t2: string, d1: string, d2: string, s1: string, s2: string, x1: string, x2: string)
    ensures a + (t1 + t2 + "\"") + (d1 + d2 + "\"") + (s1 + s2 + "\"") + (x1 + x2) + "}" ==
            a + t1 + t2 + "\"" + d1 + d2 + "\"" + s1 + s2 + "\"" + x1 + x2 + "}"
  {
  }

  /** The literal concatenation is the object with these five members. */
  lemma TextIsObject(e: MonEntry, timeText: Uint64 -> string)
    ensures MonText(e, timeText) == Object(Members(e, timeText))
  {
    var ts, time := Texts(Members(e, timeText)), timeText(e.timestamp);
    JoinFive(ts);
    Braced(ts[0], "," + ts[1], "," + ts[2], "," + ts[3], "," + ts[4]);
    LiteralParts(time, e.device, e.subject, e.data);
    Flat("{\"topic\":\"MONITORING\"", ",\"time\":\"", time, ",\"device\":\"", e.device,
         ",\"subject\":\"", e.subject, ",\"data\":", e.data);
  }

  lemma KeysDistinct(ms: seq<Member>)
    requires |ms| == 5 && ms[0].key == "topic" && ms[1].key == "time" && ms[2].key == "device"
    requires ms[3].key == "subject" && ms[4].key == "data"
    ensures forall i :: 0 <= i < |ms| ==> Plain(ms[i].key)
    ensures forall i, j :: 0 <= i < j < |ms| ==> ms[i].key != ms[j].key
  {
    assert ms[1].key[0] == 't' && ms[4].key[0] == 'd';
    assert |ms[0].key| == 5 && |ms[1].key| == 4 && |ms[2].key| == 6 && |ms[3].key| == 7 && |ms[4].key| == 4;
  }

  lemma ValuesNeutral(e: MonEntry, timeText: Uint64 -> string, d: nat)
    requires Printable(e, timeText) && d < 2
    ensures forall i :: 0 <= i < 5 ==> Neutral(Members(e, timeText)[i].value, d)
  {
    PlainIsBody("MONITORING", d); QuotedNeutral("MONITORING", d);
    PlainIsBody(timeText(e.timestamp), d); QuotedNeutral(timeText(e.timestamp), d);
    PlainIsBody(e.device, d); QuotedNeutral(e.device, d);
    PlainIsBody(e.subject, d); QuotedNeutral(e.subject, d);
  }

  lemma MembersWellFormed(e: MonEntry, timeText: Uint64 -> string)
    requires Printable(e, timeText)
    ensures WellFormed(Members(e, timeText))
  {
    var ms := Members(e, timeText);
    ValuesNeutral(e, timeText, 0);
    ValuesNeutral(e, timeText, 1);
    KeysDistinct(ms);
  }

  /** What a reader learns of one entry is the entry. */
  predicate Tells(text: string, e: MonEntry, timeText: Uint64 -> string) {
    && StringOf(FieldOf(text, "topic")) == Some("MONITORING")
    && StringOf(FieldOf(text, "time")) == Some(timeText(e.timestamp))
    && StringOf(FieldOf(text, "device")) == Some(e.device)
    && StringOf(FieldOf(text, "subject")) == Some(e.subject)
    && FieldOf(text, "data") == Some(e.data)
  }

  lemma FieldsFound(e: MonEntry, timeText: Uint64 -> string)
    requires WellFormed(Members(e, timeText))
    ensures var text := Object(Members(e, timeText));
            && FieldOf(text, "topic") == Some(Quoted("MONITORING"))
            && FieldOf(text, "time") == Some(Quoted(timeText(e.timestamp)))
            && FieldOf(text, "device") == Some(Quoted(e.device))
            && FieldOf(text, "subject") == Some(Quoted(e.subject))
            && FieldOf(text, "data") == Some(e.data)
  {
    var ms := Members(e, timeText);
    ReadMember(ms, 0);
    ReadMember(ms, 1);
    ReadMember(ms, 2);
    ReadMember(ms, 3);
    ReadMember(ms, 4);
  }

  lemma EntryReadsBack(e: MonEntry, timeText: Uint64 -> string)
    requires Printable(e, timeText)
    ensures Neutral(MonText(e, timeText), 0) && Tells(MonText(e, timeText), e, timeText)
  {
    TextIsObject(e, timeText);
    MembersWellFormed(e, timeText);
    ObjectNeutral(Members(e, timeText));
    FieldsFound(e, timeText);
    ReadPlain("MONITORING");
    ReadPlain(timeText(e.timestamp));
    ReadPlain(e.device);
    ReadPlain(e.subject);
  }

  /** The pieces tell the entries of the map in this order. */
  predicate TellInOrder(pieces: seq<string>, order: seq<string>, mon: map<string, MonEntry>, timeText: Uint64 -> string) {
    |pieces| == |order| && forall i :: 0 <= i < |order| ==> order[i] in mon && Tells(pieces[i], mon[order[i]], timeText)
  }

  lemma SplitsIntoEntries(order: seq<string>, mon: map<string, MonEntry>, timeText: Uint64 -> string)
    requires order != [] && forall k :: k in order ==> k in mon && Printable(mon[k], timeText)
    ensures TellInOrder(SplitTop(JoinComma(MonTexts(order, mon, timeText))), order, mon, timeText)
  {
    var ts := MonTexts(order, mon, timeText);
    forall i | 0 <= i < |order| ensures Neutral(ts[i], 0) && Tells(ts[i], mon[order[i]], timeText) {
      EntryReadsBack(mon[order[i]], timeText);
    }
    SplitJoin(ts);
  }

  /**
   A monitoring datagram splits at its top-level commas into one object per entry of the batch, each entry once and
   in some order, and each object tells its entry.
   */
  lemma MonitoringReadsBack(text: string, mon: map<string, MonEntry>, timeText: Uint64 -> string)
    requires mon != map[] && IsMonText(text, mon, timeText)
    requires forall k :: k in mon ==> Printable(mon[k], timeText)
    ensures exists order: seq<string> :: Lists(order, mon.Keys) && TellInOrder(SplitTop(text), order, mon, timeText)
  {
    var order: seq<string> :| Lists(order, mon.Keys) && text == JoinComma(MonTexts(order, mon, timeText));
    assert order != [] by {
      var k :| k in mon;
      assert k in mon.Keys;
    }
    SplitsIntoEntries(order, mon, timeText);
  }
}

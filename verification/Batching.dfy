/**
 The log, monitoring and alarm buffers of Services, and the flush that hands
 batches to multicast. Steps on the buffers' value first, then the class.
 The clocks are inputs: `now` is the millisecond system clock, `clock` is
 time(0)*1000 as read by a flush.
 */
module Batching {
  import opened Bytes
  import opened CompressBound
  import opened JsonText
  import opened BatchText

  datatype MonEntry = MonEntry(data: string, subject: string, device: string, timestamp: Uint64)
  datatype Alarm = Alarm(message: string, device: string, timestamp: Uint64)

  const MAX_UDP_PACKET_SIZE: nat := 65507
  const MAX_MSG_SIZE: nat := MAX_UDP_PACKET_SIZE - 100

  datatype Settings = Settings(name: string, mss: Uint32, mergePeriod: Uint32, cooldown: Uint32)

  datatype Buffers = Buffers(
    log: seq<LogEntry>, logBytes: nat,
    mon: map<string, MonEntry>, monSent: map<string, Uint64>, monBytes: nat,
    alarms: seq<Alarm>,
    logBatches: seq<seq<LogEntry>>,         // handed to multicast so far
    monBatches: seq<map<string, MonEntry>>,
    emitted: seq<Alarm>)                    // alarms sent on

  const EMPTY: Buffers := Buffers([], 0, map[], map[], 0, [], [], [], [])

  /** 64-bit unsigned subtraction. */
  function Minus(a: int, b: int): Uint64 {
    (a - b) % TWO_64
  }

  /** Too big for a datagram even when compressed; the size function's error codes count as too big. */
  predicate TooLong(n: nat) {
    n >= MAX_INPUT || Bound(n) > MAX_MSG_SIZE
  }

  function LogSize(e: LogEntry): nat {
    |e.message| + |e.device|
  }

  function MonSize(e: MonEntry): nat {
    |e.data| + |e.device| + |e.subject|
  }

  // ---------- alarms ----------

  function Prune(alarms: seq<Alarm>, clock: Uint64, cooldown: Uint32): seq<Alarm> {
    if alarms == [] then []
    else if Minus(clock, alarms[0].timestamp) > cooldown then Prune(alarms[1..], clock, cooldown)
    else [alarms[0]] + Prune(alarms[1..], clock, cooldown)
  }

  function Gap(a: Uint64, b: Uint64): Uint64 {
    if a > b then a - b else b - a
  }

  /** The scan of the alarm buffer: what it leaves, and whether it stopped at the same alarm. */
  function ScanAlarms(alarms: seq<Alarm>, a: Alarm, cooldown: Uint32): (seq<Alarm>, bool) {
    if alarms == [] then ([], false)
    else if Gap(a.timestamp, alarms[0].timestamp) > cooldown then ScanAlarms(alarms[1..], a, cooldown)
    else if alarms[0].device == a.device && alarms[0].message == a.message then (alarms, true)
    else
      var (kept, found) := ScanAlarms(alarms[1..], a, cooldown);
      ([alarms[0]] + kept, found)
  }

  function AlarmStep(b: Buffers, s: Settings, a: Alarm): Buffers {
    var (kept, found) := ScanAlarms(b.alarms, a, s.cooldown);
    if found then b.(alarms := kept) else b.(alarms := kept + [a], emitted := b.emitted + [a])
  }

  /** The scan of `was` has left `now` and stands at its i-th alarm. */
  predicate Scanned(was: seq<Alarm>, a: Alarm, cooldown: Uint32, now: seq<Alarm>, i: nat)
    requires i <= |now|
  {
    var rest := ScanAlarms(now[i..], a, cooldown);
    ScanAlarms(was, a, cooldown) == (now[..i] + rest.0, rest.1)
  }

  lemma ScanStart(was: seq<Alarm>, a: Alarm, cooldown: Uint32)
    ensures Scanned(was, a, cooldown, was, 0)
  {
    var (kept, found) := ScanAlarms(was, a, cooldown);
    assert was[0..] == was && was[..0] + kept == kept;
  }

  /** One round of the scan: drop the alarm, stop at it, or pass it. */
  lemma ScanOne(was: seq<Alarm>, a: Alarm, cooldown: Uint32, now: seq<Alarm>, i: nat)
    requires i < |now| && Scanned(was, a, cooldown, now, i)
    ensures Gap(a.timestamp, now[i].timestamp) > cooldown ==>
              Scanned(was, a, cooldown, now[..i] + now[i + 1..], i)
    ensures Gap(a.timestamp, now[i].timestamp) <= cooldown ==>
              if now[i].device == a.device && now[i].message == a.message
              then ScanAlarms(was, a, cooldown) == (now, true)
              else Scanned(was, a, cooldown, now, i + 1)
  {
    var less := now[..i] + now[i + 1..];
    assert now[i..][1..] == now[i + 1..] && now[..i] + now[i..] == now;
    assert less[..i] == now[..i] && less[i..] == now[i + 1..];
    var (kept, found) := ScanAlarms(now[i + 1..], a, cooldown);
    assert now[..i] + ([now[i]] + kept) == now[..i + 1] + kept;
  }

  /** What SendAlarm returns: a repeated alarm counts as sent, and of another `sent` is the middleman's answer. */
  predicate AlarmResult(b: Buffers, s: Settings, a: Alarm, sent: bool) {
    ScanAlarms(b.alarms, a, s.cooldown).1 || sent
  }

  // ---------- flush ----------

  function FlushLog(b: Buffers): Buffers {
    if b.log == [] then b else b.(log := [], logBytes := 0, logBatches := b.logBatches + [b.log])
  }

  function FlushMon(b: Buffers, monLock: bool): Buffers {
    if b.mon == map[] then b
    else b.(mon := map[], monBytes := 0, monBatches := b.monBatches + [b.mon],
            monSent := if monLock then map[] else b.monSent)
  }

  function Flush(b: Buffers, s: Settings, monLock: bool, clock: Uint64): Buffers {
    var b' := FlushMon(FlushLog(b), monLock);
    b'.(alarms := Prune(b'.alarms, clock, s.cooldown))
  }

  // ---------- logging ----------

  predicate Merges(b: Buffers, e: LogEntry) {
    b.log != [] && b.log[|b.log| - 1].device == e.device && b.log[|b.log| - 1].message == e.message
  }

  function Bump(e: LogEntry): LogEntry {
    e.(repeats := (e.repeats + 1) % TWO_32)
  }

  predicate LogAccepted(b: Buffers, e: LogEntry) {
    Merges(b, e) || !TooLong(LogSize(e))
  }

  /** The buffers after making room for an entry. */
  function Room(b: Buffers, s: Settings, e: LogEntry, clock: Uint64): Buffers {
    if Bound(LogSize(e)) + b.logBytes > s.mss then Flush(b, s, true, clock) else b
  }

  function LogStep(b: Buffers, s: Settings, e: LogEntry, clock: Uint64): Buffers {
    if Merges(b, e) then
      b.(log := b.log[|b.log| - 1 := Bump(b.log[|b.log| - 1])])
    else if TooLong(LogSize(e)) then b
    else
      var b1 := Room(b, s, e, clock);
      b1.(log := b1.log + [e], logBytes := b1.logBytes + Bound(LogSize(e)))
  }

  // ---------- monitoring ----------

  predicate Suppressed(b: Buffers, s: Settings, e: MonEntry) {
    var key := e.device + e.subject;
    key in b.monSent && Minus(e.timestamp, b.monSent[key]) < s.mergePeriod
  }

  function PutNew<V>(m: map<string, V>, key: string, v: V): map<string, V> {
    if key in m then m else m[key := v]
  }

  function MonRoom(b: Buffers, s: Settings, e: MonEntry, clock: Uint64): Buffers {
    if Bound(MonSize(e)) + b.monBytes > s.mss then Flush(b, s, false, clock) else b
  }

  function MonStep(b: Buffers, s: Settings, e: MonEntry, clock: Uint64): Buffers {
    if Suppressed(b, s, e) || TooLong(MonSize(e)) then b
    else
      var key, b1 := e.device + e.subject, MonRoom(b, s, e, clock);
      b1.(mon := PutNew(b1.mon, key, e), monSent := PutNew(b1.monSent, key, e.timestamp),
          monBytes := b1.monBytes + Bound(MonSize(e)))
  }

  // ---------- the class ----------

  function MonText(e: MonEntry, timeText: Uint64 -> string): string {
    "{\"topic\":\"MONITORING\"" + ",\"time\":\"" + timeText(e.timestamp) + "\"" + ",\"device\":\"" + e.device + "\""
    + ",\"subject\":\"" + e.subject + "\"" + ",\"data\":" + e.data + "}"
  }

  function MonTexts(order: seq<string>, mon: map<string, MonEntry>, timeText: Uint64 -> string): (ts: seq<string>)
    requires forall k :: k in order ==> k in mon
    ensures |ts| == |order|
  {
    seq(|order|, i requires 0 <= i < |order| => MonText(mon[order[i]], timeText))
  }

  ghost predicate Lists(order: seq<string>, keys: set<string>) {
    (forall k :: k in order <==> k in keys) && (forall i, j :: 0 <= i < j < |order| ==> order[i] != order[j])
  }

  /** The text lists every entry of the batch once, in the map's own order, which is not specified. */
  ghost predicate IsMonText(text: string, mon: map<string, MonEntry>, timeText: Uint64 -> string) {
    exists order: seq<string> :: Lists(order, mon.Keys) && text == JoinComma(MonTexts(order, mon, timeText))
  }

  lemma SnocTexts(order: seq<string>, k: string, mon: map<string, MonEntry>, timeText: Uint64 -> string)
    requires k in mon && forall k' :: k' in order ==> k' in mon
    ensures MonTexts(order + [k], mon, timeText) == MonTexts(order, mon, timeText) + [MonText(mon[k], timeText)]
  {
  }

  lemma BatchSnoc(es: seq<LogEntry>, i: nat, timeText: Uint64 -> string)
    requires i < |es|
    ensures LogBatchText(es[..i + 1], timeText) ==
            LogBatchText(es[..i], timeText) + (if i == 0 then "" else ",") + EntryText(es[i], timeText)
    ensures |EntryText(es[i], timeText)| > 0
  {
    var before := EntryTexts(es[..i], timeText);
    assert EntryTexts(es[..i + 1], timeText) == before + [EntryText(es[i], timeText)];
    JoinSnoc(before, EntryText(es[i], timeText));
  }

  class Services {
    const settings: Settings
    const timeText: Uint64 -> string
    var loggingBuf: seq<LogEntry>
    var loggingBatchBytes: nat
    var monitoringBuf: map<string, MonEntry>
    var monitoringMsgsSent: map<string, Uint64>
    var monitoringBatchBytes: nat
    var alarmBuf: seq<Alarm>
    var logMulticast: seq<string>
    var monMulticast: seq<string>
    var alarmsOut: seq<Alarm>
    ghost var logBatches: seq<seq<LogEntry>>
    ghost var monBatches: seq<map<string, MonEntry>>

    constructor (settings: Settings, timeText: Uint64 -> string)
      ensures Valid() && Abs() == EMPTY && this.settings == settings && this.timeText == timeText
    {
      this.settings, this.timeText := settings, timeText;
      loggingBuf, loggingBatchBytes := [], 0;
      monitoringBuf, monitoringMsgsSent, monitoringBatchBytes := map[], map[], 0;
      alarmBuf, logMulticast, monMulticast, alarmsOut := [], [], [], [];
      logBatches, monBatches := [], [];
    }

    ghost predicate LogsTold()
      reads this`logMulticast, this`logBatches
    {
      |logMulticast| == |logBatches|
      && forall i :: 0 <= i < |logBatches| ==> logMulticast[i] == LogBatchText(logBatches[i], timeText)
    }

    ghost predicate MonitoringTold()
      reads this`monMulticast, this`monBatches
    {
      |monMulticast| == |monBatches|
      && forall i :: 0 <= i < |monBatches| ==> IsMonText(monMulticast[i], monBatches[i], timeText)
    }

    /** What was multicast is the text of the batches. */
    ghost predicate Valid()
      reads this
    {
      LogsTold() && MonitoringTold()
    }

    ghost function Abs(): Buffers
      reads this
    {
      Buffers(loggingBuf, loggingBatchBytes, monitoringBuf, monitoringMsgsSent, monitoringBatchBytes, alarmBuf,
              logBatches, monBatches, alarmsOut)
    }

    method MergeLogs() returns (text: string)
      ensures text == LogBatchText(loggingBuf, timeText)
      ensures text == "" <==> loggingBuf == []
    {
      text := "";
      for i := 0 to |loggingBuf|
        invariant text == LogBatchText(loggingBuf[..i], timeText)
        invariant text == "" <==> i == 0
      {
        var entry := PrintEntry(loggingBuf[i], timeText);
        BatchSnoc(loggingBuf, i, timeText);
        text := text + (if i == 0 then "" else ",") + entry;
      }
      assert loggingBuf[..|loggingBuf|] == loggingBuf;
    }

    method MergeMonitoring() returns (text: string)
      ensures IsMonText(text, monitoringBuf, timeText)
      ensures text == "" <==> monitoringBuf == map[]
    {
      text := "";
      var first := true;
      var left := monitoringBuf.Keys;
      ghost var order := [];
      while left != {}
        invariant left <= monitoringBuf.Keys && Lists(order, monitoringBuf.Keys - left)
        invariant text == JoinComma(MonTexts(order, monitoringBuf, timeText))
        invariant first <==> order == []
        invariant first <==> text == ""
        decreases left
      {
        var k :| k in left;
        JoinSnoc(MonTexts(order, monitoringBuf, timeText), MonText(monitoringBuf[k], timeText));
        SnocTexts(order, k, monitoringBuf, timeText);
        text := text + (if first then "" else ",") + MonText(monitoringBuf[k], timeText);
        left := left - {k};
        order := order + [k];
        first := false;
      }
      assert monitoringBuf.Keys - left == monitoringBuf.Keys;
    }

    method PruneAlarms(clock: Uint64)
      modifies this`alarmBuf
      ensures alarmBuf == Prune(old(alarmBuf), clock, settings.cooldown)
    {
      var i := 0;
      while i < |alarmBuf|
        invariant 0 <= i <= |alarmBuf|
        invariant Prune(old(alarmBuf), clock, settings.cooldown) ==
                  alarmBuf[..i] + Prune(alarmBuf[i..], clock, settings.cooldown)
        decreases |alarmBuf| - i
      {
        assert alarmBuf[i..][1..] == alarmBuf[i + 1..];
        if Minus(clock, alarmBuf[i].timestamp) > settings.cooldown {
          ghost var was := alarmBuf;
          alarmBuf := alarmBuf[..i] + alarmBuf[i + 1..];
          assert alarmBuf[i..] == was[i + 1..] && alarmBuf[..i] == was[..i];
        } else {
          assert alarmBuf[..i + 1] == alarmBuf[..i] + [alarmBuf[i]];
          i := i + 1;
        }
      }
    }

    /** The result of the multicast is not looked at: the buffers are cleared either way. */
    method BatchLogs()
      requires Valid()
      modifies this`logMulticast, this`logBatches, this`loggingBuf, this`loggingBatchBytes
      ensures Valid() && Abs() == FlushLog(old(Abs()))
    {
      var text := MergeLogs();
      if text != "" {
        logMulticast, logBatches := logMulticast + [text], logBatches + [loggingBuf];
        loggingBuf, loggingBatchBytes := [], 0;
      }
    }

    method BatchMonitoring(monLock: bool)
      requires Valid()
      modifies this`monMulticast, this`monBatches, this`monitoringBuf, this`monitoringBatchBytes, this`monitoringMsgsSent
      ensures Valid() && Abs() == FlushMon(old(Abs()), monLock)
    {
      var text := MergeMonitoring();
      if text != "" {
        monMulticast, monBatches := monMulticast + [text], monBatches + [monitoringBuf];
        monitoringBuf, monitoringBatchBytes := map[], 0;
        if monLock {
          monitoringMsgsSent := map[];
        }
      }
    }

    method BatchAndSendMulticast(monLock: bool, clock: Uint64)
      requires Valid()
      modifies this
      ensures Valid() && Abs() == Flush(old(Abs()), settings, monLock, clock)
    {
      BatchLogs();
      BatchMonitoring(monLock);
      PruneAlarms(clock);
    }

    method SendLog(message: string, severity: nat, device: string, timestamp: Uint64, now: Uint64, clock: Uint64)
      returns (ok: bool)
      requires Valid()
      modifies this
      ensures Valid()
      ensures var e := LogEntry(message, severity, if device == "" then settings.name else device,
                                if timestamp == 0 then now else timestamp, 0);
              ok == LogAccepted(old(Abs()), e) && Abs() == LogStep(old(Abs()), settings, e, clock)
    {
      var name := if device == "" then settings.name else device;
      var ts := if timestamp != 0 then timestamp else now;
      if |loggingBuf| > 0 && name == loggingBuf[|loggingBuf| - 1].device
         && message == loggingBuf[|loggingBuf| - 1].message {
        var last := loggingBuf[|loggingBuf| - 1];
        loggingBuf := loggingBuf[|loggingBuf| - 1 := last.(repeats := (last.repeats + 1) % TWO_32)];
        return true;
      }
      if TooLong(|message| + |name|) {
        return false;
      }
      var compressed := Bound(|message| + |name|);
      if compressed + loggingBatchBytes > settings.mss {
        BatchAndSendMulticast(true, clock);
      }
      loggingBuf := loggingBuf + [LogEntry(message, severity, name, ts, 0)];
      loggingBatchBytes := loggingBatchBytes + compressed;
      ok := true;
    }

    method SendMonitoringData(data: string, subject: string, device: string, timestamp: Uint64, now: Uint64, clock: Uint64)
      returns (ok: bool)
      requires Valid()
      modifies this
      ensures Valid()
      ensures var e := MonEntry(data, subject, if device == "" then settings.name else device,
                                if timestamp == 0 then now else timestamp);
              && ok == (Suppressed(old(Abs()), settings, e) || !TooLong(MonSize(e)))
              && Abs() == MonStep(old(Abs()), settings, e, clock)
    {
      var name := if device == "" then settings.name else device;
      var ts := if timestamp != 0 then timestamp else now;
      var key := name + subject;
      if key in monitoringMsgsSent && Minus(ts, monitoringMsgsSent[key]) < settings.mergePeriod {
        return true;
      }
      if TooLong(|data| + |name| + |subject|) {
        return false;
      }
      var compressed := Bound(|data| + |name| + |subject|);
      if compressed + monitoringBatchBytes > settings.mss {
        BatchAndSendMulticast(false, clock);
      }
      EmplaceMonitoring(MonEntry(data, subject, name, ts), compressed);
      ok := true;
    }

    /** `emplace` into both maps: keys already there keep their values. */
    method EmplaceMonitoring(e: MonEntry, compressed: nat)
      modifies this`monitoringBuf, this`monitoringMsgsSent, this`monitoringBatchBytes
      ensures var b, key := old(Abs()), e.device + e.subject;
              Abs() == b.(mon := PutNew(b.mon, key, e), monSent := PutNew(b.monSent, key, e.timestamp),
                          monBytes := b.monBytes + compressed)
    {
      var key := e.device + e.subject;
      if key !in monitoringBuf {
        monitoringBuf := monitoringBuf[key := e];
      }
      if key !in monitoringMsgsSent {
        monitoringMsgsSent := monitoringMsgsSent[key := e.timestamp];
      }
      monitoringBatchBytes := monitoringBatchBytes + compressed;
    }

    /**
     Formatting the time replaces a timestamp of 0 by the current time, before the alarm is compared or buffered. A
     timestamp of 1, which is sent as "now()", is not replaced.
     */
    method SendAlarm(message: string, device: string, timestamp: Uint64, now: Uint64, sent: bool) returns (ok: bool)
      requires Valid()
      modifies this`alarmBuf, this`alarmsOut
      ensures Valid()
      ensures var a := Alarm(message, device, if timestamp == 0 then now else timestamp);
              Abs() == AlarmStep(old(Abs()), settings, a) && ok == AlarmResult(old(Abs()), settings, a, sent)
    {
      var ts := if timestamp == 0 then now else timestamp;
      ghost var a, was := Alarm(message, device, ts), alarmBuf;
      ScanStart(was, a, settings.cooldown);
      var i := 0;
      while i < |alarmBuf|
        invariant 0 <= i <= |alarmBuf| && alarmsOut == old(alarmsOut)
        invariant Scanned(was, a, settings.cooldown, alarmBuf, i)
        decreases |alarmBuf| - i
      {
        ScanOne(was, a, settings.cooldown, alarmBuf, i);
        var gap := if ts > alarmBuf[i].timestamp then ts - alarmBuf[i].timestamp else alarmBuf[i].timestamp - ts;
        if gap > settings.cooldown {
          alarmBuf := alarmBuf[..i] + alarmBuf[i + 1..];
          continue;
        }
        if alarmBuf[i].device == device && alarmBuf[i].message == message {
          return true;
        }
        i := i + 1;
      }
      assert alarmBuf[..i] + [] == alarmBuf;
      alarmBuf := alarmBuf + [Alarm(message, device, ts)];
      alarmsOut := alarmsOut + [Alarm(message, device, ts)];
      ok := sent;
    }
  }
}

/**
 The multi-event store (format 2): maps are saved one after another to a
 forward-only archive, and GetEntry makes the archive look like an array.
 An archive is the sequence of maps written to it.
 */
module BoostStore {
  import opened Bytes

  type Vars = map<string, string>

  /** One saved event: its variables and, with type checking, their types. */
  datatype Saved = Saved(vars: Vars, types: Vars)

  const TOTAL: string := "TotalEntries"
  const FORMAT: string := "m_format"
  const CHECKING: string := "m_typechecking"
  const ULONG: string := "m"   // typeid(unsigned long).name()

  // ---------- what Save and Close put in the file ----------

  function Group(e: Saved, tc: bool): seq<Vars> {
    if tc then [e.vars, e.types] else [e.vars]
  }

  /** How many maps n events take in the archive. */
  function Maps(tc: bool, n: nat): nat {
    if tc then 2 * n else n
  }

  function Data(es: seq<Saved>, tc: bool): seq<Vars> {
    if es == [] then [] else Data(es[..|es| - 1], tc) + Group(es[|es| - 1], tc)
  }

  /** The header's variables as Close completes them. */
  function HeaderFor(h: Saved, n: Uint64, tc: bool): Saved {
    Saved(h.vars[TOTAL := WriteU64(n)][FORMAT := WriteU32(2)][CHECKING := if tc then [1 as char] else [0 as char]],
          if tc then h.types[TOTAL := ULONG][FORMAT := "i"][CHECKING := "b"] else h.types)
  }

  /** A header's maps, then the data. */
  function FileWith(h: Saved, es: seq<Saved>, tc: bool): seq<Vars> {
    Group(h, tc) + Data(es, tc)
  }

  /** The writing side: the entry count, the header, and what is in the .data file while the archive is open. */
  datatype Writer = Writer(total: Uint64, header: Saved, open: bool, data: seq<Vars>)

  const FRESH: Writer := Writer(0, Saved(map[], map[]), false, [])

  /** The 64-bit count after n more saves. */
  function Counted(total: Uint64, n: Uint64): Uint64 {
    if total + n < TWO_64 then total + n else total + n - TWO_64
  }

  function SaveOn(w: Writer, e: Saved, tc: bool): Writer {
    Writer(Counted(w.total, 1), w.header, true, (if w.open then w.data else []) + Group(e, tc))
  }

  /** The finished file, if anything was saved: the header's own archive, then the data. The count is not reset. */
  function CloseOn(w: Writer, tc: bool): (Writer, seq<Vars>) {
    if !w.open then (w, []) else
      var hd := HeaderFor(w.header, w.total, tc);
      (w.(open := false, header := hd), Group(hd, tc) + w.data)
  }

  /** The map stores n as the number of entries. */
  predicate Counts(m: Vars, n: nat) {
    TOTAL in m && FromBytes(m[TOTAL]) == n
  }

  // ---------- reading, as a value ----------

  /** The open archive, the read position and the entry last loaded. */
  datatype Reader = Reader(file: seq<Vars>, tc: bool, total: Uint64, pos: nat, current: nat, vars: Vars, types: Vars)

  /** What is loaded is the group that ends at the position. */
  predicate Shows(file: seq<Vars>, tc: bool, pos: nat, vars: Vars, types: Vars) {
    Maps(tc, 1) <= pos <= |file| && vars == file[pos - Maps(tc, 1)] && types == if tc then file[pos - 1] else map[]
  }

  /** The file holds a header and `total` more groups, and the position is just past the loaded entry. */
  predicate Valid(r: Reader) {
    && r.total > 0 && |r.file| == Maps(r.tc, r.total + 1)
    && Counts(r.file[0], r.total)
    && r.current < r.total
    && (r.pos == Maps(r.tc, r.current + 2) || r.pos == 1 + Maps(r.tc, r.current + 1))
    && Shows(r.file, r.tc, r.pos, r.vars, r.types)
  }

  /** The header has a count that can be read: with type checking, only one stored as an unsigned long. */
  predicate HasCount(file: seq<Vars>, tc: bool)
    requires |file| >= Maps(tc, 1)
  {
    TOTAL in file[0] && (!tc || (TOTAL in file[1] && file[1][TOTAL] == ULONG))
  }

  predicate Openable(file: seq<Vars>, tc: bool) {
    |file| >= Maps(tc, 2) && (HasCount(file, tc) ==> FromBytes(file[0][TOTAL]) < TWO_64)
  }

  /** After the header, entry 0 is loaded at once. Without a count to be read, the store keeps the one it had. */
  function Open(file: seq<Vars>, tc: bool, total: Uint64): Reader
    requires Openable(file, tc)
  {
    var w := Maps(tc, 1);
    Reader(file, tc, if HasCount(file, tc) then FromBytes(file[0][TOTAL]) else total,
           2 * w, 0, file[w], if tc then file[w + 1] else map[])
  }

  /** The position after loading entry n: from where the cursor is, or from a reopened file past its first map. */
  function Landing(r: Reader, n: nat): nat {
    if n >= r.current then r.pos + Maps(r.tc, n - r.current) else 1 + Maps(r.tc, n + 1)
  }

  function Seek(r: Reader, n: nat): (r': Reader)
    requires Valid(r)
    ensures Valid(r')
  {
    if n >= r.total then r else
      var p := Landing(r, n);
      LandingInFile(r, n);
      r.(pos := p, current := n, vars := r.file[p - Maps(r.tc, 1)], types := if r.tc then r.file[p - 1] else map[])
  }

  lemma LandingInFile(r: Reader, n: nat)
    requires Valid(r) && n < r.total
    ensures Maps(r.tc, 1) <= Landing(r, n) <= |r.file|
    ensures Landing(r, n) == Maps(r.tc, n + 2) || Landing(r, n) == 1 + Maps(r.tc, n + 1)
  {
  }

  lemma LandedIsSeek(r: Reader, n: nat, r': Reader)
    requires Valid(r) && n < r.total && r'.pos == Landing(r, n)
    requires Shows(r.file, r.tc, r'.pos, r'.vars, r'.types)
    requires r' == r.(pos := r'.pos, current := n, vars := r'.vars, types := r'.types)
    ensures r' == Seek(r, n)
  {
  }

  // ---------- the class ----------

  class BoostStore {
    const tc: bool
    var variables: Vars
    var typeInfo: Vars
    var currentEntry: nat
    var totalEntries: Uint64
    var header: Saved
    var oarch: bool          // output archive open
    var data: seq<Vars>      // written to the .data file so far
    var arch: bool           // input archive open
    var file: seq<Vars>
    var pos: nat

    constructor (typechecking: bool)
      ensures tc == typechecking && !arch && Output() == FRESH
    {
      tc := typechecking;
      variables, typeInfo, header := map[], map[], Saved(map[], map[]);
      currentEntry, totalEntries, pos := 0, 0, 0;
      oarch, arch, data, file := false, false, [], [];
    }

    ghost function Output(): Writer
      reads this
    {
      Writer(totalEntries, header, oarch, data)
    }

    ghost predicate Reading()
      reads this
    {
      arch && Valid(Cursor())
    }

    ghost function Cursor(): Reader
      reads this
    {
      Reader(file, tc, totalEntries, pos, currentEntry, variables, typeInfo)
    }

    /** The first save also writes a map into a stream that is thrown away, so that the data carries no archive header. */
    method Save()
      modifies this`oarch, this`data, this`totalEntries
      ensures Output() == SaveOn(old(Output()), Saved(variables, typeInfo), tc)
    {
      if !oarch {
        oarch, data := true, [];
      }
      ghost var was := data;
      totalEntries := if totalEntries + 1 == TWO_64 then 0 else totalEntries + 1;
      data := data + [variables];
      if tc {
        data := data + [typeInfo];
      }
      assert data == was + Group(Saved(variables, typeInfo), tc);
    }

    method Close() returns (out: seq<Vars>)
      modifies this`arch, this`oarch, this`header
      ensures (Output(), out) == CloseOn(old(Output()), tc) && !arch
    {
      arch, out := false, [];
      if oarch {
        oarch := false;
        header := HeaderFor(header, totalEntries, tc);
        out := [header.vars];
        if tc {
          out := out + [header.types];
        }
        assert out == Group(header, tc);
        out := out + data;
      }
    }

    method ReadGroup()
      requires pos + Maps(tc, 1) <= |file|
      modifies this`variables, this`typeInfo, this`pos
      ensures pos == old(pos) + Maps(tc, 1) && variables == file[pos - Maps(tc, 1)]
      ensures typeInfo == if tc then file[pos - 1] else map[]
    {
      variables, typeInfo := map[], map[];
      variables, pos := file[pos], pos + 1;
      if tc {
        typeInfo, pos := file[pos], pos + 1;
      }
    }

    /** The header's own type checking refuses a count that is not stored as an unsigned long. */
    method Initialise(contents: seq<Vars>)
      requires Openable(contents, tc)
      modifies this`file, this`pos, this`arch, this`header, this`totalEntries, this`variables, this`typeInfo, this`currentEntry
      ensures arch && Cursor() == Open(contents, tc, old(totalEntries))
      ensures totalEntries ==
              if TOTAL in contents[0] && (tc ==> TOTAL in contents[1] && contents[1][TOTAL] == ULONG)
              then FromBytes(contents[0][TOTAL]) else old(totalEntries)
    {
      file, pos, arch := contents, 1, true;
      header := Saved(file[0], map[]);
      if tc {
        header, pos := header.(types := file[1]), 2;
      }
      if TOTAL in header.vars && (!tc || (TOTAL in header.types && header.types[TOTAL] == ULONG)) {
        totalEntries := FromBytes(header.vars[TOTAL]);
      }
      ReadGroup();
      currentEntry := 0;
    }

    method GetEntry(entry: nat) returns (r: bool)
      requires Reading()
      modifies this
      ensures Reading() && r == (entry < old(totalEntries)) && Cursor() == Seek(old(Cursor()), entry)
      ensures !r ==> Cursor() == old(Cursor())
    {
      if entry >= totalEntries {
        return false;
      }
      ghost var r0 := Cursor();
      LandingInFile(r0, entry);
      if entry > currentEntry {
        ReadOn(entry);
      } else if entry < currentEntry {
        Reopen(entry);
      }
      LandedIsSeek(r0, entry, Cursor());
      r := true;
    }

    ghost predicate Loaded()
      reads this
    {
      Shows(file, tc, pos, variables, typeInfo)
    }

    method ReadOn(entry: nat)
      requires currentEntry < entry && pos + Maps(tc, entry - currentEntry) <= |file|
      modifies this`variables, this`typeInfo, this`currentEntry, this`pos
      ensures currentEntry == entry && pos == old(pos) + Maps(tc, entry - old(currentEntry)) && Loaded()
    {
      variables, typeInfo := map[], map[];
      for i := currentEntry to entry
        invariant old(currentEntry) <= i && currentEntry == i
        invariant pos == old(pos) + Maps(tc, i - old(currentEntry))
        invariant i > old(currentEntry) ==> Loaded()
      {
        ReadGroup();
        currentEntry := i + 1;
      }
    }

    /** From the start of the file; the header's types are not read here, whether or not the file has them. */
    method Reopen(entry: nat)
      requires 1 + Maps(tc, entry + 1) <= |file|
      requires TOTAL in file[0] ==> FromBytes(file[0][TOTAL]) < TWO_64
      modifies this`variables, this`typeInfo, this`currentEntry, this`pos, this`totalEntries
      ensures currentEntry == entry && pos == 1 + Maps(tc, entry + 1) && Loaded()
      ensures totalEntries == if TOTAL in file[0] && !tc then FromBytes(file[0][TOTAL]) else old(totalEntries)
    {
      variables, typeInfo, pos := file[0], map[], 1;
      if TOTAL in variables && !tc {
        totalEntries := FromBytes(variables[TOTAL]);
      }
      ghost var total := totalEntries;
      variables, typeInfo, currentEntry := map[], map[], 0;
      for i := 0 to entry + 1
        invariant totalEntries == total && pos == 1 + Maps(tc, i)
        invariant i > 0 ==> currentEntry == i - 1 && Loaded()
      {
        ReadGroup();
        currentEntry := i;
      }
    }
  }

  // ---------- the file a reader sees ----------

  lemma {:induction false} DataAt(es: seq<Saved>, tc: bool, i: nat)
    requires i < |es|
    ensures |Data(es, tc)| == Maps(tc, |es|)
    ensures Data(es, tc)[Maps(tc, i)] == es[i].vars
    ensures tc ==> Data(es, tc)[2 * i + 1] == es[i].types
  {
    var init := es[..|es| - 1];
    if init != [] {
      DataAt(init, tc, if i < |init| then i else 0);
    }
  }

  predicate Saveable(es: seq<Saved>) {
    0 < |es| < TWO_64
  }

  lemma HeaderCounts(h: Saved, n: Uint64, tc: bool)
    ensures var hd := HeaderFor(h, n, tc);
            CountedBy(hd, n, tc) && forall m :: Counts(hd.vars, m) <==> m == n
  {
    KeysDiffer();
  }

  lemma KeysDiffer()
    ensures TOTAL != FORMAT && TOTAL != CHECKING && FORMAT != CHECKING
  {
    assert |TOTAL| == 12 && |FORMAT| == 8 && |CHECKING| == 14;
  }

  lemma SmallBytes()
    ensures FromBytes(WriteU32(2)) == 2 && FromBytes([1 as char]) == 1 && FromBytes([0 as char]) == 0
  {
    WordSizes();
    FromToBytes(2, 4);
    assert [1 as char][1..] == "" && [0 as char][1..] == "";
  }

  /** What a reader of the header finds besides the count: the format, whether there is type checking, and all else as set. */
  lemma HeaderComplete(h: Saved, n: Uint64, tc: bool)
    ensures var v := HeaderFor(h, n, tc).vars;
            && v.Keys == h.vars.Keys + {TOTAL, FORMAT, CHECKING}
            && v[TOTAL] == WriteU64(n) && FromBytes(v[FORMAT]) == 2 && FromBytes(v[CHECKING]) == (if tc then 1 else 0)
            && forall k :: k in h.vars && k != TOTAL && k != FORMAT && k != CHECKING ==> v[k] == h.vars[k]
  {
    KeysDiffer();
    SmallBytes();
  }

  function SaveAll(w: Writer, es: seq<Saved>, tc: bool): Writer {
    if es == [] then w else SaveOn(SaveAll(w, es[..|es| - 1], tc), es[|es| - 1], tc)
  }

  /** The file that comes of saving these events and closing. */
  function FileFrom(w: Writer, es: seq<Saved>, tc: bool): seq<Vars> {
    CloseOn(SaveAll(w, es, tc), tc).1
  }

  predicate CountsItself(file: seq<Vars>, n: nat) {
    file != [] && Counts(file[0], n)
  }

  lemma {:induction false} SavedAll(w: Writer, es: seq<Saved>, tc: bool)
    requires !w.open && |es| < TWO_64
    ensures SaveAll(w, es, tc) ==
            if es == [] then w else Writer(Counted(w.total, |es|), w.header, true, Data(es, tc))
  {
    if es != [] {
      var init := es[..|es| - 1];
      SavedAll(w, init, tc);
      assert init == [] ==> [] + Group(es[0], tc) == Data(init, tc) + Group(es[0], tc);
    }
  }

  /** The file is a header with the store's count, then the events. */
  lemma FileSaved(w: Writer, es: seq<Saved>, tc: bool)
    requires !w.open && Saveable(es)
    ensures FileFrom(w, es, tc) == FileWith(HeaderFor(w.header, Counted(w.total, |es|), tc), es, tc)
  {
    SavedAll(w, es, tc);
  }

  lemma HeaderTells(h: Saved, total: Uint64, es: seq<Saved>, tc: bool, n: nat)
    ensures CountsItself(FileWith(HeaderFor(h, total, tc), es, tc), n) <==> n == total
  {
    HeaderCounts(h, total, tc);
    var hd := HeaderFor(h, total, tc);
    assert FileWith(hd, es, tc)[0] == hd.vars;
  }

  /**
   The header of a file counts its events if and only if the store's count was 0 when the first was saved: it is not
   after an earlier Close with events, or an Initialise.
   */
  lemma CountRightIff(w: Writer, es: seq<Saved>, tc: bool)
    requires !w.open && Saveable(es)
    ensures CountsItself(FileFrom(w, es, tc), |es|) <==> w.total == 0
  {
    FileSaved(w, es, tc);
    HeaderTells(w.header, Counted(w.total, |es|), es, tc, |es|);
  }

  /** One store saving and closing one list of events after another. */
  function Sessions(w: Writer, lists: seq<seq<Saved>>, tc: bool): Writer {
    if lists == [] then w else
      CloseOn(SaveAll(Sessions(w, lists[..|lists| - 1], tc), lists[|lists| - 1], tc), tc).0
  }

  function Events(lists: seq<seq<Saved>>): nat {
    if lists == [] then 0 else Events(lists[..|lists| - 1]) + |lists[|lists| - 1]|
  }

  lemma {:induction false} SessionsCount(lists: seq<seq<Saved>>, tc: bool)
    requires Events(lists) < TWO_64
    ensures var w := Sessions(FRESH, lists, tc);
            !w.open && w.total == Events(lists)
  {
    if lists != [] {
      var init, last := lists[..|lists| - 1], lists[|lists| - 1];
      SessionsCount(init, tc);
      SavedAll(Sessions(FRESH, init, tc), last, tc);
    }
  }

  lemma {:induction false} NoEventsIff(lists: seq<seq<Saved>>)
    ensures Events(lists) == 0 <==> forall i :: 0 <= i < |lists| ==> lists[i] == []
  {
    if lists != [] {
      NoEventsIff(lists[..|lists| - 1]);
    }
  }

  /** So of the files one store writes, only the first with events in it has a header that counts them. */
  lemma OnlyFirstFileCounts(earlier: seq<seq<Saved>>, es: seq<Saved>, tc: bool)
    requires Saveable(es) && Events(earlier) < TWO_64
    ensures CountsItself(FileFrom(Sessions(FRESH, earlier, tc), es, tc), |es|) <==>
            forall i :: 0 <= i < |earlier| ==> earlier[i] == []
  {
    SessionsCount(earlier, tc);
    NoEventsIff(earlier);
    CountRightIff(Sessions(FRESH, earlier, tc), es, tc);
  }

  lemma FileAt(h: Saved, es: seq<Saved>, tc: bool, i: nat)
    requires i < |es|
    ensures var f := FileWith(h, es, tc);
            && |f| == Maps(tc, |es| + 1) && f[0] == h.vars && (tc ==> f[1] == h.types)
            && f[Maps(tc, i + 1)] == es[i].vars
            && (tc ==> f[2 * i + 3] == es[i].types)
            && (tc ==> f[1 + 2 * i] == if i == 0 then h.types else es[i - 1].types)
  {
    DataAt(es, tc, i);
    if i > 0 {
      DataAt(es, tc, i - 1);
    }
  }

  // ---------- seeks over a saved file ----------

  function SeekAll(r: Reader, seeks: seq<nat>): (r': Reader)
    requires Valid(r)
    ensures Valid(r')
  {
    if seeks == [] then r else Seek(SeekAll(r, seeks[..|seeks| - 1]), seeks[|seeks| - 1])
  }

  /** The entry an array index would be at: the last seek within bounds. */
  function IndexOf(total: nat, seeks: seq<nat>): nat {
    if seeks == [] then 0
    else if seeks[|seeks| - 1] < total then seeks[|seeks| - 1]
    else IndexOf(total, seeks[..|seeks| - 1])
  }

  /** Some seek within bounds went back. */
  predicate WentBack(total: nat, seeks: seq<nat>) {
    seeks != [] &&
    (WentBack(total, seeks[..|seeks| - 1])
     || (seeks[|seeks| - 1] < total && seeks[|seeks| - 1] < IndexOf(total, seeks[..|seeks| - 1])))
  }

  /** The header counts its entries, as the reader's own type checking will read it. */
  predicate CountedBy(h: Saved, n: nat, tc: bool) {
    Counts(h.vars, n) && (tc ==> TOTAL in h.types && h.types[TOTAL] == ULONG)
  }

  /** The reader that Initialise leaves on such a file, whatever the store counted before. */
  function OpenSaved(h: Saved, es: seq<Saved>, tc: bool): (r: Reader)
    requires Saveable(es) && CountedBy(h, |es|, tc)
    ensures Valid(r) && r.file == FileWith(h, es, tc) && r.tc == tc && r.total == |es| && r.current == 0
    ensures r.pos == Maps(tc, 2) && forall before: Uint64 :: r == Open(r.file, tc, before)
  {
    FileAt(h, es, tc, 0);
    Open(FileWith(h, es, tc), tc, 0)
  }

  /** Where the cursor is after any seeks: one map early once a seek went back with type checking on. */
  ghost predicate Landed(r0: Reader, seeks: seq<nat>, r: Reader) {
    && r.file == r0.file && r.tc == r0.tc && r.total == r0.total
    && r.current == IndexOf(r0.total, seeks)
    && r.pos == if WentBack(r0.total, seeks) then 1 + Maps(r.tc, r.current + 1) else Maps(r.tc, r.current + 2)
  }

  lemma {:induction false} SeeksLand(r0: Reader, seeks: seq<nat>)
    requires Valid(r0) && r0.current == 0 && r0.pos == Maps(r0.tc, 2)
    ensures Landed(r0, seeks, SeekAll(r0, seeks))
  {
    if seeks != [] {
      var init, n := seeks[..|seeks| - 1], seeks[|seeks| - 1];
      SeeksLand(r0, init);
      LandedOn(r0, seeks, SeekAll(r0, init), SeekAll(r0, seeks));
    }
  }

  lemma LandedOn(r0: Reader, seeks: seq<nat>, r: Reader, r': Reader)
    requires seeks != [] && Valid(r) && r' == Seek(r, seeks[|seeks| - 1]) && Landed(r0, seeks[..|seeks| - 1], r)
    ensures Landed(r0, seeks, r')
  {
    SeekLands(r, seeks[|seeks| - 1]);
  }

  lemma SeekLands(r: Reader, n: nat)
    requires Valid(r)
    ensures var r' := Seek(r, n);
            && r'.file == r.file && r'.tc == r.tc && r'.total == r.total
            && (n >= r.total ==> r'.current == r.current && r'.pos == r.pos)
            && (n < r.total ==> r'.current == n)
            && (r.current <= n < r.total ==> r'.pos == r.pos + Maps(r.tc, n - r.current))
            && (n < r.current ==> r'.pos == 1 + Maps(r.tc, n + 1))
  {
  }

  /** The map just before entry i's in the file, when types are saved: what a reader one map early sees. */
  function TypesBefore(h: Saved, es: seq<Saved>, i: nat): Vars
    requires i < |es|
  {
    if i == 0 then h.types else es[i - 1].types
  }

  /** The loaded entry, by the position the reader is at. */
  lemma LoadedAt(h: Saved, es: seq<Saved>, r: Reader)
    requires Valid(r) && r.file == FileWith(h, es, r.tc) && r.total == |es|
    ensures r.pos == Maps(r.tc, r.current + 2) ==>
              r.vars == es[r.current].vars && (r.tc ==> r.types == es[r.current].types)
    ensures r.tc && r.pos == 1 + Maps(r.tc, r.current + 1) ==>
              r.vars == TypesBefore(h, es, r.current) && r.types == es[r.current].vars
  {
    FileAt(h, es, r.tc, r.current);
  }

  /** What any seeks leave loaded. */
  lemma LoadedAfter(h: Saved, es: seq<Saved>, tc: bool, seeks: seq<nat>)
    requires Saveable(es) && CountedBy(h, |es|, tc)
    ensures var r := SeekAll(OpenSaved(h, es, tc), seeks);
            var shifted := tc && WentBack(|es|, seeks);
            && r.current == IndexOf(|es|, seeks) && r.current < |es|
            && r.vars == (if shifted then TypesBefore(h, es, r.current) else es[r.current].vars)
            && (tc ==> r.types == if shifted then es[r.current].vars else es[r.current].types)
  {
    var r0 := OpenSaved(h, es, tc);
    SeeksLand(r0, seeks);
    LoadedAt(h, es, SeekAll(r0, seeks));
  }

  lemma FreshFile(w: Writer, es: seq<Saved>, tc: bool)
    requires !w.open && w.total == 0 && Saveable(es)
    ensures var hd := HeaderFor(w.header, |es|, tc);
            CountedBy(hd, |es|, tc) && FileFrom(w, es, tc) == FileWith(hd, es, tc)
  {
    FileSaved(w, es, tc);
    HeaderCounts(w.header, |es|, tc);
  }

  /** Saves into a store that counts from 0, Close, and Initialise on the file, whatever the reading store counted. */
  function Reread(w: Writer, es: seq<Saved>, tc: bool): (r: Reader)
    requires !w.open && w.total == 0 && Saveable(es)
    ensures Valid(r) && r.file == FileFrom(w, es, tc) && r.total == |es|
    ensures forall before: Uint64 :: r == Open(r.file, tc, before)
  {
    FreshFile(w, es, tc);
    OpenSaved(HeaderFor(w.header, |es|, tc), es, tc)
  }

  /**
   Saves, Close, Initialise, then any seeks: the store is at the entry an array index would be at, and it holds that
   entry's map if and only if type checking is off, no seek went back, or the map happens to equal the types saved
   just before it.
   */
  lemma CursorRefinesArray(w: Writer, es: seq<Saved>, tc: bool, seeks: seq<nat>)
    requires !w.open && w.total == 0 && Saveable(es)
    ensures var r := SeekAll(Reread(w, es, tc), seeks);
            && r.current == IndexOf(|es|, seeks) && r.current < |es|
            && (r.vars == es[r.current].vars <==>
                !tc || !WentBack(|es|, seeks)
                || TypesBefore(HeaderFor(w.header, |es|, tc), es, r.current) == es[r.current].vars)
            && (tc && !WentBack(|es|, seeks) ==> r.types == es[r.current].types)
  {
    HeaderCounts(w.header, |es|, tc);
    LoadedAfter(HeaderFor(w.header, |es|, tc), es, tc, seeks);
  }

  function Within(total: nat, seeks: seq<nat>): seq<nat> {
    if seeks == [] then []
    else if seeks[|seeks| - 1] < total then Within(total, seeks[..|seeks| - 1]) + [seeks[|seeks| - 1]]
    else Within(total, seeks[..|seeks| - 1])
  }

  /** Seeks out of bounds, wherever they come, make no difference to the others. */
  lemma {:induction false} SeekPastEnd(r: Reader, seeks: seq<nat>)
    requires Valid(r)
    ensures SeekAll(r, seeks) == SeekAll(r, Within(r.total, seeks)) && SeekAll(r, seeks).total == r.total
  {
    if seeks != [] {
      SeekPastEnd(r, seeks[..|seeks| - 1]);
      var inside := Within(r.total, seeks[..|seeks| - 1]);
      assert (inside + [seeks[|seeks| - 1]])[..|inside|] == inside;
    }
  }

  /** Seeks that never go back within bounds always show the entry asked for. */
  lemma {:induction false} ForwardSeeks(total: nat, seeks: seq<nat>)
    requires forall i, j :: 0 <= i < j < |seeks| ==> seeks[i] <= seeks[j]
    ensures !WentBack(total, seeks)
    ensures seeks != [] ==> IndexOf(total, seeks) <= seeks[|seeks| - 1]
  {
    if seeks != [] {
      ForwardSeeks(total, seeks[..|seeks| - 1]);
    }
  }

  /** Two typed events: going forward and back to the first shows the header's types instead of it. */
  lemma BackwardSeekMisreads(h: Saved, es: seq<Saved>)
    requires 2 <= |es| < TWO_64 && CountedBy(h, |es|, true) && TOTAL !in es[0].vars
    ensures var r := SeekAll(OpenSaved(h, es, true), [1, 0]);
            r.current == 0 && r.vars == h.types && r.vars != es[0].vars
  {
    var seeks: seq<nat> := [1, 0];
    assert seeks[..1] == [1] && seeks[..1][..0] == [];
    assert IndexOf(|es|, [1]) == 1 && WentBack(|es|, seeks);
    LoadedAfter(h, es, true, seeks);
  }
}

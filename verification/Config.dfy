/**
 The configuration state shared by the slow-control thread (alerts, buttons and
 commands) and Services (load, change, export, run stop). The thread handles one
 alert or control at a time, so each is one step.
 */
module Config {
  import opened Bytes

  datatype ConfigState = Unconfigured | LoadStart | LoadEnd | LoadFail | ChangeStart | ChangeEnd | ChangeFail

  datatype Ids = Ids(base: Uint64, runMode: Uint64)
  const NO_IDS: Ids := Ids(0, 0)

  /** The ids and the testing flag of a load payload; missing fields read as 0 and false. */
  datatype Request = Request(ids: Ids, testing: bool)

  /** One attempt to fetch a configuration: its text, or the error text left in its place. */
  datatype Fetch = Got(text: string) | Lost(error: string)
  const ATTEMPTS: nat := 5

  /** How a user callback ends. */
  datatype Result = Ok | Failed | Threw

  datatype Topic = LoadConfig | ChangeConfig | RunStop | ExportConfig

  datatype Event =
    | AlertLoad(request: Request, tries: seq<Fetch>)
    | AlertLoadBare                                    // no payload
    | AlertChange(payload: bool, result: Result)
    | AlertRunStop(result: Result)
    | AlertExport(text: string, result: Result)
    | CommandLoad(request: Request, tries: seq<Fetch>)
    | ButtonChange(result: Result)
    | CommandChangeTo(text: string, result: Result)
    | ButtonRunStop(result: Result)
    | ButtonExport(text: string, result: Result)
    | SetLocalConfig(text: string)

  datatype State = State(
    config: ConfigState, newConfig: nat, scTesting: bool,   // the slow controls
    ids: Ids, testing: bool, local: string,                 // Services
    changed: seq<string>)                                   // texts the alerts passed to the change callback

  const START: State := State(Unconfigured, 0, false, NO_IDS, false, "", [])

  predicate Tries(ev: Event) {
    (ev.AlertLoad? ==> |ev.tries| == ATTEMPTS) && (ev.CommandLoad? ==> |ev.tries| == ATTEMPTS)
  }

  // ---------- steps ----------

  function FirstGot(tries: seq<Fetch>): (i: nat)
    ensures i <= |tries|
    ensures forall j :: 0 <= j < i ==> tries[j].Lost?
    ensures i < |tries| ==> tries[i].Got?
  {
    if tries == [] || tries[0].Got? then 0 else 1 + FirstGot(tries[1..])
  }

  predicate Succeeds(s: State, request: Request, tries: seq<Fetch>) {
    request.ids == s.ids || FirstGot(tries) < |tries|
  }

  /** A failed attempt overwrites the local configuration with its error. */
  function Load(s: State, request: Request, tries: seq<Fetch>): State
    requires |tries| == ATTEMPTS
  {
    var i := FirstGot(tries);
    if request.ids == s.ids then s
    else if i == ATTEMPTS then s.(local := tries[ATTEMPTS - 1].error)
    else s.(local := tries[i].text, newConfig := 1, ids := request.ids, testing := request.testing)
  }

  /** A configuration from elsewhere than the database loses the ids. */
  function Adopt(s: State, text: string): State {
    if text != s.local then s.(local := text, ids := NO_IDS) else s
  }

  function Apply(s: State, ev: Event, subscribed: set<Topic>): State
    requires Tries(ev)
  {
    match ev
    case AlertLoad(request, tries) =>
      if LoadConfig !in subscribed then s.(config := LoadStart)
      else Load(s, request, tries).(config := if Succeeds(s, request, tries) then LoadEnd else LoadFail)
    case AlertLoadBare => s.(config := LoadStart)
    case AlertChange(payload, result) =>
      if s.newConfig == 0 then s
      else if ChangeConfig !in subscribed then s.(config := ChangeStart)
      else
        var s' := s.(changed := s.changed + [s.local], scTesting := if result == Failed then s.scTesting else s.testing);
        if payload then s'.(config := ChangeStart)
        else s'.(config := if result == Ok then ChangeEnd else ChangeFail, newConfig := 0)
    case AlertRunStop(_) => if RunStop in subscribed then s.(ids := NO_IDS) else s
    case AlertExport(text, result) => if ExportConfig in subscribed && result == Ok then Adopt(s, text) else s
    case CommandLoad(request, tries) =>
      Load(s, request, tries).(config := if Succeeds(s, request, tries) then LoadEnd else LoadFail)
    case ButtonChange(result) =>
      if result == Threw then s.(config := ChangeStart)
      else if result == Failed then s.(config := ChangeFail, newConfig := 0)
      else s.(config := ChangeEnd, newConfig := 0, scTesting := s.testing)
    case CommandChangeTo(text, result) =>
      if result == Threw then s.(config := ChangeStart)
      else if result == Failed then s.(config := ChangeFail)
      else Adopt(s, text).(config := ChangeEnd)
    case ButtonRunStop(result) =>
      s.(ids := NO_IDS, config := if result == Threw then s.config else Unconfigured)
    case ButtonExport(text, result) => if result == Ok then Adopt(s, text) else s
    case SetLocalConfig(text) => s.(local := text)
  }

  // ---------- the classes ----------

  class SlowControls {
    var config: ConfigState
    var newConfig: nat
    var testing: bool

    constructor ()
      ensures config == Unconfigured && newConfig == 0 && !testing
    {
      config, newConfig, testing := Unconfigured, 0, false;
    }
  }

  class Services {
    const sc: SlowControls
    const subscribed: set<Topic>
    var ids: Ids
    var testing: bool
    var localConfig: string
    var tmpConfig: string
    ghost var changed: seq<string>

    constructor (subscribed: set<Topic>)
      ensures fresh(sc) && Abs() == START && this.subscribed == subscribed
    {
      sc := new SlowControls();
      this.subscribed := subscribed;
      ids, testing, localConfig, tmpConfig, changed := NO_IDS, false, "", "", [];
    }

    ghost function Abs(): State
      reads this, sc
    {
      State(sc.config, sc.newConfig, sc.testing, ids, testing, localConfig, changed)
    }

    method LoadConfigAlertFunc(request: Request, tries: seq<Fetch>) returns (ok: bool)
      requires |tries| == ATTEMPTS
      modifies this, sc`newConfig
      ensures Abs() == Load(old(Abs()), request, tries) && ok == Succeeds(old(Abs()), request, tries)
    {
      if request.ids == ids {
        return true;
      }
      var count, got := 0, false;
      while count < ATTEMPTS && !got
        invariant 0 <= count <= ATTEMPTS && (got ==> count < ATTEMPTS && tries[count].Got?)
        invariant FirstGot(tries) == count + FirstGot(tries[count..])
        invariant Abs() == old(Abs()).(local := localConfig)
        invariant got ==> localConfig == tries[count].text
        invariant !got && count > 0 ==> tries[count - 1].Lost? && localConfig == tries[count - 1].error
        decreases ATTEMPTS - count, !got
      {
        match tries[count] {
          case Got(text) =>
            localConfig, got := text, true;
          case Lost(error) =>
            assert tries[count..][1..] == tries[count + 1..];
            localConfig, count := error, count + 1;
        }
      }
      assert FirstGot(tries) == if got then count else ATTEMPTS;
      if !got {
        return false;
      }
      sc.newConfig := 1;
      ids, testing := request.ids, request.testing;
      ok := true;
    }

    method LoadConfigSlowControlFunc(request: Request, tries: seq<Fetch>) returns (ok: bool)
      requires |tries| == ATTEMPTS
      modifies this, sc
      ensures Abs() == Apply(old(Abs()), CommandLoad(request, tries), subscribed)
      ensures ok == Succeeds(old(Abs()), request, tries)
    {
      sc.config := LoadStart;
      ok := LoadConfigAlertFunc(request, tries);
      sc.config := if ok then LoadEnd else LoadFail;
    }

    /** The change callback's subscription. */
    method ChangeConfigAlertFunc(result: Result) returns (ok: bool)
      modifies this`changed, sc`testing
      ensures Abs() == old(Abs()).(changed := old(changed) + [localConfig],
                                   scTesting := if result == Failed then old(sc.testing) else testing)
      ensures ok == (result == Ok)
    {
      var before := sc.testing;
      sc.testing := testing;
      changed := changed + [localConfig];
      if result == Failed {
        sc.testing := before;
      }
      ok := result == Ok;
    }

    method ResetConfigIDs()
      modifies this`ids
      ensures Abs() == old(Abs()).(ids := NO_IDS)
    {
      ids := NO_IDS;
    }

    method AdoptConfig(text: string)
      modifies this`ids, this`localConfig
      ensures Abs() == Adopt(old(Abs()), text)
    {
      if text != localConfig {
        localConfig := text;
        ids := NO_IDS;
      }
    }

    /** The alert half of the slow-control thread. */
    method OnAlert(ev: Event)
      requires Tries(ev)
      requires ev.AlertLoad? || ev.AlertLoadBare? || ev.AlertChange? || ev.AlertRunStop? || ev.AlertExport?
      modifies this, sc
      ensures Abs() == Apply(old(Abs()), ev, subscribed)
    {
      if ev.AlertLoad? || ev.AlertLoadBare? {
        sc.config := LoadStart;
      } else if ev.AlertChange? {
        if sc.newConfig == 0 {
          return;
        }
        sc.config := ChangeStart;
      }
      match ev {
        case AlertLoad(request, tries) =>
          if LoadConfig in subscribed {
            var ok := LoadConfigAlertFunc(request, tries);
            sc.config := if ok then LoadEnd else LoadFail;
          }
        case AlertLoadBare =>   // the callback throws on a null payload, and only payloads set the state
        case AlertChange(payload, result) =>
          if ChangeConfig in subscribed {
            var ok := ChangeConfigAlertFunc(result);
            if !payload {
              sc.config := if ok then ChangeEnd else ChangeFail;
              sc.newConfig := 0;
            }
          }
        case AlertRunStop(_) =>
          if RunStop in subscribed {
            ResetConfigIDs();
          }
        case AlertExport(text, result) =>
          if ExportConfig in subscribed && result == Ok {
            tmpConfig := text;
            AdoptConfig(tmpConfig);
          }
      }
    }

    method OnChangeButton(result: Result)
      modifies sc
      ensures Abs() == Apply(old(Abs()), ButtonChange(result), subscribed)
    {
      sc.config := ChangeStart;
      if result == Threw {
        return;
      }
      if result == Ok {
        sc.testing := testing;
      }
      sc.config := if result == Ok then ChangeEnd else ChangeFail;
      sc.newConfig := 0;
    }

    method OnChangeToCommand(text: string, result: Result)
      modifies this, sc
      ensures Abs() == Apply(old(Abs()), CommandChangeTo(text, result), subscribed)
    {
      sc.config := ChangeStart;
      if result == Threw {
        return;
      }
      sc.config := if result == Ok then ChangeEnd else ChangeFail;
      if result == Ok {
        AdoptConfig(text);
      }
    }

    method OnRunStopButton(result: Result)
      modifies this, sc
      ensures Abs() == Apply(old(Abs()), ButtonRunStop(result), subscribed)
    {
      ResetConfigIDs();
      if result != Threw {
        sc.config := Unconfigured;
      }
    }

    method OnExportButton(text: string, result: Result)
      modifies this
      ensures Abs() == Apply(old(Abs()), ButtonExport(text, result), subscribed)
    {
      if result == Ok {
        tmpConfig := text;
        AdoptConfig(tmpConfig);
      }
    }
  }

  // ---------- runs ----------

  /** The state, how many loads succeeded with new ids, and the text last fetched for each id pair. */
  datatype Trace = Trace(s: State, newLoads: nat, fetched: map<Ids, string>)

  function LoadOf(ev: Event, subscribed: set<Topic>): (Request, seq<Fetch>, bool) {
    if ev.CommandLoad? then (ev.request, ev.tries, true)
    else if ev.AlertLoad? && LoadConfig in subscribed then (ev.request, ev.tries, true)
    else (Request(NO_IDS, false), [], false)
  }

  /** The event is a load that fetches a configuration for ids other than the current ones. */
  predicate Fetches(s: State, ev: Event, subscribed: set<Topic>) {
    var (request, tries, isLoad) := LoadOf(ev, subscribed);
    isLoad && request.ids != s.ids && FirstGot(tries) < |tries|
  }

  /** The event is a load that tries and fails every attempt. */
  predicate Exhausts(s: State, ev: Event, subscribed: set<Topic>) {
    var (request, tries, isLoad) := LoadOf(ev, subscribed);
    isLoad && request.ids != s.ids && FirstGot(tries) == |tries|
  }

  function Step(t: Trace, ev: Event, subscribed: set<Topic>): Trace
    requires Tries(ev)
  {
    var s' := Apply(t.s, ev, subscribed);
    if Fetches(t.s, ev, subscribed)
    then Trace(s', t.newLoads + 1, t.fetched[ev.request.ids := ev.tries[FirstGot(ev.tries)].text])
    else t.(s := s')
  }

  predicate AllTries(evs: seq<Event>) {
    forall i :: 0 <= i < |evs| ==> Tries(evs[i])
  }

  function Run(evs: seq<Event>, subscribed: set<Topic>): Trace
    requires AllTries(evs)
  {
    if evs == [] then Trace(START, 0, map[])
    else Step(Run(evs[..|evs| - 1], subscribed), evs[|evs| - 1], subscribed)
  }

  // ---------- one change per load ----------

  /** Alerts have called the change callback at most once for each load, counting the one still owed. */
  predicate Budget(t: Trace) {
    |t.s.changed| + t.s.newConfig <= t.newLoads
  }

  /** The alert calls the callback without taking note of it. */
  predicate Unrecorded(t: Trace, ev: Event, subscribed: set<Topic>) {
    ev.AlertChange? && ev.payload && t.s.newConfig != 0 && ChangeConfig in subscribed
  }

  lemma StepBudget(t: Trace, ev: Event, subscribed: set<Topic>)
    requires Tries(ev) && Budget(t) && t.s.newConfig <= 1
    ensures Step(t, ev, subscribed).s.newConfig <= 1
    ensures Budget(Step(t, ev, subscribed)) <==>
            !Unrecorded(t, ev, subscribed) || |t.s.changed| + t.s.newConfig < t.newLoads
  {
  }

  /** In every run whose ChangeConfig alerts carry no payload, no load is changed to twice by alerts. */
  lemma {:induction false} OneChangePerLoad(evs: seq<Event>, subscribed: set<Topic>)
    requires AllTries(evs) && forall i :: 0 <= i < |evs| ==> !(evs[i].AlertChange? && evs[i].payload)
    ensures Budget(Run(evs, subscribed)) && Run(evs, subscribed).s.newConfig <= 1
  {
    if evs != [] {
      OneChangePerLoad(evs[..|evs| - 1], subscribed);
      StepBudget(Run(evs[..|evs| - 1], subscribed), evs[|evs| - 1], subscribed);
    }
  }

  /** With a payload it fails: after one load, two such alerts change twice. */
  lemma PayloadChangesTwice(request: Request, tries: seq<Fetch>, subscribed: set<Topic>)
    requires |tries| == ATTEMPTS && tries[0].Got? && request.ids != NO_IDS
    requires ChangeConfig in subscribed
    ensures var alert := AlertChange(true, Ok);
            var t := Run([CommandLoad(request, tries), alert, alert], subscribed);
            t.newLoads == 1 && t.s.changed == [tries[0].text, tries[0].text] && t.s.config == ChangeStart
  {
    var load, alert := CommandLoad(request, tries), AlertChange(true, Ok);
    var evs := [load, alert, alert];
    assert evs[..2] == [load, alert] && evs[..2][..1] == [load] && [load][..0] == [];
    var t0 := Run([], subscribed);
    var t1 := Run([load], subscribed);
    assert t1 == Step(t0, load, subscribed) && t1.s.newConfig == 1 && t1.s.changed == [];
    var t2 := Run(evs[..2], subscribed);
    assert t2 == Step(t1, alert, subscribed) && t2.s.changed == [tries[0].text];
  }

  // ---------- the local configuration agrees with the ids ----------

  predicate Agrees(t: Trace) {
    t.s.ids != NO_IDS ==> t.s.ids in t.fetched && t.s.local == t.fetched[t.s.ids]
  }

  /** SetLocalConfig, or the last error of an exhausted load, brings a text other than the current one. */
  predicate Overwrites(s: State, ev: Event, subscribed: set<Topic>)
    requires Tries(ev)
  {
    || (ev.SetLocalConfig? && ev.text != s.local)
    || (Exhausts(s, ev, subscribed) && ev.tries[ATTEMPTS - 1].error != s.local)
  }

  /** A step from agreement keeps it, exactly unless it overwrites the text of ids that stay. */
  lemma StepAgrees(t: Trace, ev: Event, subscribed: set<Topic>)
    requires Tries(ev) && Agrees(t)
    ensures Agrees(Step(t, ev, subscribed)) <==> t.s.ids == NO_IDS || !Overwrites(t.s, ev, subscribed)
  {
  }

  /** No step but these two can break it. */
  predicate Careful(evs: seq<Event>, subscribed: set<Topic>)
    requires AllTries(evs)
  {
    forall i :: 0 <= i < |evs| ==>
      !evs[i].SetLocalConfig? && !Exhausts(Run(evs[..i], subscribed).s, evs[i], subscribed)
  }

  /** Until a load exhausts its attempts or SetLocalConfig is called, ids other than (0,0) name the local text. */
  lemma {:induction false} ConfigAgrees(evs: seq<Event>, subscribed: set<Topic>)
    requires AllTries(evs) && Careful(evs, subscribed)
    ensures Agrees(Run(evs, subscribed))
  {
    if evs != [] {
      var init := evs[..|evs| - 1];
      assert forall i :: 0 <= i < |init| ==> init[..i] == evs[..i];
      ConfigAgrees(init, subscribed);
      StepAgrees(Run(init, subscribed), evs[|evs| - 1], subscribed);
    }
  }

  /** The texts brought since the last fetch, after one more event. */
  function Brought(texts: seq<string>, s: State, ev: Event, subscribed: set<Topic>): seq<string>
    requires Tries(ev)
  {
    if Fetches(s, ev, subscribed) then []
    else if ev.SetLocalConfig? then texts + [ev.text]
    else if Exhausts(s, ev, subscribed) then texts + [ev.tries[ATTEMPTS - 1].error]
    else texts
  }

  /** The texts that SetLocalConfig and the last errors of exhausted loads have brought since the last fetch. */
  function BroughtSince(evs: seq<Event>, subscribed: set<Topic>): seq<string>
    requires AllTries(evs)
  {
    if evs == [] then [] else
      Brought(BroughtSince(evs[..|evs| - 1], subscribed), Run(evs[..|evs| - 1], subscribed).s, evs[|evs| - 1], subscribed)
  }

  /** With ids on record, the local text is the last one brought, or else the one fetched for them. */
  predicate LocalKnown(t: Trace, texts: seq<string>) {
    t.s.ids != NO_IDS ==>
      t.s.ids in t.fetched && t.s.local == if texts == [] then t.fetched[t.s.ids] else texts[|texts| - 1]
  }

  lemma StepKnown(t: Trace, texts: seq<string>, ev: Event, subscribed: set<Topic>)
    requires Tries(ev) && LocalKnown(t, texts)
    ensures LocalKnown(Step(t, ev, subscribed), Brought(texts, t.s, ev, subscribed))
  {
  }

  lemma {:induction false} LocalText(evs: seq<Event>, subscribed: set<Topic>)
    requires AllTries(evs)
    ensures LocalKnown(Run(evs, subscribed), BroughtSince(evs, subscribed))
  {
    if evs != [] {
      var init := evs[..|evs| - 1];
      LocalText(init, subscribed);
      StepKnown(Run(init, subscribed), BroughtSince(init, subscribed), evs[|evs| - 1], subscribed);
    }
  }

  /**
   Over every run the local text agrees with the ids if and only if there are none, or the last text that
   SetLocalConfig or an exhausted load has brought since the last fetch, if any, is the one fetched for them.
   */
  lemma AgreesIff(evs: seq<Event>, subscribed: set<Topic>, t: Trace, texts: seq<string>)
    requires AllTries(evs) && t == Run(evs, subscribed) && texts == BroughtSince(evs, subscribed)
    ensures t.s.ids != NO_IDS ==> t.s.ids in t.fetched
    ensures Agrees(t) <==> t.s.ids == NO_IDS || texts == [] || texts[|texts| - 1] == t.fetched[t.s.ids]
  {
    LocalText(evs, subscribed);
  }

  /**
   After an exhausted load, loading the ids still on record reports success without fetching, and leaves the last
   error text as the configuration.
   */
  lemma ReloadAfterFailure(s: State, failing: Request, tries: seq<Fetch>, again: Request, more: seq<Fetch>,
                           subscribed: set<Topic>)
    requires |tries| == ATTEMPTS && |more| == ATTEMPTS
    requires failing.ids != s.ids && FirstGot(tries) == ATTEMPTS && again.ids == s.ids
    ensures var s' := Apply(Apply(s, CommandLoad(failing, tries), subscribed), CommandLoad(again, more), subscribed);
            s'.config == LoadEnd && s'.ids == s.ids && s'.local == tries[ATTEMPTS - 1].error
  {
  }

  // ---------- what the state says of the run ----------

  /** Something an event does, told by the state before it and the event. */
  type Effect = (State, Event) -> bool

  /** The i-th event has this effect. */
  predicate Has(evs: seq<Event>, subscribed: set<Topic>, effect: Effect, i: nat)
    requires AllTries(evs) && i < |evs|
  {
    effect(Run(evs[..i], subscribed).s, evs[i])
  }

  /** The i-th event has this effect, and none since has had the wider one. */
  predicate LastAt(evs: seq<Event>, subscribed: set<Topic>, effect: Effect, any: Effect, i: nat)
    requires AllTries(evs) && i < |evs|
  {
    Has(evs, subscribed, effect, i) && forall j: nat :: i < j < |evs| ==> !Has(evs, subscribed, any, j)
  }

  ghost predicate Last(evs: seq<Event>, subscribed: set<Topic>, effect: Effect, any: Effect)
    requires AllTries(evs)
  {
    exists i: nat :: i < |evs| && LastAt(evs, subscribed, effect, any, i)
  }

  predicate Never(evs: seq<Event>, subscribed: set<Topic>, any: Effect)
    requires AllTries(evs)
  {
    forall i: nat :: i < |evs| ==> !Has(evs, subscribed, any, i)
  }

  lemma LastStep(evs: seq<Event>, subscribed: set<Topic>, effect: Effect, any: Effect)
    requires AllTries(evs) && evs != []
    ensures var init, ev := evs[..|evs| - 1], evs[|evs| - 1];
            var s := Run(init, subscribed).s;
            && (Last(evs, subscribed, effect, any) <==>
                effect(s, ev) || (!any(s, ev) && Last(init, subscribed, effect, any)))
            && (Never(evs, subscribed, any) <==> !any(s, ev) && Never(init, subscribed, any))
  {
    var n: nat := |evs| - 1;
    var init := evs[..n];
    forall i: nat | i < n ensures Has(init, subscribed, any, i) <==> Has(evs, subscribed, any, i) {
      HasShorter(evs, subscribed, any, i);
    }
    assert Never(evs, subscribed, any) <==> !Has(evs, subscribed, any, n) && Never(init, subscribed, any);
    forall i: nat | i < n
      ensures LastAt(evs, subscribed, effect, any, i) <==>
              LastAt(init, subscribed, effect, any, i) && !Has(evs, subscribed, any, n)
    {
      LastShorter(evs, subscribed, effect, any, i);
    }
    assert LastAt(evs, subscribed, effect, any, n) <==> Has(evs, subscribed, effect, n);
  }

  lemma HasShorter(evs: seq<Event>, subscribed: set<Topic>, effect: Effect, i: nat)
    requires AllTries(evs) && i < |evs| - 1
    ensures Has(evs[..|evs| - 1], subscribed, effect, i) <==> Has(evs, subscribed, effect, i)
  {
    assert evs[..|evs| - 1][..i] == evs[..i];
  }

  lemma LastShorter(evs: seq<Event>, subscribed: set<Topic>, effect: Effect, any: Effect, i: nat)
    requires AllTries(evs) && i < |evs| - 1
    ensures LastAt(evs, subscribed, effect, any, i) <==>
            LastAt(evs[..|evs| - 1], subscribed, effect, any, i) && !Has(evs, subscribed, any, |evs| - 1)
  {
    var n := |evs| - 1;
    HasShorter(evs, subscribed, effect, i);
    if LastAt(evs, subscribed, effect, any, i) {
      forall j: nat | i < j < n ensures !Has(evs[..n], subscribed, any, j) {
        HasShorter(evs, subscribed, any, j);
      }
      assert !Has(evs, subscribed, any, n);
    } else if LastAt(evs[..n], subscribed, effect, any, i) {
      var j: nat :| i < j < |evs| && Has(evs, subscribed, any, j);
      if j < n {
        HasShorter(evs, subscribed, any, j);
      }
    }
  }

  // ---------- the Config value ----------

  predicate InProgress(c: ConfigState) {
    c == LoadStart || c == ChangeStart
  }

  /** The event says that a load or change has started, and ends without saying how it went. */
  predicate Abandons(s: State, ev: Event, subscribed: set<Topic>) {
    match ev
    case AlertLoadBare => true
    case AlertLoad(_, _) => LoadConfig !in subscribed
    case AlertChange(payload, _) => s.newConfig != 0 && (payload || ChangeConfig !in subscribed)
    case ButtonChange(result) => result == Threw
    case CommandChangeTo(_, result) => result == Threw
    case _ => false
  }

  /** The event leaves the Config value alone. */
  predicate Silent(s: State, ev: Event) {
    match ev
    case AlertChange(_, _) => s.newConfig == 0
    case ButtonRunStop(result) => result == Threw
    case AlertRunStop(_) => true
    case AlertExport(_, _) => true
    case ButtonExport(_, _) => true
    case SetLocalConfig(_) => true
    case _ => false
  }

  /** A load that the command or a subscribed alert asks for. */
  predicate Handles(ev: Event, subscribed: set<Topic>) {
    ev.CommandLoad? || (ev.AlertLoad? && LoadConfig in subscribed)
  }

  /** A change asked for by a subscribed alert without payload, when one is owed. */
  predicate AlertChanges(s: State, ev: Event, subscribed: set<Topic>) {
    ev.AlertChange? && !ev.payload && s.newConfig != 0 && ChangeConfig in subscribed
  }

  /** The event ends in this state, told by what was asked for and how it went. */
  predicate EndsIn(s: State, ev: Event, subscribed: set<Topic>, c: ConfigState) {
    match c
    case LoadEnd =>
      Handles(ev, subscribed) && (ev.request.ids == s.ids || exists k :: 0 <= k < |ev.tries| && ev.tries[k].Got?)
    case LoadFail =>
      Handles(ev, subscribed) && ev.request.ids != s.ids && forall k :: 0 <= k < |ev.tries| ==> ev.tries[k].Lost?
    case ChangeEnd =>
      (AlertChanges(s, ev, subscribed) || ev.ButtonChange? || ev.CommandChangeTo?) && ev.result == Ok
    case ChangeFail =>
      || (AlertChanges(s, ev, subscribed) && ev.result != Ok)
      || ((ev.ButtonChange? || ev.CommandChangeTo?) && ev.result == Failed)
    case Unconfigured => ev.ButtonRunStop? && ev.result != Threw
    case LoadStart => Abandons(s, ev, subscribed) && (ev.AlertLoad? || ev.AlertLoadBare?)
    case ChangeStart => Abandons(s, ev, subscribed) && !ev.AlertLoad? && !ev.AlertLoadBare?
  }

  function Ending(c: ConfigState, subscribed: set<Topic>): Effect {
    (s: State, ev: Event) => EndsIn(s, ev, subscribed, c)
  }

  function Abandoning(subscribed: set<Topic>): Effect {
    (s: State, ev: Event) => Abandons(s, ev, subscribed)
  }

  function Speaking(): Effect {
    (s: State, ev: Event) => !Silent(s, ev)
  }

  lemma ConfigStep(s: State, ev: Event, subscribed: set<Topic>, c: ConfigState)
    requires Tries(ev)
    ensures Apply(s, ev, subscribed).config == c <==>
            EndsIn(s, ev, subscribed, c) || (Silent(s, ev) && s.config == c)
  {
  }

  /** Over every run Config is what the last event to write it ended in, or still Unconfigured if none did. */
  lemma {:induction false} ConfigIff(evs: seq<Event>, subscribed: set<Topic>, c: ConfigState)
    requires AllTries(evs)
    ensures Run(evs, subscribed).s.config == c <==>
            Last(evs, subscribed, Ending(c, subscribed), Speaking())
            || (c == Unconfigured && Never(evs, subscribed, Speaking()))
  {
    if evs != [] {
      var init := evs[..|evs| - 1];
      ConfigIff(init, subscribed, c);
      LastStep(evs, subscribed, Ending(c, subscribed), Speaking());
      ConfigStep(Run(init, subscribed).s, evs[|evs| - 1], subscribed, c);
    }
  }

  /**
   Over every run Config says that a load or change is under way, although it is over, exactly when the last event to
   write Config abandoned it.
   */
  lemma {:induction false} StuckIff(evs: seq<Event>, subscribed: set<Topic>)
    requires AllTries(evs)
    ensures InProgress(Run(evs, subscribed).s.config) <==> Last(evs, subscribed, Abandoning(subscribed), Speaking())
  {
    if evs != [] {
      var init := evs[..|evs| - 1];
      StuckIff(init, subscribed);
      LastStep(evs, subscribed, Abandoning(subscribed), Speaking());
      StuckStep(Run(init, subscribed).s, evs[|evs| - 1], subscribed);
    }
  }

  lemma StuckStep(s: State, ev: Event, subscribed: set<Topic>)
    requires Tries(ev)
    ensures InProgress(Apply(s, ev, subscribed).config) <==>
            Abandons(s, ev, subscribed) || (Silent(s, ev) && InProgress(s.config))
  {
  }

  // ---------- NewConfig ----------

  function Fetching(subscribed: set<Topic>): Effect {
    (s: State, ev: Event) => Fetches(s, ev, subscribed)
  }

  /** A change reports back: by an alert without payload, or by the button, whatever the callback answers. */
  predicate Settles(ev: Event, subscribed: set<Topic>) {
    (ev.AlertChange? && !ev.payload && ChangeConfig in subscribed) || (ev.ButtonChange? && ev.result != Threw)
  }

  function Owing(subscribed: set<Topic>): Effect {
    (s: State, ev: Event) => Fetches(s, ev, subscribed) || Settles(ev, subscribed)
  }

  lemma OwedStep(s: State, ev: Event, subscribed: set<Topic>)
    requires Tries(ev)
    ensures var n := Apply(s, ev, subscribed).newConfig;
            n == if Fetches(s, ev, subscribed) then 1 else if Settles(ev, subscribed) then 0 else s.newConfig
  {
  }

  /** Over every run a change is owed, once, exactly when a load fetched since the last change that reported back. */
  lemma {:induction false} OwedIff(evs: seq<Event>, subscribed: set<Topic>)
    requires AllTries(evs)
    ensures Run(evs, subscribed).s.newConfig ==
            if Last(evs, subscribed, Fetching(subscribed), Owing(subscribed)) then 1 else 0
  {
    if evs != [] {
      OwedIff(evs[..|evs| - 1], subscribed);
      LastStep(evs, subscribed, Fetching(subscribed), Owing(subscribed));
      OwedStep(Run(evs[..|evs| - 1], subscribed).s, evs[|evs| - 1], subscribed);
    }
  }

  // ---------- the local text and the ids ----------

  /** A configuration is adopted from a callback or a command. */
  predicate Adopts(ev: Event, subscribed: set<Topic>) {
    || (ev.AlertExport? && ExportConfig in subscribed && ev.result == Ok)
    || (ev.ButtonExport? && ev.result == Ok)
    || (ev.CommandChangeTo? && ev.result == Ok)
  }

  /** The event brings this text: the first one fetched, the last error, or the one given. */
  predicate Brings(s: State, ev: Event, subscribed: set<Topic>, text: string) {
    || (Handles(ev, subscribed) && ev.request.ids != s.ids && FirstFetched(ev.tries, text))
    || (Handles(ev, subscribed) && ev.request.ids != s.ids && LastError(ev.tries, text))
    || ((Adopts(ev, subscribed) || ev.SetLocalConfig?) && ev.text == text)
  }

  predicate FirstFetched(tries: seq<Fetch>, text: string) {
    exists k :: 0 <= k < |tries| && tries[k] == Got(text) && forall j :: 0 <= j < k ==> tries[j].Lost?
  }

  predicate LastError(tries: seq<Fetch>, text: string) {
    tries != [] && tries[|tries| - 1] == Lost(text) && forall k :: 0 <= k < |tries| ==> tries[k].Lost?
  }

  function Bringing(text: string, subscribed: set<Topic>): Effect {
    (s: State, ev: Event) => Brings(s, ev, subscribed, text)
  }

  function BringingAny(subscribed: set<Topic>): Effect {
    (s: State, ev: Event) => (Handles(ev, subscribed) && ev.request.ids != s.ids) || Adopts(ev, subscribed) || ev.SetLocalConfig?
  }

  lemma LocalStep(s: State, ev: Event, subscribed: set<Topic>, text: string)
    requires Tries(ev)
    ensures Apply(s, ev, subscribed).local == text <==>
            Brings(s, ev, subscribed, text) || (!BringingAny(subscribed)(s, ev) && s.local == text)
  {
    if Handles(ev, subscribed) {
      FetchTexts(ev.tries, text);
      assert Apply(s, ev, subscribed).local == Load(s, ev.request, ev.tries).local;
      if ev.request.ids != s.ids {
        assert Brings(s, ev, subscribed, text) <==> FirstFetched(ev.tries, text) || LastError(ev.tries, text);
      }
    } else {
      assert !Adopts(ev, subscribed) && !ev.SetLocalConfig? ==> Apply(s, ev, subscribed).local == s.local;
    }
  }

  lemma FetchTexts(tries: seq<Fetch>, text: string)
    ensures FirstFetched(tries, text) <==> FirstGot(tries) < |tries| && tries[FirstGot(tries)].text == text
    ensures LastError(tries, text) <==>
            tries != [] && FirstGot(tries) == |tries| && tries[|tries| - 1].error == text
  {
    var i := FirstGot(tries);
    if i < |tries| {
      assert tries[i] == Got(tries[i].text);
    }
  }

  /** Over every run the local text is the last one brought, or still empty if there was none. */
  lemma {:induction false} LocalIff(evs: seq<Event>, subscribed: set<Topic>, text: string)
    requires AllTries(evs)
    ensures Run(evs, subscribed).s.local == text <==>
            Last(evs, subscribed, Bringing(text, subscribed), BringingAny(subscribed))
            || (text == "" && Never(evs, subscribed, BringingAny(subscribed)))
  {
    if evs != [] {
      var init := evs[..|evs| - 1];
      LocalIff(init, subscribed, text);
      LastStep(evs, subscribed, Bringing(text, subscribed), BringingAny(subscribed));
      LocalStep(Run(init, subscribed).s, evs[|evs| - 1], subscribed, text);
    }
  }

  /** The ids are lost: by a run stop, or to a text from elsewhere that differs from the current one. */
  predicate LosesIds(s: State, ev: Event, subscribed: set<Topic>) {
    || ev.ButtonRunStop? || (ev.AlertRunStop? && RunStop in subscribed)
    || (Adopts(ev, subscribed) && ev.text != s.local)
  }

  function Naming(ids: Ids, subscribed: set<Topic>): Effect {
    (s: State, ev: Event) => (Fetches(s, ev, subscribed) && ev.request.ids == ids) || (LosesIds(s, ev, subscribed) && ids == NO_IDS)
  }

  function NamingAny(subscribed: set<Topic>): Effect {
    (s: State, ev: Event) => Fetches(s, ev, subscribed) || LosesIds(s, ev, subscribed)
  }

  lemma IdsStep(s: State, ev: Event, subscribed: set<Topic>)
    requires Tries(ev)
    ensures var ids := Apply(s, ev, subscribed).ids;
            ids == if Fetches(s, ev, subscribed) then ev.request.ids
                   else if LosesIds(s, ev, subscribed) then NO_IDS else s.ids
  {
  }

  /** Over every run the ids are those of the last load that fetched, unless they were lost since. */
  lemma {:induction false} IdsIff(evs: seq<Event>, subscribed: set<Topic>, ids: Ids)
    requires AllTries(evs)
    ensures Run(evs, subscribed).s.ids == ids <==>
            Last(evs, subscribed, Naming(ids, subscribed), NamingAny(subscribed))
            || (ids == NO_IDS && Never(evs, subscribed, NamingAny(subscribed)))
  {
    if evs != [] {
      IdsIff(evs[..|evs| - 1], subscribed, ids);
      LastStep(evs, subscribed, Naming(ids, subscribed), NamingAny(subscribed));
      IdsStep(Run(evs[..|evs| - 1], subscribed).s, evs[|evs| - 1], subscribed);
    }
  }

  // ---------- the testing flags ----------

  function FetchingFlag(flag: bool, subscribed: set<Topic>): Effect {
    (s: State, ev: Event) => Fetches(s, ev, subscribed) && ev.request.testing == flag
  }

  /** A change takes over the flag of the configuration: an alert's unless the callback fails, the button's if it is Ok. */
  predicate TakesFlag(s: State, ev: Event, subscribed: set<Topic>) {
    || (ev.AlertChange? && s.newConfig != 0 && ChangeConfig in subscribed && ev.result != Failed)
    || (ev.ButtonChange? && ev.result == Ok)
  }

  function Taking(subscribed: set<Topic>): Effect {
    (s: State, ev: Event) => TakesFlag(s, ev, subscribed)
  }

  function TakingFlag(flag: bool, subscribed: set<Topic>): Effect {
    (s: State, ev: Event) => TakesFlag(s, ev, subscribed) && s.testing == flag
  }

  lemma TestingStep(s: State, ev: Event, subscribed: set<Topic>)
    requires Tries(ev)
    ensures var s' := Apply(s, ev, subscribed);
            && s'.testing == (if Fetches(s, ev, subscribed) then ev.request.testing else s.testing)
            && s'.scTesting == (if TakesFlag(s, ev, subscribed) then s.testing else s.scTesting)
  {
  }

  /** Over every run the configuration's testing flag is that of the last load that fetched, and false at first. */
  lemma {:induction false} TestingIff(evs: seq<Event>, subscribed: set<Topic>, flag: bool)
    requires AllTries(evs)
    ensures Run(evs, subscribed).s.testing == flag <==>
            Last(evs, subscribed, FetchingFlag(flag, subscribed), Fetching(subscribed))
            || (!flag && Never(evs, subscribed, Fetching(subscribed)))
  {
    if evs != [] {
      TestingIff(evs[..|evs| - 1], subscribed, flag);
      LastStep(evs, subscribed, FetchingFlag(flag, subscribed), Fetching(subscribed));
      TestingStep(Run(evs[..|evs| - 1], subscribed).s, evs[|evs| - 1], subscribed);
    }
  }

  /** The slow controls' flag is the one the configuration had at the last change that took it over. */
  lemma {:induction false} TakenFlagIff(evs: seq<Event>, subscribed: set<Topic>, flag: bool)
    requires AllTries(evs)
    ensures Run(evs, subscribed).s.scTesting == flag <==>
            Last(evs, subscribed, TakingFlag(flag, subscribed), Taking(subscribed))
            || (!flag && Never(evs, subscribed, Taking(subscribed)))
  {
    if evs != [] {
      TakenFlagIff(evs[..|evs| - 1], subscribed, flag);
      LastStep(evs, subscribed, TakingFlag(flag, subscribed), Taking(subscribed));
      TestingStep(Run(evs[..|evs| - 1], subscribed).s, evs[|evs| - 1], subscribed);
    }
  }

  // ---------- restarting after a run stop ----------

  /**
   A run stop clears the ids so that the next load is not taken for a repeat: stop, load, change calls the callback
   exactly when a change was already owed, or the load asks for ids other than (0,0) and some attempt succeeds. It is
   called once, with the text of the first successful attempt, the last error, or the text there was.
   */
  lemma RestartAfterStop(s: State, stop: Event, request: Request, tries: seq<Fetch>, result: Result,
                         subscribed: set<Topic>)
    requires |tries| == ATTEMPTS && {RunStop, LoadConfig, ChangeConfig} <= subscribed
    requires stop.AlertRunStop? || stop.ButtonRunStop?
    ensures var s1 := Apply(s, stop, subscribed);
            var s2 := Apply(s1, AlertLoad(request, tries), subscribed);
            var s3 := Apply(s2, AlertChange(false, result), subscribed);
            var loaded := request.ids != NO_IDS && FirstGot(tries) < ATTEMPTS;
            && (s3.changed != s.changed <==> s.newConfig != 0 || loaded)
            && (loaded ==> s3.changed == s.changed + [tries[FirstGot(tries)].text])
            && (s.newConfig != 0 && !loaded ==>
                s3.changed == s.changed + [if request.ids == NO_IDS then s.local else tries[ATTEMPTS - 1].error])
  {
  }
}

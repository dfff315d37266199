/** What the events of a run do to its session: the natives that stage output and end a run as they are
    written, all others as the world has it. */
module Natives {
  import opened Syntax
  import opened Values
  import opened Heap
  import opened Output
  import Persist
  import opened Session
  import opened Publication

  const COLOR_BLOCK: nat := 32

  /** What natives other than the two do to the session: they stage nothing, and do not bail. */
  type NetworkCall = c: NativeCall | !c.CallEmit? && !c.CallBail? witness CallDeadline(0)

  /** Which native is which, when there is memory for a record, and what the others do to the session
      and ask of the runtime, given all events of the run so far. */
  datatype Natives = Natives(
    emit: nat,
    bail: nat,
    grants: seq<Event> -> Grants,
    effects: seq<Event> -> seq<NetworkCall>,
    act: seq<Event> -> Action)

  /** The record that an emission asks for, if its arguments are a key, a value and perhaps a color. */
  function EmitArguments(args: seq<Value>): Option<Record> {
    if |args| < 2 || !args[0].StrV? || !args[1].StrV? || (|args| > 2 && args[2] != NilV && !args[2].StrV?) then None
    else
      var key, value := args[0].text, args[1].text;
      var color := if |args| > 2 && args[2].StrV? then args[2].text else "default";
      var parsed := ParseColor(Persist.CString(color));
      if key == "" || |key| >= KEY_BLOCK || color == "" || |color| >= COLOR_BLOCK || parsed.None? then None
      else if !Persist.IsBytes(key) || !Persist.IsBytes(value) then None
      else Some(Record(key, value, parsed.value))
  }

  predicate Emits(n: Natives, e: Event) { e.Request? && e.native == n.emit && EmitArguments(e.args).Some? }

  predicate Bails(n: Natives, e: Event) { e.Request? && e.native == n.bail != n.emit && |e.args| == 1 && e.args[0].StrV? }

  /** What the last event of the log does to the session. */
  function EffectOf(n: Natives, log: seq<Event>): seq<NativeCall>
    requires log != []
  {
    var e := log[|log| - 1];
    if e.Deadline? then [CallDeadline(0)]
    else if e.native == n.emit then
      var r := EmitArguments(e.args);
      if r.None? then [] else [CallEmit(r.value.key, r.value.value, r.value.color, n.grants(log))]
    else if e.native == n.bail then (if Bails(n, e) then [CallBail] else [])
    else n.effects(log)
  }

  /** All that the events of a run do, in order. */
  function CallsOf(n: Natives, log: seq<Event>): seq<NativeCall> {
    if log == [] then [] else CallsOf(n, log[..|log| - 1]) + EffectOf(n, log)
  }

  /** What came of an emission that is the last event of the log. */
  function StatusOf(n: Natives, s: Session.State, limits: Limits, log: seq<Event>): Status
    requires log != [] && Emits(n, log[|log| - 1])
  {
    var before := Through(s, CallsOf(n, log[..|log| - 1]), limits);
    Emitted(before.t, EmitArguments(log[|log| - 1].args).value, limits, n.grants(log)).status
  }

  /** What natives answer: an emission is true if its record is staged and fails otherwise, and a bail
      always fails. */
  function Answered(n: Natives, s: Session.State, limits: Limits, log: seq<Event>): Action {
    if log == [] || log[|log| - 1].Deadline? then GiveUp
    else
      var e := log[|log| - 1];
      if e.native == n.emit then
        if Emits(n, e) && StatusOf(n, s, limits, log).Staged? then Answer([BoolV(true)]) else GiveUp
      else if e.native == n.bail then GiveUp
      else n.act(log)
  }

  /** The world in which natives answer like that, after at least one request. */
  function Tied(w: World, n: Natives, s: Session.State, limits: Limits): World {
    w.(act := log => Answered(n, s, limits, log), patience := w.patience + 1)
  }

  // ---- what is staged ----------------------------------------------------------------------

  /** The records of the emissions that were answered, in order. */
  function Emissions(n: Natives, w: World, log: seq<Event>): seq<Record> {
    if log == [] then []
    else
      var e := log[|log| - 1];
      Emissions(n, w, log[..|log| - 1]) + if Emits(n, e) && w.act(log).Answer? then [EmitArguments(e.args).value] else []
  }

  lemma {:induction false} RunJoins(r: Course, a: seq<NativeCall>, b: seq<NativeCall>, limits: Limits)
    ensures PerformedAll(r, a + b, limits) == PerformedAll(PerformedAll(r, a, limits), b, limits)
    decreases a
  {
    hide Performed;
    if a == [] {
      assert a + b == b;
    } else {
      RunJoins(Performed(r, a[0], limits), a[1..], b, limits);
      assert (a + b)[1..] == a[1..] + b;
    }
  }

  lemma OneMoreEvent(n: Natives, s: Session.State, limits: Limits, log: seq<Event>)
    requires log != []
    ensures var before := Through(s, CallsOf(n, log[..|log| - 1]), limits);
      Through(s, CallsOf(n, log), limits) == PerformedAll(before, EffectOf(n, log), limits)
  {
    hide EffectOf, PerformedAll;
    RunJoins(Course(s.(phase := Phase.Running), NOTHING_STAGED), CallsOf(n, log[..|log| - 1]), EffectOf(n, log), limits);
  }

  lemma {:induction false} NetworkStagesNothing(r: Course, calls: seq<NetworkCall>, limits: Limits)
    ensures PerformedAll(r, calls, limits).t == r.t
    decreases calls
  {
    hide TcpOpened, UdpOpened, Transferred;
    if calls != [] {
      NetworkStagesNothing(Performed(r, calls[0], limits), calls[1..], limits);
    }
  }

  lemma OneCall(r: Course, call: NativeCall, limits: Limits)
    ensures PerformedAll(r, [call], limits) == Performed(r, call, limits)
  {
    hide Performed;
    assert [call][1..] == [];
  }

  lemma Healthily(n: Natives, s: Session.State, limits: Limits, log: seq<Event>)
    requires Sound(s) && s.phase == Capturing && s.termination == Unset
    ensures Healthy(Through(s, CallsOf(n, log), limits), limits)
  {
    hide Sound, Fine, PerformedAll, CallsOf, Healthy;
    Started(s, limits);
    RunKeeps(Course(s.(phase := Phase.Running), NOTHING_STAGED), CallsOf(n, log), limits);
  }

  /** The stage holds exactly the records of the emissions that were answered. */
  lemma {:induction false} StagedIsEmitted(w: World, n: Natives, s: Session.State, limits: Limits, log: seq<Event>)
    requires Sound(s) && s.phase == Capturing && s.termination == Unset
    ensures Through(s, CallsOf(n, log), limits).t.records == Emissions(n, Tied(w, n, s, limits), log)
    decreases |log|
  {
    hide Sound, CallsOf, EmitArguments, Emitted, Through, Holding;
    if log == [] {
      NothingDone(n, s, limits);
    } else {
      var front, e := log[..|log| - 1], log[|log| - 1];
      var r := Through(s, CallsOf(n, front), limits);
      StagedIsEmitted(w, n, s, limits, front);
      OneMoreEvent(n, s, limits, log);
      Healthily(n, s, limits, front);
      if Emits(n, e) {
        var record := EmitArguments(e.args).value;
        OneCall(r, CallEmit(record.key, record.value, record.color, n.grants(log)), limits);
        EmittedHolds(r.t, record, limits, n.grants(log));
      } else if e.Deadline? {
        OneCall(r, CallDeadline(0), limits);
      } else if e.native != n.emit {
        if Bails(n, e) { OneCall(r, CallBail, limits); }
        NetworkStagesNothing(r, n.effects(log), limits);
      }
    }
  }

  lemma NothingDone(n: Natives, s: Session.State, limits: Limits)
    ensures Through(s, CallsOf(n, []), limits) == Course(s.(phase := Phase.Running), NOTHING_STAGED)
  {
  }

  // ---- what does not happen in a run that is left alone ------------------------------------

  /** The last event is neither a passed deadline nor a bail, and no emission of a valid record for which
      there is memory has failed. */
  predicate QuietAt(n: Natives, w: World, limits: Limits, log: seq<Event>)
    requires log != []
  {
    var e := log[|log| - 1];
    && !e.Deadline? && !Bails(n, e)
    && (Emits(n, e) && RecordValid(EmitArguments(e.args).value, limits) && n.grants(log) == Grants(true, true) ==>
          w.act(log).Answer?)
  }

  /** After some calls that leave a session without a reason to end, it had none before. */
  lemma UnsetBefore(r: Course, calls: seq<NativeCall>, limits: Limits)
    requires Healthy(r, limits) && PerformedAll(r, calls, limits).s.termination == Unset
    ensures r.s.termination == Unset
  {
    hide Healthy, Fine, PerformedAll;
    RunKeeps(r, calls, limits);
    FineFacts(r.s, PerformedAll(r, calls, limits).s);
  }

  lemma QuietEvent(w: World, n: Natives, s: Session.State, limits: Limits, log: seq<Event>)
    requires Sound(s) && s.phase == Capturing && s.termination == Unset && log != []
    requires Through(s, CallsOf(n, log), limits).s.termination == Unset
    ensures Through(s, CallsOf(n, log[..|log| - 1]), limits).s.termination == Unset
    ensures QuietAt(n, Tied(w, n, s, limits), limits, log)
  {
    hide Sound, CallsOf, EmitArguments, RecordValid, Stageable, Through, Fine, Performed;
    var front, e := log[..|log| - 1], log[|log| - 1];
    var r := Through(s, CallsOf(n, front), limits);
    OneMoreEvent(n, s, limits, log);
    Healthily(n, s, limits, front);
    UnsetBefore(r, EffectOf(n, log), limits);
    if e.Deadline? {
      OneCall(r, CallDeadline(0), limits);
      ReasonChanges(r, CallDeadline(0), limits);
    } else if Bails(n, e) {
      OneCall(r, CallBail, limits);
      ReasonChanges(r, CallBail, limits);
    } else if Emits(n, e) {
      var record := EmitArguments(e.args).value;
      var call := CallEmit(record.key, record.value, record.color, n.grants(log));
      OneCall(r, call, limits);
      ReasonChanges(r, call, limits);
      EmittedHolds(r.t, record, limits, n.grants(log));
    }
  }

  /** If nothing has given the session a reason to end, no event of the run was one. */
  lemma {:induction false} AllQuiet(w: World, n: Natives, s: Session.State, limits: Limits, log: seq<Event>, k: nat)
    requires Sound(s) && s.phase == Capturing && s.termination == Unset && 0 < k <= |log|
    requires Through(s, CallsOf(n, log), limits).s.termination == Unset
    ensures QuietAt(n, Tied(w, n, s, limits), limits, log[..k])
    decreases |log|
  {
    hide Sound, CallsOf, Through, QuietAt, Tied;
    QuietEvent(w, n, s, limits, log);
    if k == |log| {
      assert log[..k] == log;
    } else {
      AllQuiet(w, n, s, limits, log[..|log| - 1], k);
      assert log[..|log| - 1][..k] == log[..k];
    }
  }
}

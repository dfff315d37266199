/** One Book run from the first captured packet to the published file. */
module Publication {
  import opened Syntax
  import opened Output
  import Persist
  import opened Session
  import opened Commit

  /** What a Book's natives do to its session, with what the world answers each time. */
  datatype NativeCall =
    | CallOpenTcp(to: nat, remaining: int, later: int, reachable: bool, connected: bool, readings: seq<Reading>)
    | CallOpenUdp(to: nat, remaining: int, reachable: bool, connected: bool)
    | CallTransfer(remaining: int, later: int, moved: bool, readings: seq<Reading>)
    | CallEmit(key: ByteString, value: ByteString, color: Color, grants: Grants)
    | CallBail
    | CallDeadline(remaining: int)

  /** A session and the records staged in it. */
  datatype Course = Course(s: State, t: Staging)

  function Ended(s: State, why: Termination): State { s.(termination := why) }

  /** One native call. */
  function Performed(r: Course, call: NativeCall, limits: Limits): Course {
    match call
    case CallOpenTcp(to, remaining, later, reachable, connected, readings) =>
      r.(s := TcpOpened(r.s, to, remaining, later, reachable, connected, readings).s)
    case CallOpenUdp(to, remaining, reachable, connected) => r.(s := UdpOpened(r.s, to, remaining, reachable, connected).s)
    case CallTransfer(remaining, later, moved, readings) => r.(s := Transferred(r.s, remaining, later, moved, readings).s)
    case CallEmit(key, value, color, grants) =>
      var e := Emitted(r.t, Record(key, value, color), limits, grants);
      Course(if e.status == LimitReached then Ended(r.s, LimitError) else r.s, e.after)
    case CallBail => r.(s := Ended(r.s, Bailed))
    case CallDeadline(remaining) => if remaining <= 0 && r.s.termination == Unset then r.(s := Ended(r.s, LimitError)) else r
  }

  function PerformedAll(r: Course, calls: seq<NativeCall>, limits: Limits): Course
    decreases calls
  {
    if calls == [] then r else PerformedAll(Performed(r, calls[0], limits), calls[1..], limits)
  }

  /** What the interpreter reports: whether the source was read and a runtime made, the native calls
      of the run, and whether it reached its end. */
  datatype Execution = Execution(parsed: bool, created: bool, calls: seq<NativeCall>, succeeded: bool)

  function EndedUnless(s: State, why: Termination): State { if s.termination == Unset then Ended(s, why) else s }

  /** The Book runs. A reason its natives gave is kept; otherwise it is complete if it reached its end
      and a runtime error if not. */
  function Executed(s: State, run: Execution, limits: Limits): Course {
    if !run.parsed then Course(EndedUnless(s, RuntimeError), NOTHING_STAGED)
    else if !run.created then Course(EndedUnless(s.(phase := Phase.Running), RuntimeError), NOTHING_STAGED)
    else
      var r := PerformedAll(Course(s.(phase := Phase.Running), NOTHING_STAGED), run.calls, limits);
      r.(s := EndedUnless(r.s, if run.succeeded then Complete else RuntimeError))
  }

  /** The source was read and run to its end, and no native had a reason to end the run. */
  predicate RunsToEnd(s: State, run: Execution, limits: Limits) {
    && run.parsed && run.created && run.succeeded
    && PerformedAll(Course(s.(phase := Phase.Running), NOTHING_STAGED), run.calls, limits).s.termination == Unset
  }

  /** A complete run that has touched the network must have evidence of it. */
  function Evidenced(s: State, readings: seq<Reading>): State {
    if s.termination != Complete || s.networkActions == 0 then s
    else
      var d := Drained(s, readings);
      if (!d.ok || d.s.packets == 0) && d.s.termination == Complete then Ended(d.s, CaptureSetupError) else d.s
  }

  /** What the world gives a run beyond its native calls. */
  datatype Circumstances = Circumstances(
    started: bool,
    remaining: int,
    lastReadings: seq<Reading>,
    afterStream: seq<Reading>,
    beforeDatagram: seq<Reading>,
    stamped: bool,
    safe: bool,
    tags: nat -> string,
    luck: Luck)

  function Stamped(s: State, stamped: bool): State {
    if !stamped && s.termination == Complete then Ended(s, OutputCommitError) else s
  }

  /** A whole run up to the decision whether to publish. */
  function Finished(s: State, run: Execution, c: Circumstances, limits: Limits): Course {
    if !Allowed(s, c.remaining) then Course(Closed(Ended(s, CaptureSetupError), c.afterStream, c.beforeDatagram), NOTHING_STAGED)
    else
      var r := Executed(s, run, limits);
      r.(s := Stamped(Closed(Evidenced(r.s, c.lastReadings), c.afterStream, c.beforeDatagram), c.stamped))
  }

  // ---- what every run keeps ----------------------------------------------------------------

  /** The session is sound, the stage can be written, and no native has declared the run complete. */
  predicate Healthy(r: Course, limits: Limits) {
    Sound(r.s) && Holding(r.t, limits) && r.s.termination != Complete && r.s.phase != Finalized
  }

  lemma EndedSound(s: State, why: Termination)
    requires Sound(s) && why != Unset && (why == Complete ==> s.termination == Complete)
    ensures Fine(s, Ended(s, why))
  {
    hide EvidenceBytes, LinkOf;
  }

  /** Only the end of the source makes a run complete: no native call does, and none takes back a
      reason, evidence or a record. */
  lemma PerformedKeeps(r: Course, call: NativeCall, limits: Limits)
    requires Healthy(r, limits)
    ensures var q := Performed(r, call, limits); Healthy(q, limits) && Fine(r.s, q.s) && r.t.records <= q.t.records
  {
    hide Sound, Onward, Fine, Holding, DrainedFrom, Emitted, TcpOpened, UdpOpened, Transferred;
    FineSelf(r.s);
    match call {
      case CallOpenTcp(to, remaining, later, reachable, connected, readings) =>
        TcpOpenedFine(r.s, to, remaining, later, reachable, connected, readings);
      case CallOpenUdp(to, remaining, reachable, connected) => UdpOpenedFine(r.s, to, remaining, reachable, connected);
      case CallTransfer(remaining, later, moved, readings) => TransferredFine(r.s, remaining, later, moved, readings);
      case CallEmit(key, value, color, grants) =>
        EmittedHolds(r.t, Record(key, value, color), limits, grants);
        EndedSound(r.s, LimitError);
      case CallBail => EndedSound(r.s, Bailed);
      case CallDeadline(remaining) => EndedSound(r.s, LimitError);
    }
    FineFacts(r.s, Performed(r, call, limits).s);
  }

  /** Does the drain of these readings give the session a new reason to end? A limit always does, a
      frame that is not taken only if there is none. */
  predicate Overrides(s: State, readings: seq<Reading>) {
    var e := EndingOf(MeterOf(s), readings, DRAIN_LIMIT);
    e.Limited? || (e.Dropped? && s.termination == Unset)
  }

  /** A valid record for which there is a stage, but no place in it. */
  predicate OverLimit(t: Staging, r: Record, limits: Limits, grants: Grants) {
    RecordValid(r, limits) && (t.made || grants.stage) && !Stageable(t.records + [r], limits)
  }

  /** Exactly these native calls change the reason a session has to end: a bail, an emission over a
      limit, a drain that meets a limit, and, if there is no reason yet, a frame that cannot be
      recorded and a deadline. */
  lemma ReasonChanges(r: Course, call: NativeCall, limits: Limits)
    requires Healthy(r, limits)
    ensures Performed(r, call, limits).s.termination != r.s.termination <==>
      match call
      case CallOpenTcp(to, remaining, _, reachable, _, readings) => Acts(r.s, to, remaining, reachable) && Overrides(r.s, readings)
      case CallOpenUdp(_, _, _, _) => false
      case CallTransfer(remaining, _, _, readings) => Allowed(r.s, remaining) && Usable(r.s) && Overrides(r.s, readings)
      case CallEmit(key, value, color, grants) =>
        r.s.termination != LimitError && OverLimit(r.t, Record(key, value, color), limits, grants)
      case CallBail => r.s.termination != Bailed
      case CallDeadline(remaining) => remaining <= 0 && r.s.termination == Unset
  {
    hide Sound, DrainedFrom, EndingOf, RecordValid, Stageable, Bytes;
    match call
    case CallOpenTcp(to, remaining, later, reachable, connected, readings) =>
      if Acts(r.s, to, remaining, reachable) {
        DrainReason(r.s, Acted(r.s.(transport := Tcp, port := to), later).(stream := connected), readings);
      }
    case CallTransfer(remaining, later, moved, readings) =>
      if Allowed(r.s, remaining) && Usable(r.s) { DrainReason(r.s, Acted(r.s, later), readings); }
    case CallEmit(key, value, color, grants) => Output.OneMore(r.t.records, Record(key, value, color), limits);
    case _ =>
  }

  lemma DrainReason(s: State, a: State, readings: seq<Reading>)
    requires a.pcapOpen && a.termination == s.termination != LimitError && MeterOf(a) == MeterOf(s)
    ensures Drained(a, readings).s.termination != s.termination <==> Overrides(s, readings)
  {
    hide DrainedFrom, EndingOf;
    DrainIs(a, readings, 0);
  }

  lemma FineFacts(s: State, t: State)
    requires Fine(s, t)
    ensures Sound(t) && Onward(s, t) && t.phase == s.phase && (t.termination == Complete ==> s.termination == Complete)
    ensures s.termination != Unset ==> t.termination != Unset
    ensures s.packets <= t.packets && s.networkActions <= t.networkActions && t.pcapOpen == s.pcapOpen
  {
  }

  lemma {:induction false} RunKeeps(r: Course, calls: seq<NativeCall>, limits: Limits)
    requires Healthy(r, limits)
    ensures var q := PerformedAll(r, calls, limits); Healthy(q, limits) && Fine(r.s, q.s) && r.t.records <= q.t.records
    decreases calls
  {
    hide Healthy, Fine, Performed;
    if calls == [] {
      assert Fine(r.s, r.s) by {
        SelfHealthy(r, limits);
      }
    } else {
      var q := Performed(r, calls[0], limits);
      PerformedKeeps(r, calls[0], limits);
      RunKeeps(q, calls[1..], limits);
      FineTrans(r.s, q.s, PerformedAll(q, calls[1..], limits).s);
    }
  }

  lemma SelfHealthy(r: Course, limits: Limits)
    requires Healthy(r, limits)
    ensures Fine(r.s, r.s)
  {
    FineSelf(r.s);
  }

  /** A run that is not complete when it is over cannot become complete, and one that is has evidence
      if any of its actions were counted. */
  lemma EvidencedKeeps(s: State, readings: seq<Reading>)
    requires Sound(s)
    ensures var e := Evidenced(s, readings);
      && Fine(s, e) && e.networkActions == s.networkActions && e.acts == s.acts
      && (e.termination == Complete ==> e.networkActions == 0 || e.packets > 0)
  {
    hide Sound, Fine, Drained;
    FineSelf(s);
    if s.termination == Complete && s.networkActions > 0 {
      DrainKeeps(s, readings);
      var d := Drained(s, readings).s;
      FineFacts(s, d);
      EndedSound(d, CaptureSetupError);
      FineTrans(s, d, Ended(d, CaptureSetupError));
    }
  }

  lemma ExecutedKeeps(s: State, run: Execution, limits: Limits)
    requires Sound(s) && s.phase == Capturing && s.termination == Unset
    ensures var r := Executed(s, run, limits);
      && Sound(r.s) && r.s.phase != Finalized && Holding(r.t, limits) && r.s.termination != Unset
      && (r.s.termination == Complete <==> RunsToEnd(s, run, limits))
  {
    hide Sound, Fine, PerformedAll;
    var b := s.(phase := Phase.Running);
    Started(s, limits);
    Begun(s, RuntimeError);
    Begun(b, RuntimeError);
    RunKeeps(Course(b, NOTHING_STAGED), run.calls, limits);
    var r := PerformedAll(Course(b, NOTHING_STAGED), run.calls, limits).s;
    FineFacts(b, r);
    Begun(r, Complete);
    Begun(r, RuntimeError);
  }

  lemma Started(s: State, limits: Limits)
    requires Sound(s) && s.phase == Capturing && s.termination == Unset
    ensures Healthy(Course(s.(phase := Phase.Running), NOTHING_STAGED), limits) && Holding(NOTHING_STAGED, limits)
  {
    hide EvidenceBytes, LinkOf;
  }

  lemma Begun(s: State, why: Termination)
    requires Sound(s) && why != Unset
    ensures Sound(EndedUnless(s, why)) && EndedUnless(s, why).termination != Unset
  {
    hide EvidenceBytes, LinkOf;
  }

  /** Every run ends with a sound, finalized session that has a reason to have ended and a stage that
      can be written. It is complete only if the gate was open, the source was read and run to its
      end, no native had a reason to end it, the scan was noted, and traffic, if any was counted, is
      in evidence. */
  lemma FinishedIsBacked(s: State, run: Execution, c: Circumstances, limits: Limits)
    requires Sound(s) && s.phase == Capturing && s.termination == Unset
    ensures var r := Finished(s, run, c, limits);
      && Sound(r.s) && r.s.phase == Finalized && r.s.termination != Unset && Stageable(r.t.records, limits)
      && (r.s.termination == Complete ==>
            && Allowed(s, c.remaining) && RunsToEnd(s, run, limits) && c.stamped
            && (r.s.networkActions == 0 || r.s.packets > 0))
  {
    hide Sound, Fine, Onward, Executed, Evidenced, Closed, Stageable, RunsToEnd;
    NothingHolds(limits);
    if !Allowed(s, c.remaining) {
      var e := Ended(s, CaptureSetupError);
      EndedSound(s, CaptureSetupError);
      FineFacts(s, e);
      ClosedSound(e, c.afterStream, c.beforeDatagram);
    } else {
      var r := Executed(s, run, limits);
      ExecutedKeeps(s, run, limits);
      HoldsStageable(r.t, limits);
      var e := Evidenced(r.s, c.lastReadings);
      EvidencedKeeps(r.s, c.lastReadings);
      FineFacts(r.s, e);
      var d := Closed(e, c.afterStream, c.beforeDatagram);
      ClosedSound(e, c.afterStream, c.beforeDatagram);
      OnwardFacts(e, d);
      EndedAfter(d);
    }
  }

  /** The session and the stage after some native calls. */
  function Through(s: State, calls: seq<NativeCall>, limits: Limits): Course {
    PerformedAll(Course(s.(phase := Phase.Running), NOTHING_STAGED), calls, limits)
  }

  /** What a complete run leaves in the stage is what its native calls staged. */
  lemma StagedByCalls(s: State, run: Execution, c: Circumstances, limits: Limits)
    requires Sound(s) && s.phase == Capturing && s.termination == Unset && Finished(s, run, c, limits).s.termination == Complete
    ensures run.parsed && run.created && run.succeeded && Through(s, run.calls, limits).s.termination == Unset
    ensures Finished(s, run, c, limits).t == Through(s, run.calls, limits).t
  {
    hide Sound, PerformedAll, Evidenced, Closed, Stamped, Allowed;
    FinishedIsBacked(s, run, c, limits);
  }

  lemma NothingHolds(limits: Limits)
    ensures Stageable(NOTHING_STAGED.records, limits)
  {
  }

  lemma HoldsStageable(t: Staging, limits: Limits)
    requires Holding(t, limits)
    ensures Stageable(t.records, limits)
  {
  }

  lemma OnwardFacts(s: State, t: State)
    requires Onward(s, t)
    ensures s.packets <= t.packets && (t.termination == Complete ==> s.termination == Complete)
  {
  }

  lemma EndedAfter(s: State)
    requires Sound(s)
    ensures Sound(Ended(s, OutputCommitError)) && Ended(s, OutputCommitError).phase == s.phase
  {
    hide EvidenceBytes, LinkOf;
  }

  // ---- what is in evidence -----------------------------------------------------------------

  /** The target's frames that the drain of a native call reads. */
  function CallHeard(s: State, call: NativeCall): seq<Frame> {
    match call
    case CallOpenTcp(to, remaining, _, reachable, _, readings) => if Acts(s, to, remaining, reachable) then Heard(readings) else []
    case CallTransfer(remaining, _, _, readings) => if Allowed(s, remaining) && Usable(s) then Heard(readings) else []
    case _ => []
  }

  function CallsHeard(r: Course, calls: seq<NativeCall>, limits: Limits): seq<Frame>
    decreases calls
  {
    if calls == [] then [] else CallHeard(r.s, calls[0]) + CallsHeard(Performed(r, calls[0], limits), calls[1..], limits)
  }

  /** A call after which the session has no reason to end has kept all it has heard. */
  lemma CallKeeps(r: Course, call: NativeCall, limits: Limits)
    requires Healthy(r, limits) && Performed(r, call, limits).s.termination == Unset
    ensures var q, fs := Performed(r, call, limits).s, CallHeard(r.s, call);
      q.frames == r.s.frames + fs && q.file == r.s.file + WholeItems(fs)
  {
    hide Sound, Drained, Heard, WholeItems, Emitted;
    match call
    case CallOpenTcp(to, remaining, later, reachable, connected, readings) =>
      NothingHeard();
      if Acts(r.s, to, remaining, reachable) {
        AllKept(Acted(r.s.(transport := Tcp, port := to), later).(stream := connected), readings);
      }
    case CallTransfer(remaining, later, moved, readings) =>
      NothingHeard();
      if Allowed(r.s, remaining) && Usable(r.s) { AllKept(Acted(r.s, later), readings); }
    case _ => NothingHeard();
  }

  lemma NothingHeard()
    ensures WholeItems([]) == []
  {
  }

  lemma WholeItemsJoin(a: seq<Frame>, b: seq<Frame>)
    ensures WholeItems(a + b) == WholeItems(a) + WholeItems(b)
  {
  }

  lemma {:induction false} RunKeepsHeard(r: Course, calls: seq<NativeCall>, limits: Limits)
    requires Healthy(r, limits) && PerformedAll(r, calls, limits).s.termination == Unset
    ensures var q, fs := PerformedAll(r, calls, limits).s, CallsHeard(r, calls, limits);
      q.frames == r.s.frames + fs && q.file == r.s.file + WholeItems(fs)
    decreases calls
  {
    hide Healthy, Fine, Performed, CallHeard, WholeItems;
    NothingHeard();
    if calls != [] {
      var q := Performed(r, calls[0], limits);
      PerformedKeeps(r, calls[0], limits);
      RunKeeps(q, calls[1..], limits);
      FineFacts(q.s, PerformedAll(q, calls[1..], limits).s);
      CallKeeps(r, calls[0], limits);
      RunKeepsHeard(q, calls[1..], limits);
      WholeItemsJoin(CallHeard(r.s, calls[0]), CallsHeard(q, calls[1..], limits));
    }
  }

  /** The session when a complete run closes its transport. */
  function AtClosing(s: State, run: Execution, c: Circumstances, limits: Limits): State {
    Evidenced(Ended(Through(s, run.calls, limits).s, Complete), c.lastReadings)
  }

  /** The target's frames that a complete run has read before that. */
  function RunHeard(s: State, run: Execution, c: Circumstances, limits: Limits): seq<Frame> {
    CallsHeard(Course(s.(phase := Phase.Running), NOTHING_STAGED), run.calls, limits)
    + if Through(s, run.calls, limits).s.networkActions > 0 then Heard(c.lastReadings) else []
  }

  /** Evidence that leaves a run complete is all that the drain for it has heard. */
  lemma EvidenceKept(s: State, readings: seq<Reading>)
    requires Sound(s) && s.pcapOpen && s.termination == Complete && Evidenced(s, readings).termination == Complete
    ensures var e, fs := Evidenced(s, readings), if s.networkActions > 0 then Heard(readings) else [];
      Fine(s, e) && e.frames == s.frames + fs && e.file == s.file + WholeItems(fs)
  {
    hide Sound, Fine, Drained, Heard, WholeItems;
    NothingHeard();
    EvidencedKeeps(s, readings);
    if s.networkActions > 0 { AllKept(s, readings); }
  }

  /** A run that is complete in the end was complete when its transport was closed. */
  lemma CompleteBefore(s: State, run: Execution, c: Circumstances, limits: Limits)
    requires Sound(s) && s.phase == Capturing && s.termination == Unset && Finished(s, run, c, limits).s.termination == Complete
    ensures var t, e := Through(s, run.calls, limits).s, AtClosing(s, run, c, limits);
      && Sound(Ended(t, Complete)) && t.pcapOpen && t.termination == Unset && e.termination == Complete
      && Fine(Ended(t, Complete), e) && e.phase != Finalized && Finished(s, run, c, limits).s == Closed(e, c.afterStream, c.beforeDatagram)
  {
    hide Sound, Fine, PerformedAll, Allowed, Closed, Evidenced;
    FinishedIsBacked(s, run, c, limits);
    StagedByCalls(s, run, c, limits);
    OpenIfAllowed(s, c.remaining);
    var b := Course(s.(phase := Phase.Running), NOTHING_STAGED);
    Started(s, limits);
    RunKeeps(b, run.calls, limits);
    var t := PerformedAll(b, run.calls, limits).s;
    FineFacts(b.s, t);
    Begun(t, Complete);
    EvidencedKeeps(Ended(t, Complete), c.lastReadings);
    var e := AtClosing(s, run, c, limits);
    FineFacts(Ended(t, Complete), e);
    ClosedSound(e, c.afterStream, c.beforeDatagram);
    OnwardFacts(e, Closed(e, c.afterStream, c.beforeDatagram));
  }

  lemma OpenIfAllowed(s: State, remaining: int)
    ensures Allowed(s, remaining) ==> s.pcapOpen
  {
  }

  /** A complete run has in evidence every frame of the target that it has read before its transport
      was closed, and of those that closing reads exactly the ones before the first that the file
      does not take; a part of that one can be at the end of the file. */
  lemma CompleteEvidence(s: State, run: Execution, c: Circumstances, limits: Limits)
    requires Sound(s) && s.phase == Capturing && s.termination == Unset && Finished(s, run, c, limits).s.termination == Complete
    ensures var r, e := Finished(s, run, c, limits).s, AtClosing(s, run, c, limits);
      var heard, last := RunHeard(s, run, c, limits), LastHeard(e, c.afterStream, c.beforeDatagram);
      && e.frames == s.frames + heard
      && r.frames == s.frames + heard + last[..Kept(MeterOf(e), last)]
      && (r.frames == s.frames + heard + last <==> Kept(MeterOf(e), last) == |last|)
      && r.file == s.file + WholeItems(heard) + Laid(MeterOf(e), last)
  {
    hide Sound, Fine, PerformedAll, Heard, Closed, Kept, Laid, LastHeard, WholeItems, CallsHeard, Evidenced, Finished;
    CompleteBefore(s, run, c, limits);
    var b := Course(s.(phase := Phase.Running), NOTHING_STAGED);
    Started(s, limits);
    RunKeepsHeard(b, run.calls, limits);
    var t := Through(s, run.calls, limits).s;
    EvidenceKept(Ended(t, Complete), c.lastReadings);
    WholeItemsJoin(CallsHeard(b, run.calls, limits), if t.networkActions > 0 then Heard(c.lastReadings) else []);
    var e := AtClosing(s, run, c, limits);
    FineFacts(Ended(t, Complete), e);
    ClosedIs(e, c.afterStream, c.beforeDatagram);
    var last := LastHeard(e, c.afterStream, c.beforeDatagram);
    if Kept(MeterOf(e), last) == |last| { assert last[..|last|] == last; }
  }

  /** A run of one counted action, whose answer is in evidence, and one frame more when its stream is
      closed. */
  function ClosingRun(last: Frame): Course {
    var first := Frame(false, 1, true, true, 17);
    var run := Execution(true, true, [CallOpenTcp(80, 1, 1, true, true, [Captured(first)])], true);
    var c := Circumstances(true, 1, [], [Captured(last)], [], true, true, k => "", Luck(k => true, k => k, true, true, true));
    Finished(Prepared(Budget(0, 0), 0).value, run, c, Limits(1, 1))
  }

  /** If that frame is written in part, or is of the other link type, the run is complete without it. */
  lemma LostExample()
    ensures var r := ClosingRun(Frame(false, 1, true, true, 5)).s;
      && r.termination == Complete && r.networkActions == 1 && r.packets == 1
      && r.file == [Whole(Frame(false, 1, true, true, 17)), Torn(5)]
    ensures var r := ClosingRun(Frame(true, 1, true, true, 17)).s;
      && r.termination == Complete && r.networkActions == 1 && r.packets == 1 && r.file == [Whole(Frame(false, 1, true, true, 17))]
  {
    OneAnswer();
    LastFrame(Frame(false, 1, true, true, 5));
    LastFrame(Frame(true, 1, true, true, 17));
  }

  const ANSWERED: State :=
    State(Budget(0, 0), Phase.Running, Unset, true, true, ETHERNET, 1, 41, 41, 1, Tcp, 80, true, false, 0,
          [Frame(false, 1, true, true, 17)], [Whole(Frame(false, 1, true, true, 17))], 1)

  lemma OneAnswer()
    ensures var s, first := Prepared(Budget(0, 0), 0).value, Frame(false, 1, true, true, 17);
      Through(s, [CallOpenTcp(80, 1, 1, true, true, [Captured(first)])], Limits(1, 1)) == Course(ANSWERED, NOTHING_STAGED)
  {
    var s, first := Prepared(Budget(0, 0), 0).value, Frame(false, 1, true, true, 17);
    var call := CallOpenTcp(80, 1, 1, true, true, [Captured(first)]);
    var b := s.(phase := Phase.Running, transport := Tcp, port := 80, networkActions := 1, stream := true, acts := 1);
    assert Recorded(b, first) == Session.Outcome(true, ANSWERED);
    assert [Captured(first)][1..] == [];
    assert DrainedFrom(b, [Captured(first)], 0) == DrainedFrom(ANSWERED, [], 1) == Session.Outcome(true, ANSWERED);
    var r := Course(s.(phase := Phase.Running), NOTHING_STAGED);
    assert Acted(r.s.(transport := Tcp, port := 80), 1).(stream := true) == b;
    assert Performed(r, call, Limits(1, 1)) == Course(ANSWERED, NOTHING_STAGED);
    assert [call][1..] == [];
    assert PerformedAll(r, [call], Limits(1, 1)) == PerformedAll(Course(ANSWERED, NOTHING_STAGED), [], Limits(1, 1));
  }

  lemma LastFrame(last: Frame)
    requires last == Frame(false, 1, true, true, 5) || last == Frame(true, 1, true, true, 17)
    ensures ClosingRun(last).s == Sealed(Recorded(ANSWERED.(termination := Complete, stream := false), last).s)
  {
    hide Recorded, Performed, PerformedAll;
    OneAnswer();
    var s, done := Prepared(Budget(0, 0), 0).value, ANSWERED.(termination := Complete);
    assert Through(s, [CallOpenTcp(80, 1, 1, true, true, [Captured(Frame(false, 1, true, true, 17))])], Limits(1, 1)).s == ANSWERED;
    assert Evidenced(done, []) == done;
    var t := done.(stream := false);
    LastRefused(last);
    OneLeft(t, last);
    assert StreamClosed(done, [Captured(last)]) == Recorded(t, last).s;
    assert Closed(done, [Captured(last)], []) == Sealed(Recorded(t, last).s);
    assert EndedUnless(ANSWERED, Complete) == done;
  }

  lemma LastRefused(last: Frame)
    requires last == Frame(false, 1, true, true, 5) || last == Frame(true, 1, true, true, 17)
    ensures var o := Recorded(ANSWERED.(termination := Complete, stream := false), last);
      !o.ok && o.s.termination == Complete && !o.s.datagram
  {
  }

  lemma OneLeft(s: State, last: Frame)
    requires s.pcapOpen && s.termination == Complete && last.matches
    requires !Recorded(s, last).ok && Recorded(s, last).s.termination == Complete
    ensures Drained(s, [Captured(last)]).s == Recorded(s, last).s
  {
    hide Recorded;
    assert [Captured(last)][0] == Captured(last);
  }

  // ---- actions that were not counted -------------------------------------------------------

  /** Is the transport asked to act, with no time left at the second look? */
  predicate ActsLate(s: State, call: NativeCall) {
    match call
    case CallOpenTcp(to, remaining, later, reachable, _, _) => Acts(s, to, remaining, reachable) && later <= 0
    case CallTransfer(remaining, later, _, _) => Allowed(s, remaining) && Usable(s) && later <= 0
    case _ => false
  }

  function LateActions(r: Course, calls: seq<NativeCall>, limits: Limits): nat
    decreases calls
  {
    if calls == [] then 0
    else (if ActsLate(r.s, calls[0]) then 1 else 0) + LateActions(Performed(r, calls[0], limits), calls[1..], limits)
  }

  lemma CallCounts(r: Course, call: NativeCall, limits: Limits)
    requires Healthy(r, limits)
    ensures Uncounted(Performed(r, call, limits).s) == Uncounted(r.s) + if ActsLate(r.s, call) then 1 else 0
  {
    hide Sound, Drained, Connected, Acted, Allowed, Usable;
    match call
    case CallOpenTcp(to, remaining, later, reachable, connected, readings) =>
      ActionIsCounted(r.s, to, remaining, later, reachable, connected, false, readings);
    case CallTransfer(remaining, later, moved, readings) =>
      ActionIsCounted(r.s, 0, remaining, later, false, false, moved, readings);
    case _ =>
  }

  /** Over a whole run, the actions that were not counted are exactly those for which the time ran
      out between the two looks at the gate. */
  lemma {:induction false} RunCounts(r: Course, calls: seq<NativeCall>, limits: Limits)
    requires Healthy(r, limits)
    ensures Uncounted(PerformedAll(r, calls, limits).s) == Uncounted(r.s) + LateActions(r, calls, limits)
    decreases calls
  {
    hide Healthy, Performed, ActsLate, Fine;
    if calls != [] {
      CallCounts(r, calls[0], limits);
      PerformedKeeps(r, calls[0], limits);
      RunCounts(Performed(r, calls[0], limits), calls[1..], limits);
    }
  }

  /** Such an action can go without evidence: a run whose only action is late is complete with an
      empty evidence file. */
  lemma LateExample()
    ensures var s := Prepared(Budget(0, 0), 0).value;
      var run := Execution(true, true, [CallOpenTcp(80, 1, 0, true, true, [])], true);
      var c := Circumstances(true, 1, [], [], [], true, true, k => "", Luck(k => true, k => k, true, true, true));
      var r := Finished(s, run, c, Limits(1, 1)).s;
      r.termination == Complete && r.acts == 1 && r.networkActions == 0 && r.packets == 0
  {
    var s := Prepared(Budget(0, 0), 0).value;
    var b := Course(s.(phase := Phase.Running), NOTHING_STAGED);
    var call := CallOpenTcp(80, 1, 0, true, true, []);
    var r := Performed(b, call, Limits(1, 1));
    assert r.s == b.s.(transport := Tcp, port := 80, stream := true, acts := 1);
    assert [call][1..] == [];
    assert PerformedAll(b, [call], Limits(1, 1)) == r;
  }

  // ---- the run as it happens ---------------------------------------------------------------

  ghost predicate Runs(session: BookSession, stage: Stage, r: Course)
    reads session, stage
  {
    session.Now() == r.s && stage.Now() == r.t
  }

  method Perform(session: BookSession, stage: Stage, call: NativeCall)
    modifies session, stage
    ensures Runs(session, stage, Performed(old(Course(session.Now(), stage.Now())), call, stage.limits))
  {
    hide TcpOpened, UdpOpened, Transferred, Emitted;
    match call
    case CallOpenTcp(to, remaining, later, reachable, connected, readings) =>
      var ok := session.OpenTcp(to, remaining, later, reachable, connected, readings);
    case CallOpenUdp(to, remaining, reachable, connected) =>
      var ok := session.OpenUdp(to, remaining, reachable, connected);
    case CallTransfer(remaining, later, moved, readings) =>
      var ok := session.Transfer(remaining, later, moved, readings);
    case CallEmit(key, value, color, grants) =>
      var status := stage.Emit(key, value, color, grants);
      if status == LimitReached {
        session.termination := LimitError;
      }
    case CallBail =>
      session.termination := Bailed;
    case CallDeadline(remaining) =>
      if remaining <= 0 && session.termination == Unset {
        session.termination := LimitError;
      }
  }

  method EndUnless(session: BookSession, why: Termination)
    modifies session`termination
    ensures session.Now() == EndedUnless(old(session.Now()), why)
  {
    if session.termination == Unset {
      session.termination := why;
    }
  }

  method PerformAll(session: BookSession, stage: Stage, calls: seq<NativeCall>)
    modifies session, stage
    ensures Runs(session, stage, PerformedAll(old(Course(session.Now(), stage.Now())), calls, stage.limits))
  {
    hide Performed;
    var i := 0;
    assert calls[0..] == calls;
    while i < |calls|
      invariant i <= |calls|
      invariant PerformedAll(Course(session.Now(), stage.Now()), calls[i..], stage.limits)
             == PerformedAll(old(Course(session.Now(), stage.Now())), calls, stage.limits)
    {
      assert calls[i..][0] == calls[i] && calls[i..][1..] == calls[i + 1..];
      Perform(session, stage, calls[i]);
      i := i + 1;
    }
    assert calls[i..] == [];
  }

  /** Run the Book. */
  method Execute(session: BookSession, stage: Stage, run: Execution) returns (normal: bool)
    requires stage.Now() == NOTHING_STAGED
    modifies session, stage
    ensures Runs(session, stage, Executed(old(session.Now()), run, stage.limits))
    ensures normal == RunsToEnd(old(session.Now()), run, stage.limits)
  {
    hide PerformedAll;
    normal := false;
    if !run.parsed {
      EndUnless(session, RuntimeError);
      return;
    }
    session.phase := Phase.Running;
    if !run.created {
      EndUnless(session, RuntimeError);
      return;
    }
    PerformAll(session, stage, run.calls);
    normal := run.succeeded && session.termination == Unset;
    EndUnless(session, if run.succeeded then Complete else RuntimeError);
  }

  /** A complete run that has touched the network has evidence of it. */
  method DemandEvidence(session: BookSession, readings: seq<Reading>)
    modifies session
    ensures session.Now() == Evidenced(old(session.Now()), readings)
  {
    hide Drained;
    if session.termination != Complete || session.networkActions == 0 { return; }
    var ok := session.Drain(readings);
    if (!ok || session.packets == 0) && session.termination == Complete {
      session.termination := CaptureSetupError;
    }
  }

  /** The end of a run whose gate was open: evidence, finalization, the note of the scan. */
  method Finish(session: BookSession, stage: Stage, run: Execution, c: Circumstances)
    requires stage.Now() == NOTHING_STAGED
    modifies session, stage
    ensures Runs(session, stage, Finished(old(session.Now()), run, c, stage.limits))
  {
    hide Executed, Evidenced, Closed, Allowed, RunsToEnd;
    var open := session.NetworkAllowed(c.remaining);
    if !open {
      session.termination := CaptureSetupError;
      session.Finalize(c.afterStream, c.beforeDatagram);
      return;
    }
    var executed := Execute(session, stage, run);
    DemandEvidence(session, c.lastReadings);
    session.Finalize(c.afterStream, c.beforeDatagram);
    if !c.stamped && session.termination == Complete {
      session.termination := OutputCommitError;
    }
  }

  /** For a Book with a valid name nothing but the disk can keep the commit of a run from going
      through: whatever its natives have staged can be written. */
  lemma OnlyTheDisk(budget: Budget, programBytes: nat, limits: Limits, name: string, final: string, d: Disk, run: Execution,
                    c: Circumstances)
    requires Persist.NameValid(name) && Prepared(budget, programBytes).Some?
    ensures var rs := Finished(Prepared(budget, programBytes).value, run, c, limits).t.records;
      Commits(d, final, name, rs, limits, c.tags, c.luck) <==> DiskAllows(d, final, name, rs, c.tags, c.luck)
  {
    hide Sound, Finished, Commits, DiskAllows, Persist.NameValid, Stageable;
    PreparedSound(budget, programBytes);
    var s := Prepared(budget, programBytes).value;
    FinishedIsBacked(s, run, c, limits);
    StagedCommits(d, final, name, Finished(s, run, c, limits).t.records, limits, c.tags, c.luck);
  }

  /** Run one Book against one target. Its file is replaced exactly if the run is complete and the
      commit goes through; at no moment is it anything but the old file or the complete new one. For a valid name,
      a complete run in a safe directory is published exactly if the disk allows it. */
  method RunOne(budget: Budget, programBytes: nat, limits: Limits, name: string, final: string, files: Files, run: Execution,
                c: Circumstances)
    returns (normal: bool, published: bool)
    modifies files
    ensures !c.started || Prepared(budget, programBytes).None? ==> !normal && !published && files.disk == old(files.disk)
    ensures c.started && Prepared(budget, programBytes).Some? ==>
      var r := Finished(Prepared(budget, programBytes).value, run, c, limits);
      && published == (r.s.termination == Complete && c.safe
                       && Commits(old(files.disk), final, name, r.t.records, limits, c.tags, c.luck))
      && Committed(old(files.disk), files.disk, published, final, FirstTemp(old(files.disk), final, c.tags, c.luck.opens, 0),
                 Persist.Serialized(name, r.t.records), c.luck.unlinks)
      && (Persist.NameValid(name) && r.s.termination == Complete && c.safe ==>
            (published <==> DiskAllows(old(files.disk), final, name, r.t.records, c.tags, c.luck)))
      && normal == (published || r.s.termination == Bailed)
      && |old(files.history)| <= |files.history|
      && forall k :: |old(files.history)| <= k < |files.history| ==>
           OldOrNew(files.history[k], old(files.disk), final, Persist.Serialized(name, r.t.records))
  {
    hide Finished, OldOrNew, Committed, Commits, DiskAllows, Persist.NameValid, Persist.Serialized, FirstTemp;
    normal, published := false, false;
    if !c.started || Prepared(budget, programBytes).None? { return; }
    if Persist.NameValid(name) {
      OnlyTheDisk(budget, programBytes, limits, name, final, files.disk, run, c);
    }
    var session := new BookSession(budget, programBytes);
    var stage := new Stage(limits);
    Finish(session, stage, run, c);
    AsBefore(files.disk, FirstTemp(files.disk, final, c.tags, c.luck.opens, 0), final, Persist.Serialized(name, stage.records),
             c.luck.unlinks);
    if session.termination == Complete {
      published := CommitOutput(files, final, name, stage.records, limits, true, c.safe, c.tags, c.luck);
      normal := published;
      if !published {
        session.termination := OutputCommitError;
      }
    } else {
      normal := session.termination == Bailed;
    }
  }

  /** What a published file says: the run was complete and its counted traffic is in evidence, and
      the file under the final name is read back as the Book's name and exactly the staged records. */
  lemma PublishedIsBacked(budget: Budget, programBytes: nat, limits: Limits, name: string, final: string, before: Disk, after: Disk,
                          run: Execution, c: Circumstances)
    requires Persist.NameValid(name) && Prepared(budget, programBytes).Some?
    requires var r := Finished(Prepared(budget, programBytes).value, run, c, limits);
      r.s.termination == Complete && after == before[final := Persist.Serialized(name, r.t.records)]
    ensures var s := Prepared(budget, programBytes).value;
      var r := Finished(s, run, c, limits);
      && Sound(r.s) && r.s.phase == Finalized && RunsToEnd(s, run, limits) && c.stamped
      && (r.s.networkActions == 0 || r.s.packets > 0)
      && Persist.IsBytes(after[final]) && |after[final]| <= Persist.FileLimit(limits)
      && Persist.ReadOut(after[final], name + ".out", limits) == Some(Persist.Artifact(name, r.t.records))
  {
    hide Sound, Finished, Persist.Serialized, Persist.ReadOut, Persist.NameValid, RunsToEnd, Stageable;
    var s := Prepared(budget, programBytes).value;
    PreparedSound(budget, programBytes);
    FinishedIsBacked(s, run, c, limits);
    var rs := Finished(s, run, c, limits).t.records;
    Persist.OutRoundTrip(name, rs, limits);
    Persist.StagedFits(name, rs, limits);
  }
}

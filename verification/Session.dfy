/** The capture session of one Book run: a gate that must be open for traffic, the evidence file that
    records it, and the reason the run ended. */
module Session {
  import opened Syntax

  const HEADER_BYTES: nat := 24
  const PACKET_HEADER_BYTES: nat := 16
  const DRAIN_LIMIT: nat := 4096
  const ETHERNET: nat := 1
  const RAW_IPV4: nat := 101

  datatype Transport = NoTransport | Tcp | Udp

  datatype Phase = Created | Capturing | Running | Closing | Finalized

  datatype Termination =
    | Unset | Complete | Bailed | RuntimeError | TransportError | LimitError | Interrupted | CaptureSetupError
    | OutputCommitError

  /** A captured frame: how it was captured, how long it is, whether it belongs to the target's
      traffic, whether the evidence file takes a new link type for it, and how many bytes of its
      record the file takes. */
  datatype Frame = Frame(local: bool, length: nat, matches: bool, relinks: bool, written: nat)

  /** What follows the header of the evidence file: records, and what was written of a record before
      the writing failed. */
  datatype Item = Whole(frame: Frame) | Torn(bytes: nat)

  /** What one read of the capture device gives: nothing more, a failure of the device or for lack of
      memory to read into, or a frame. */
  datatype Reading = Quiet | Trouble | Captured(frame: Frame)

  function LinkOf(f: Frame): nat { if f.local then RAW_IPV4 else ETHERNET }

  function RecordBytes(f: Frame): nat { PACKET_HEADER_BYTES + f.length }

  function EvidenceBytes(fs: seq<Frame>): nat {
    if fs == [] then 0 else EvidenceBytes(fs[..|fs| - 1]) + RecordBytes(fs[|fs| - 1])
  }

  /** Limits on evidence, per session and for the whole program; 0 is no limit. */
  datatype Budget = Budget(session: nat, total: nat)

  /** The complete records of a file. */
  function Wholes(file: seq<Item>): seq<Frame> {
    if file == [] then []
    else Wholes(file[..|file| - 1]) + if file[|file| - 1].Whole? then [file[|file| - 1].frame] else []
  }

  /** What a session knows of itself, what earlier sessions wrote, the packets that are in its
      evidence file, all that is in it, and how often its transport has been asked to act. */
  datatype State = State(
    budget: Budget,
    phase: Phase,
    termination: Termination,
    captureActive: bool,
    pcapOpen: bool,
    linktype: nat,
    packets: nat,
    bytes: nat,
    programBytes: nat,
    networkActions: nat,
    transport: Transport,
    port: nat,
    stream: bool,
    datagram: bool,
    earlier: nat,
    frames: seq<Frame>,
    file: seq<Item>,
    acts: nat)

  datatype Outcome = Outcome(ok: bool, s: State)

  // ---- what each operation does ------------------------------------------------------------

  /** A session whose evidence file has been created and has its header, if the limits allow that. */
  function Prepared(budget: Budget, programBytes: nat): Option<State> {
    if (budget.session > 0 && HEADER_BYTES > budget.session) || (budget.total > 0 && programBytes + HEADER_BYTES > budget.total)
    then None
    else
      Some(State(budget, Capturing, Unset, true, true, ETHERNET, 0, HEADER_BYTES, programBytes + HEADER_BYTES, 0, NoTransport, 0,
                 false, false, programBytes, [], [], 0))
  }

  /** May the Book put traffic on the wire, with this much of its time left? */
  predicate Allowed(s: State, remaining: int) {
    s.captureActive && s.pcapOpen && remaining > 0 && s.termination != LimitError && (s.phase == Capturing || s.phase == Running)
  }

  predicate WithinLimits(s: State, addition: nat) {
    && (s.budget.session > 0 ==> s.bytes + addition <= s.budget.session)
    && (s.budget.total > 0 ==> s.programBytes + addition <= s.budget.total)
  }

  /** The file's link type may change only before its first packet. */
  function LinkSet(s: State, link: nat, writable: bool): Outcome {
    if s.linktype == link then Outcome(true, s)
    else if s.packets != 0 || !writable then Outcome(false, s)
    else Outcome(true, s.(linktype := link))
  }

  function Stopped(s: State, why: Termination): State { s.(termination := why, captureActive := false) }

  /** A record whose writing fails leaves behind what was written of it. */
  function Left(s: State, f: Frame): State { if f.written == 0 then s else s.(file := s.file + [Torn(f.written)]) }

  /** One packet more in the evidence. */
  function Recorded(s: State, f: Frame): Outcome {
    if !s.pcapOpen || f.length == 0 then Outcome(false, s)
    else
      var l := LinkSet(s, LinkOf(f), f.relinks);
      if !l.ok then l
      else if !WithinLimits(l.s, RecordBytes(f)) then Outcome(false, Stopped(l.s, LimitError))
      else if f.written < RecordBytes(f) then Outcome(false, Left(l.s, f))
      else Outcome(true, Grown(l.s, f))
  }

  function Grown(s: State, f: Frame): State {
    s.(packets := s.packets + 1, bytes := s.bytes + RecordBytes(f), programBytes := s.programBytes + RecordBytes(f),
       frames := s.frames + [f], file := s.file + [Whole(f)])
  }

  /** What the device still gives, after so many frames, is recorded if it belongs to the target. */
  function DrainedFrom(s: State, readings: seq<Reading>, taken: nat): (o: Outcome)
    decreases readings
  {
    if taken >= DRAIN_LIMIT then Outcome(false, Stopped(s, LimitError))
    else if readings == [] || readings[0].Quiet? then Outcome(true, s)
    else if readings[0].Trouble? then Outcome(false, s)
    else if !readings[0].frame.matches then DrainedFrom(s, readings[1..], taken + 1)
    else
      var o := Recorded(s, readings[0].frame);
      if o.ok then DrainedFrom(o.s, readings[1..], taken + 1)
      else Outcome(false, if o.s.termination == Unset then Stopped(o.s, CaptureSetupError) else o.s)
  }

  function Drained(s: State, readings: seq<Reading>): Outcome {
    if !s.pcapOpen || s.termination == LimitError then Outcome(false, s) else DrainedFrom(s, readings, 0)
  }

  /** An action is counted if the gate is still open. */
  function Noted(s: State, remaining: int): State {
    if Allowed(s, remaining) then s.(networkActions := s.networkActions + 1) else s
  }

  /** The transport acts: the action is noted, with this much time left by then, and then done. */
  function Acted(s: State, later: int): State { var n := Noted(s, later); n.(acts := n.acts + 1) }

  /** Open or reuse the one TCP stream of the session. */
  function TcpOpened(s: State, to: nat, remaining: int, later: int, reachable: bool, connected: bool, readings: seq<Reading>): Outcome {
    if to == 0 || !Allowed(s, remaining) || s.datagram then Outcome(false, s)
    else if s.stream then Outcome(s.transport == Tcp && s.port == to, s)
    else if !reachable then Outcome(false, s)
    else Connected(s, to, later, connected, readings)
  }

  /** The transport is asked for a stream, and the evidence of that is kept. */
  function Connected(s: State, to: nat, later: int, connected: bool, readings: seq<Reading>): Outcome {
    var d := Drained(Acted(s.(transport := Tcp, port := to), later).(stream := connected), readings);
    if d.ok then Outcome(connected, d.s) else Outcome(false, d.s.(stream := false))
  }

  /** Open or reuse the one UDP socket of the session, which sends nothing by itself. */
  function UdpOpened(s: State, to: nat, remaining: int, reachable: bool, connected: bool): Outcome {
    if to == 0 || !Allowed(s, remaining) || s.stream then Outcome(false, s)
    else if s.datagram then Outcome(s.transport == Udp && s.port == to, s)
    else if !reachable then Outcome(false, s)
    else Outcome(connected, s.(transport := Udp, port := to, datagram := connected))
  }

  predicate Usable(s: State) { if s.transport == Tcp then s.stream else s.transport == Udp && s.datagram }

  /** Read or write through the open transport. */
  function Transferred(s: State, remaining: int, later: int, moved: bool, readings: seq<Reading>): Outcome {
    if !Allowed(s, remaining) || !Usable(s) then Outcome(false, s)
    else
      var d := Drained(Acted(s, later), readings);
      Outcome(d.ok && moved, d.s)
  }

  /** Collect evidence a last time, unless a limit has been reached. */
  function Collected(s: State, readings: seq<Reading>): State {
    if s.termination == LimitError then s else Drained(s, readings).s
  }

  function StreamClosed(s: State, readings: seq<Reading>): State {
    if s.stream then Collected(s.(stream := false), readings) else s
  }

  function DatagramClosed(s: State, readings: seq<Reading>): State {
    if s.datagram then Collected(s, readings).(datagram := false) else s
  }

  /** The evidence file is closed, for the reason given or else because the run was interrupted. */
  function Sealed(s: State): State {
    s.(pcapOpen := false, captureActive := false, phase := Finalized,
       termination := if s.termination == Unset then Interrupted else s.termination)
  }

  /** The transport is closed, the last evidence collected, and the evidence file closed. */
  function Closed(s: State, afterStream: seq<Reading>, beforeDatagram: seq<Reading>): State {
    if s.phase == Finalized then s else Sealed(DatagramClosed(StreamClosed(s, afterStream), beforeDatagram))
  }

  // ---- what every operation keeps ----------------------------------------------------------

  /** A reason, once given, is never taken back, and a run that ended for another reason never
      becomes complete. */
  predicate Keeps(before: Termination, after: Termination) {
    (before != Unset ==> after != Unset) && (after == Complete ==> before == Complete)
  }

  /** The counters say what is in the evidence file, which has one link type and is within its
      limits; there is one transport at most; a finalized session is closed. */
  predicate Sound(s: State) {
    && Wholes(s.file) == s.frames && !(s.stream && s.datagram)
    && s.packets == |s.frames| && s.bytes == HEADER_BYTES + EvidenceBytes(s.frames) && s.programBytes == s.earlier + s.bytes
    && (forall k :: 0 <= k < |s.frames| ==> LinkOf(s.frames[k]) == s.linktype)
    && (s.budget.session > 0 ==> s.bytes <= s.budget.session)
    && (s.budget.total > 0 ==> s.programBytes <= s.budget.total)
    && (s.phase == Finalized ==> !s.captureActive && !s.pcapOpen && s.termination != Unset)
  }

  /** Evidence and actions only grow, the termination is kept, and the gate does not open again. */
  predicate Onward(s: State, s': State) {
    && s.frames <= s'.frames && s.file <= s'.file && s.packets <= s'.packets
    && s.networkActions <= s'.networkActions && s.acts <= s'.acts
    && Keeps(s.termination, s'.termination) && (s'.captureActive ==> s.captureActive) && (s'.pcapOpen ==> s.pcapOpen)
    && s'.budget == s.budget && s'.earlier == s.earlier
  }

  /** An operation of a running session is sound, onward, and does not move the session along. */
  predicate Fine(s: State, s': State) { Sound(s') && Onward(s, s') && s'.phase == s.phase && s'.pcapOpen == s.pcapOpen }

  lemma FineTrans(s: State, t: State, u: State)
    requires Fine(s, t) && Fine(t, u)
    ensures Fine(s, u)
  {
    hide EvidenceBytes;
  }

  lemma PreparedSound(budget: Budget, programBytes: nat)
    ensures Prepared(budget, programBytes).Some? ==> Sound(Prepared(budget, programBytes).value)
  {
  }

  lemma LinkSetFine(s: State, link: nat, writable: bool)
    requires Sound(s)
    ensures Fine(s, LinkSet(s, link, writable).s)
    ensures LinkSet(s, link, writable).ok <==> LinkSet(s, link, writable).s.linktype == link
  {
    hide EvidenceBytes;
  }

  lemma OnePacketMore(s: State, f: Frame)
    requires Sound(s) && s.linktype == LinkOf(f) && WithinLimits(s, RecordBytes(f)) && s.pcapOpen
    ensures Fine(s, Grown(s, f))
  {
    hide LinkOf, RecordBytes;
    var more, file := s.frames + [f], s.file + [Whole(f)];
    assert more[..|more| - 1] == s.frames && file[..|file| - 1] == s.file;
  }

  lemma LeftFine(s: State, f: Frame)
    requires Sound(s)
    ensures Fine(s, Left(s, f)) && Left(s, f) == s.(file := Left(s, f).file)
  {
    hide LinkOf, EvidenceBytes;
    var file := s.file + [Torn(f.written)];
    assert file[..|file| - 1] == s.file;
  }

  lemma StoppedFine(s: State, why: Termination)
    requires Sound(s) && why != Unset && why != Complete
    ensures Fine(s, Stopped(s, why))
  {
    hide EvidenceBytes, LinkOf;
  }

  lemma FineSelf(s: State)
    requires Sound(s)
    ensures Fine(s, s)
  {
  }

  /** A packet is recorded completely, or nothing is added to the evidence and, at a limit, the
      capture stops for good. */
  lemma RecordedFine(s: State, f: Frame)
    requires Sound(s)
    ensures var o := Recorded(s, f);
      && Fine(s, o.s) && o.s.frames == s.frames + (if o.ok then [f] else [])
      && (o.s.termination == s.termination || (!o.ok && o.s.termination == LimitError && !o.s.captureActive))
      && o.s.networkActions == s.networkActions && o.s.acts == s.acts
  {
    hide Sound, Onward, RecordBytes, LinkOf, WithinLimits, Fine, Left;
    FineSelf(s);
    if s.pcapOpen && f.length > 0 {
      LinkSetFine(s, LinkOf(f), f.relinks);
      var l := LinkSet(s, LinkOf(f), f.relinks);
      if l.ok {
        LinkSetSame(s, LinkOf(f), f.relinks);
        FineIs(s, l.s);
        StoppedFine(l.s, LimitError);
        FineTrans(s, l.s, Stopped(l.s, LimitError));
        if WithinLimits(l.s, RecordBytes(f)) {
          OnePacketMore(l.s, f);
          FineTrans(s, l.s, Grown(l.s, f));
          LeftFine(l.s, f);
          FineTrans(s, l.s, Left(l.s, f));
        }
      }
    }
  }

  lemma FineIs(s: State, s': State)
    requires Fine(s, s')
    ensures Sound(s') && Onward(s, s') && s'.phase == s.phase && s'.pcapOpen == s.pcapOpen
  {
  }

  lemma LinkSetSame(s: State, link: nat, writable: bool)
    ensures LinkSet(s, link, writable).s == s.(linktype := LinkSet(s, link, writable).s.linktype)
  {
  }

  /** Draining never takes evidence back, ends in success only with the termination it began with,
      and gives a session a reason to end only by stopping its capture. */
  lemma {:induction false} DrainedFine(s: State, readings: seq<Reading>, taken: nat)
    requires Sound(s)
    ensures var o := DrainedFrom(s, readings, taken);
      && Fine(s, o.s) && (o.ok ==> o.s.termination == s.termination)
      && (o.s.termination != s.termination ==> !o.s.captureActive)
      && o.s.networkActions == s.networkActions && o.s.acts == s.acts
    decreases readings
  {
    hide Sound, Onward, Recorded, Fine;
    FineSelf(s);
    StoppedFine(s, LimitError);
    if taken < DRAIN_LIMIT && readings != [] && readings[0].Captured? {
      var o := if readings[0].frame.matches then Recorded(s, readings[0].frame) else Outcome(true, s);
      RecordedFine(s, readings[0].frame);
      FineIs(s, o.s);
      if o.ok {
        DrainedFine(o.s, readings[1..], taken + 1);
        FineTrans(s, o.s, DrainedFrom(o.s, readings[1..], taken + 1).s);
      } else {
        StoppedFine(o.s, CaptureSetupError);
        FineTrans(s, o.s, Stopped(o.s, CaptureSetupError));
      }
    }
  }

  // ---- what a drain leaves in the file -----------------------------------------------------

  /** The frames that belong to the target, in the order the device gave them. */
  function Matching(readings: seq<Reading>): seq<Frame> {
    if readings == [] || !readings[0].Captured? then []
    else (if readings[0].frame.matches then [readings[0].frame] else []) + Matching(readings[1..])
  }

  /** How many frames the device gives one after the other. */
  function Captures(readings: seq<Reading>): nat {
    if readings == [] || !readings[0].Captured? then 0 else 1 + Captures(readings[1..])
  }

  function FirstReadings(readings: seq<Reading>, n: nat): seq<Reading> { if n < |readings| then readings[..n] else readings }

  /** The target's frames among those that one drain reads. */
  function Heard(readings: seq<Reading>): seq<Frame> { Matching(FirstReadings(readings, DRAIN_LIMIT)) }

  /** What decides whether the file takes a frame. */
  datatype Meter = Meter(budget: Budget, linktype: nat, packets: nat, bytes: nat, programBytes: nat)

  function MeterOf(s: State): Meter { Meter(s.budget, s.linktype, s.packets, s.bytes, s.programBytes) }

  /** The frame is not empty, and of the file's link type or the first one, for which that changes. */
  predicate Fits(m: Meter, f: Frame) { f.length > 0 && (LinkOf(f) == m.linktype || (m.packets == 0 && f.relinks)) }

  predicate Within(m: Meter, f: Frame) {
    && (m.budget.session > 0 ==> m.bytes + RecordBytes(f) <= m.budget.session)
    && (m.budget.total > 0 ==> m.programBytes + RecordBytes(f) <= m.budget.total)
  }

  predicate Takes(m: Meter, f: Frame) { Fits(m, f) && Within(m, f) && f.written >= RecordBytes(f) }

  function After(m: Meter, f: Frame): Meter {
    Meter(m.budget, LinkOf(f), m.packets + 1, m.bytes + RecordBytes(f), m.programBytes + RecordBytes(f))
  }

  /** How many of some frames are taken: those before the first one that is not. */
  function Kept(m: Meter, fs: seq<Frame>): (n: nat)
    ensures n <= |fs|
    decreases fs
  {
    if fs == [] || !Takes(m, fs[0]) then 0 else 1 + Kept(After(m, fs[0]), fs[1..])
  }

  /** What they leave in the file. */
  function Laid(m: Meter, fs: seq<Frame>): seq<Item>
    decreases fs
  {
    if fs == [] then []
    else if Takes(m, fs[0]) then [Whole(fs[0])] + Laid(After(m, fs[0]), fs[1..])
    else if Fits(m, fs[0]) && Within(m, fs[0]) && fs[0].written > 0 then [Torn(fs[0].written)]
    else []
  }

  /** Why a drain ends: the device has no more, or fails; a frame is not taken; a limit is met. */
  datatype Ending = Dry | Troubled | Dropped | Limited

  /** What some frames end a drain with, if one of them is not taken. */
  function Refusal(m: Meter, fs: seq<Frame>): (e: Ending)
    ensures !e.Troubled?
    decreases fs
  {
    if fs == [] then Dry
    else if Takes(m, fs[0]) then Refusal(After(m, fs[0]), fs[1..])
    else if Fits(m, fs[0]) && !Within(m, fs[0]) then Limited
    else Dropped
  }

  /** Why a drain ends that may read so many frames. */
  function EndingOf(m: Meter, readings: seq<Reading>, limit: nat): Ending {
    var refusal := Refusal(m, Matching(FirstReadings(readings, limit)));
    var n := Captures(readings);
    if !refusal.Dry? then refusal
    else if n >= limit then Limited
    else if n < |readings| && readings[n].Trouble? then Troubled
    else Dry
  }

  /** A limit overwrites the reason a session has; a frame that is not taken gives one only to a
      session that has none. */
  function ReasonAfter(t: Termination, e: Ending): Termination {
    if e.Limited? then LimitError else if e.Dropped? && t == Unset then CaptureSetupError else t
  }

  ghost predicate DrainedAs(s: State, o: Outcome, m: Meter, fs: seq<Frame>, e: Ending) {
    && o.ok == e.Dry? && o.s.termination == ReasonAfter(s.termination, e)
    && o.s.frames == s.frames + fs[..Kept(m, fs)] && o.s.file == s.file + Laid(m, fs)
  }

  /** A drain keeps exactly the target's frames up to the first one that the file does not take. */
  lemma {:induction false} DrainIs(s: State, readings: seq<Reading>, taken: nat)
    requires s.pcapOpen && taken <= DRAIN_LIMIT
    ensures var m, left := MeterOf(s), DRAIN_LIMIT - taken;
      DrainedAs(s, DrainedFrom(s, readings, taken), m, Matching(FirstReadings(readings, left)), EndingOf(m, readings, left))
    decreases readings
  {
    hide Recorded, Takes, Fits, Within, After, DrainedAs, EndingOf, FirstReadings, Matching, MeterOf;
    var m, left := MeterOf(s), DRAIN_LIMIT - taken;
    if taken == DRAIN_LIMIT || readings == [] || !readings[0].Captured? {
      NothingRead(s, readings, taken);
    } else {
      var f, rest := readings[0].frame, readings[1..];
      var more := Matching(FirstReadings(rest, left - 1));
      OneRead(m, readings, left);
      if !f.matches {
        DrainIs(s, rest, taken + 1);
      } else {
        RecordIs(s, f);
        var o := Recorded(s, f);
        if o.ok {
          DrainIs(o.s, rest, taken + 1);
          TakenOn(s, o.s, f, more, DrainedFrom(o.s, rest, taken + 1), EndingOf(After(m, f), rest, left - 1));
        } else {
          NotTaken(s, f, more, DrainedFrom(s, readings, taken));
        }
      }
    }
  }

  lemma NothingRead(s: State, readings: seq<Reading>, taken: nat)
    requires taken <= DRAIN_LIMIT && (taken == DRAIN_LIMIT || readings == [] || !readings[0].Captured?)
    ensures var m, left := MeterOf(s), DRAIN_LIMIT - taken;
      DrainedAs(s, DrainedFrom(s, readings, taken), m, Matching(FirstReadings(readings, left)), EndingOf(m, readings, left))
  {
    hide Recorded, Takes, Fits, Within, After;
    assert Matching(FirstReadings(readings, DRAIN_LIMIT - taken)) == [];
  }

  /** What one more reading adds to what is heard, and to why the drain ends. */
  lemma OneRead(m: Meter, readings: seq<Reading>, left: nat)
    requires readings != [] && readings[0].Captured? && left > 0
    ensures var f, rest := readings[0].frame, readings[1..];
      var more := Matching(FirstReadings(rest, left - 1));
      && Matching(FirstReadings(readings, left)) == (if f.matches then [f] + more else more)
      && EndingOf(m, readings, left)
         == if !f.matches then EndingOf(m, rest, left - 1)
            else if Takes(m, f) then EndingOf(After(m, f), rest, left - 1)
            else if Fits(m, f) && !Within(m, f) then Limited else Dropped
  {
    hide Takes, Fits, Within, After;
    var f, rest := readings[0].frame, readings[1..];
    var more := Matching(FirstReadings(rest, left - 1));
    assert FirstReadings(readings, left)[1..] == FirstReadings(rest, left - 1);
    assert [f] + more != [] && ([f] + more)[1..] == more;
  }

  /** A frame that is taken comes before what the rest of the drain keeps. */
  lemma TakenOn(s: State, t: State, f: Frame, more: seq<Frame>, u: Outcome, e: Ending)
    requires Takes(MeterOf(s), f) && t.frames == s.frames + [f] && t.file == s.file + [Whole(f)] && t.termination == s.termination
    requires DrainedAs(t, u, After(MeterOf(s), f), more, e)
    ensures DrainedAs(s, u, MeterOf(s), [f] + more, e)
  {
    hide Takes, Fits, Within, After, MeterOf;
    var m, fs := MeterOf(s), [f] + more;
    assert fs[1..] == more;
    var k := Kept(After(m, f), more);
    assert fs[..1 + k] == [f] + more[..k];
  }

  lemma NotTaken(s: State, f: Frame, more: seq<Frame>, u: Outcome)
    requires var o := Recorded(s, f);
      !o.ok && u == Outcome(false, if o.s.termination == Unset then Stopped(o.s, CaptureSetupError) else o.s)
    requires s.pcapOpen
    ensures var m := MeterOf(s);
      !Takes(m, f) && DrainedAs(s, u, m, [f] + more, if Fits(m, f) && !Within(m, f) then Limited else Dropped)
  {
    hide Recorded, Takes, Fits, Within, After, MeterOf;
    RecordIs(s, f);
    var fs := [f] + more;
    assert fs[..0] == [];
  }

  /** Recording one frame, by what the meter says. */
  lemma RecordIs(s: State, f: Frame)
    requires s.pcapOpen
    ensures var o, m := Recorded(s, f), MeterOf(s);
      && o.ok == Takes(m, f) && (o.ok ==> o.s.pcapOpen && MeterOf(o.s) == After(m, f) && o.s.termination == s.termination)
      && o.s.frames == s.frames + (if Takes(m, f) then [f] else [])
      && o.s.file == s.file
                     + (if Takes(m, f) then [Whole(f)]
                        else if Fits(m, f) && Within(m, f) && f.written > 0 then [Torn(f.written)] else [])
      && (!o.ok ==> o.s.termination == if Fits(m, f) && !Within(m, f) then LimitError else s.termination)
  {
    hide LinkOf, RecordBytes;
  }

  // ---- the session as it runs --------------------------------------------------------------

  class BookSession {
    const budget: Budget
    ghost const earlier: nat
    var phase: Phase
    var termination: Termination
    var captureActive: bool
    var pcapOpen: bool
    var linktype: nat
    var packets: nat
    var bytes: nat
    var programBytes: nat
    var networkActions: nat
    var transport: Transport
    var port: nat
    var stream: bool
    var datagram: bool
    ghost var frames: seq<Frame>
    ghost var file: seq<Item>
    ghost var acts: nat

    constructor (budget: Budget, programBytes: nat)
      requires Prepared(budget, programBytes).Some?
      ensures Now() == Prepared(budget, programBytes).value
    {
      this.budget, earlier := budget, programBytes;
      phase, termination, captureActive, pcapOpen := Capturing, Unset, true, true;
      linktype, packets, bytes, this.programBytes := ETHERNET, 0, HEADER_BYTES, programBytes + HEADER_BYTES;
      networkActions, transport, port, stream, datagram := 0, NoTransport, 0, false, false;
      frames, file, acts := [], [], 0;
    }

    ghost function Now(): State
      reads this
    {
      State(budget, phase, termination, captureActive, pcapOpen, linktype, packets, bytes, programBytes, networkActions, transport,
            port, stream, datagram, earlier, frames, file, acts)
    }

    predicate NetworkAllowed(remaining: int)
      reads this
      ensures NetworkAllowed(remaining) == Allowed(Now(), remaining)
    {
      captureActive && pcapOpen && remaining > 0 && termination != LimitError && (phase == Capturing || phase == Running)
    }

    predicate LimitAllows(addition: nat)
      reads this
      ensures LimitAllows(addition) == WithinLimits(Now(), addition)
    {
      (budget.session > 0 ==> bytes + addition <= budget.session) && (budget.total > 0 ==> programBytes + addition <= budget.total)
    }

    method SetLinkType(link: nat, writable: bool) returns (ok: bool)
      modifies `linktype
      ensures Outcome(ok, Now()) == LinkSet(old(Now()), link, writable)
    {
      if linktype == link { return true; }
      if packets != 0 || !writable { return false; }
      linktype := link;
      ok := true;
    }

    method Stop(why: Termination)
      modifies `termination, `captureActive
      ensures Now() == Stopped(old(Now()), why)
    {
      termination, captureActive := why, false;
    }

    /** Append one packet to the evidence. */
    method Capture(f: Frame) returns (ok: bool)
      modifies this
      ensures Outcome(ok, Now()) == Recorded(old(Now()), f)
    {
      if !pcapOpen || f.length == 0 { return false; }
      ok := SetLinkType(LinkOf(f), f.relinks);
      if !ok { return; }
      ok := LimitAllows(RecordBytes(f));
      if !ok {
        Stop(LimitError);
        return;
      }
      ok := f.written >= RecordBytes(f);
      if ok {
        packets, bytes, programBytes := packets + 1, bytes + RecordBytes(f), programBytes + RecordBytes(f);
        frames, file := frames + [f], file + [Whole(f)];
      } else if f.written > 0 {
        file := file + [Torn(f.written)];
      }
    }

    /** Move what the device has captured into the evidence, up to a limit. */
    method Drain(readings: seq<Reading>) returns (ok: bool)
      modifies this
      ensures Outcome(ok, Now()) == Drained(old(Now()), readings)
    {
      hide Recorded;
      if !pcapOpen || termination == LimitError { return false; }
      var taken := 0;
      assert readings[0..] == readings;
      while taken < DRAIN_LIMIT && taken < |readings| && readings[taken].Captured?
        invariant taken <= DRAIN_LIMIT && taken <= |readings|
        invariant DrainedFrom(Now(), readings[taken..], taken) == DrainedFrom(old(Now()), readings, 0)
      {
        var f := readings[taken].frame;
        assert readings[taken..][0] == readings[taken] && readings[taken..][1..] == readings[taken + 1..];
        taken := taken + 1;
        if f.matches {
          var kept := Capture(f);
          if !kept {
            if termination == Unset {
              Stop(CaptureSetupError);
            }
            return false;
          }
        }
      }
      if taken < DRAIN_LIMIT && taken < |readings| && readings[taken].Trouble? { return false; }
      ok := taken < DRAIN_LIMIT;
      if !ok {
        Stop(LimitError);
      }
    }

    method NoteAction(remaining: int)
      modifies `networkActions
      ensures Now() == Noted(old(Now()), remaining)
    {
      if NetworkAllowed(remaining) {
        networkActions := networkActions + 1;
      }
    }

    /** The action that the transport is asked for next is noted. */
    method Act(later: int)
      modifies `networkActions, `acts
      ensures Now() == Acted(old(Now()), later)
    {
      NoteAction(later);
      acts := acts + 1;
    }

    method Bind(kind: Transport, to: nat)
      modifies `transport, `port
      ensures Now() == old(Now()).(transport := kind, port := to)
    {
      transport, port := kind, to;
    }

    method SetStream(present: bool)
      modifies `stream
      ensures Now() == old(Now()).(stream := present)
    {
      stream := present;
    }

    method OpenTcp(to: nat, remaining: int, later: int, reachable: bool, connected: bool, readings: seq<Reading>) returns (ok: bool)
      modifies this
      ensures Outcome(ok, Now()) == TcpOpened(old(Now()), to, remaining, later, reachable, connected, readings)
    {
      hide Connected;
      if to == 0 || !NetworkAllowed(remaining) || datagram { return false; }
      if stream { return transport == Tcp && port == to; }
      if !reachable { return false; }
      ok := Connect(to, later, connected, readings);
    }

    /** Ask the transport for a stream and keep the evidence of that. */
    method Connect(to: nat, later: int, connected: bool, readings: seq<Reading>) returns (ok: bool)
      modifies this
      ensures Outcome(ok, Now()) == Connected(old(Now()), to, later, connected, readings)
    {
      hide Drained, Acted;
      Bind(Tcp, to);
      Act(later);
      SetStream(connected);
      ok := Drain(readings);
      if !ok {
        SetStream(false);
      }
      ok := ok && connected;
    }

    method OpenUdp(to: nat, remaining: int, reachable: bool, connected: bool) returns (ok: bool)
      modifies this
      ensures Outcome(ok, Now()) == UdpOpened(old(Now()), to, remaining, reachable, connected)
    {
      if to == 0 || !NetworkAllowed(remaining) || stream { return false; }
      if datagram { return transport == Udp && port == to; }
      if !reachable { return false; }
      transport, port := Udp, to;
      datagram := connected;
      ok := connected;
    }

    method Transfer(remaining: int, later: int, moved: bool, readings: seq<Reading>) returns (ok: bool)
      modifies this
      ensures Outcome(ok, Now()) == Transferred(old(Now()), remaining, later, moved, readings)
    {
      hide DrainedFrom, Acted;
      var usable := if transport == Tcp then stream else transport == Udp && datagram;
      if !NetworkAllowed(remaining) || !usable { return false; }
      Act(later);
      var drained := Drain(readings);
      ok := drained && moved;
    }

    method Collect(readings: seq<Reading>)
      modifies this
      ensures Now() == Collected(old(Now()), readings)
    {
      hide Drained;
      if termination != LimitError {
        var drained := Drain(readings);
      }
    }

    method CloseStream(readings: seq<Reading>)
      modifies this
      ensures Now() == StreamClosed(old(Now()), readings)
    {
      hide Collected;
      if stream {
        stream := false;
        Collect(readings);
      }
    }

    method CloseDatagram(readings: seq<Reading>)
      modifies this
      ensures Now() == DatagramClosed(old(Now()), readings)
    {
      hide Collected;
      if datagram {
        Collect(readings);
        datagram := false;
      }
    }

    /** Close the transport, collect the last evidence, and close the evidence file. */
    method Finalize(afterStream: seq<Reading>, beforeDatagram: seq<Reading>)
      modifies this
      ensures Now() == Closed(old(Now()), afterStream, beforeDatagram)
    {
      hide StreamClosed, DatagramClosed;
      if phase == Finalized { return; }
      CloseStream(afterStream);
      CloseDatagram(beforeDatagram);
      Seal();
    }

    method Seal()
      modifies this
      ensures Now() == Sealed(old(Now()))
    {
      phase := Closing;
      pcapOpen, captureActive := false, false;
      phase := Finalized;
      if termination == Unset {
        termination := Interrupted;
      }
    }
  }

  // ---- the transport -----------------------------------------------------------------------

  /** Opening a stream keeps the session sound, and does nothing at all if the gate is closed or the
      session is already bound to a transport. */
  lemma TcpOpenedFine(s: State, to: nat, remaining: int, later: int, reachable: bool, connected: bool, readings: seq<Reading>)
    requires Sound(s)
    ensures var o := TcpOpened(s, to, remaining, later, reachable, connected, readings);
      && Fine(s, o.s)
      && (!Allowed(s, remaining) || s.stream || s.datagram ==> o.s == s)
      && (o.ok ==> o.s.stream && o.s.transport == Tcp && o.s.port == to && !o.s.datagram)
  {
    hide Sound, Onward, DrainedFrom, Fine;
    FineSelf(s);
    if to != 0 && Allowed(s, remaining) && !s.datagram && !s.stream && reachable {
      var t := s.(transport := Tcp, port := to);
      var a := Acted(t, later).(stream := connected);
      SameEvidence(s, a);
      FineIs(s, a);
      DrainKeeps(a, readings);
      var d := Drained(a, readings).s;
      FineTrans(s, a, d);
      FineIs(s, d);
      SameEvidence(d, d.(stream := false));
      FineTrans(s, d, d.(stream := false));
    }
  }

  lemma OneTransport(s: State)
    requires Sound(s)
    ensures !(s.stream && s.datagram)
  {
  }

  /** A state that differs in its transport only, or in more actions. */
  lemma SameEvidence(s: State, t: State)
    requires Sound(s) && t.networkActions >= s.networkActions && t.acts >= s.acts && !(t.stream && t.datagram)
    requires t == s.(transport := t.transport, port := t.port, stream := t.stream, datagram := t.datagram,
                     networkActions := t.networkActions, acts := t.acts)
    ensures Fine(s, t)
  {
    hide EvidenceBytes, LinkOf;
  }

  /** What draining leaves alone. */
  lemma DrainKeeps(s: State, readings: seq<Reading>)
    requires Sound(s)
    ensures var o := Drained(s, readings);
      && Fine(s, o.s) && (o.ok ==> o.s.termination == s.termination) && (o.s.termination != s.termination ==> !o.s.captureActive)
      && o.s.transport == s.transport && o.s.port == s.port && o.s.stream == s.stream && o.s.datagram == s.datagram
      && o.s.networkActions == s.networkActions && o.s.acts == s.acts
  {
    hide Sound, Onward, DrainedFrom, Fine;
    FineSelf(s);
    DrainedFine(s, readings, 0);
    SameTransport(s, readings, 0);
  }

  lemma {:induction false} SameTransport(s: State, readings: seq<Reading>, taken: nat)
    ensures var o := DrainedFrom(s, readings, taken);
      o.s.transport == s.transport && o.s.port == s.port && o.s.stream == s.stream && o.s.datagram == s.datagram
    decreases readings
  {
    hide Recorded;
    if taken < DRAIN_LIMIT && readings != [] && readings[0].Captured? {
      RecordedElsewhere(s, readings[0].frame);
      var o := if readings[0].frame.matches then Recorded(s, readings[0].frame) else Outcome(true, s);
      if o.ok {
        SameTransport(o.s, readings[1..], taken + 1);
      }
    }
  }

  lemma RecordedElsewhere(s: State, f: Frame)
    ensures var t := Recorded(s, f).s;
      t.transport == s.transport && t.port == s.port && t.stream == s.stream && t.datagram == s.datagram
  {
    hide WithinLimits, RecordBytes, LinkOf;
  }

  /** Opening a socket keeps the session sound and puts nothing on the wire. */
  lemma UdpOpenedFine(s: State, to: nat, remaining: int, reachable: bool, connected: bool)
    requires Sound(s)
    ensures var o := UdpOpened(s, to, remaining, reachable, connected);
      && Fine(s, o.s) && o.s.acts == s.acts && o.s.networkActions == s.networkActions
      && (!Allowed(s, remaining) || s.stream || s.datagram ==> o.s == s)
      && (o.ok ==> o.s.datagram && o.s.transport == Udp && o.s.port == to && !o.s.stream)
  {
    hide Sound, Fine;
    FineSelf(s);
    OneTransport(s);
    SameEvidence(s, UdpOpened(s, to, remaining, reachable, connected).s);
  }

  /** A transfer keeps the session sound, and does nothing at all without an open gate and a transport. */
  lemma TransferredFine(s: State, remaining: int, later: int, moved: bool, readings: seq<Reading>)
    requires Sound(s)
    ensures var o := Transferred(s, remaining, later, moved, readings);
      Fine(s, o.s) && (!Allowed(s, remaining) || !Usable(s) ==> !o.ok && o.s == s)
  {
    hide Sound, Onward, DrainedFrom, Fine;
    FineSelf(s);
    OneTransport(s);
    if Allowed(s, remaining) && Usable(s) {
      var a := Acted(s, later);
      SameEvidence(s, a);
      FineIs(s, a);
      DrainKeeps(a, readings);
      FineTrans(s, a, Drained(a, readings).s);
    }
  }

  /** How many actions of the transport have not been counted. */
  function Uncounted(s: State): int { s.acts - s.networkActions }

  /** Whether the transport is asked to act. */
  predicate Acts(s: State, to: nat, remaining: int, reachable: bool) {
    to != 0 && Allowed(s, remaining) && !s.datagram && !s.stream && reachable
  }

  /** The gate is looked at twice, and an action is not counted exactly if the time runs out between
      the two looks. */
  lemma ActionIsCounted(s: State, to: nat, remaining: int, later: int, reachable: bool, connected: bool, moved: bool,
                        readings: seq<Reading>)
    requires Sound(s)
    ensures Uncounted(TcpOpened(s, to, remaining, later, reachable, connected, readings).s)
         == Uncounted(s) + if Acts(s, to, remaining, reachable) && later <= 0 then 1 else 0
    ensures Uncounted(Transferred(s, remaining, later, moved, readings).s)
         == Uncounted(s) + if Allowed(s, remaining) && Usable(s) && later <= 0 then 1 else 0
  {
    hide Sound, Onward, DrainedFrom, Fine;
    if Acts(s, to, remaining, reachable) {
      var t := s.(transport := Tcp, port := to);
      var a := Acted(t, later).(stream := connected);
      SameEvidence(s, a);
      FineIs(s, a);
      DrainKeeps(a, readings);
    }
    OneTransport(s);
    if Allowed(s, remaining) && Usable(s) {
      var a := Acted(s, later);
      SameEvidence(s, a);
      FineIs(s, a);
      DrainKeeps(a, readings);
    }
  }

  /** A session is finalized once: it is closed, has a reason, keeps its evidence and the reason it
      was given, unless a limit is reached by the last evidence. */
  lemma ClosedSound(s: State, afterStream: seq<Reading>, beforeDatagram: seq<Reading>)
    requires Sound(s)
    ensures var c := Closed(s, afterStream, beforeDatagram);
      && Sound(c) && Onward(s, c) && c.phase == Finalized && c.networkActions == s.networkActions
      && Closed(c, afterStream, beforeDatagram) == c
      && SameReason(s, c)
  {
    hide Sound, Onward, Drained, Fine;
    hide StreamClosed, DatagramClosed;
    FineSelf(s);
    FineIs(s, s);
    if s.phase != Finalized {
      var a := StreamClosed(s, afterStream);
      StreamClosedFine(s, afterStream);
      FineIs(s, a);
      var b := DatagramClosed(a, beforeDatagram);
      DatagramClosedFine(a, beforeDatagram);
      FineTrans(s, a, b);
      FineIs(a, b);
      FineIs(s, b);
      SealedSound(s, b);
    }
  }

  /** c ends for the reason s had, unless a limit was reached or s had none. */
  predicate SameReason(s: State, c: State) {
    c.termination == s.termination || c.termination == LimitError || (s.termination == Unset && c.termination != Complete)
  }

  lemma StreamClosedFine(s: State, readings: seq<Reading>)
    requires Sound(s)
    ensures var c := StreamClosed(s, readings); Fine(s, c) && c.networkActions == s.networkActions && SameReason(s, c)
  {
    hide Sound, Onward, Collected, Fine;
    FineSelf(s);
    var t := s.(stream := false);
    SameEvidence(s, t);
    FineIs(s, t);
    CollectedFine(t, readings);
    FineTrans(s, t, Collected(t, readings));
  }

  lemma DatagramClosedFine(s: State, readings: seq<Reading>)
    requires Sound(s)
    ensures var c := DatagramClosed(s, readings); Fine(s, c) && c.networkActions == s.networkActions && SameReason(s, c)
  {
    hide Sound, Onward, Collected, Fine;
    FineSelf(s);
    CollectedFine(s, readings);
    var d := Collected(s, readings);
    FineIs(s, d);
    SameEvidence(d, d.(datagram := false));
    FineTrans(s, d, d.(datagram := false));
  }

  lemma CollectedFine(s: State, readings: seq<Reading>)
    requires Sound(s)
    ensures var c := Collected(s, readings);
      Fine(s, c) && c.networkActions == s.networkActions && SameReason(s, c)
  {
    hide Sound, Onward, Fine, DrainedFrom, EndingOf;
    FineSelf(s);
    DrainKeeps(s, readings);
    if s.pcapOpen { DrainIs(s, readings, 0); }
    if s.termination != LimitError {
      FineIs(s, Drained(s, readings).s);
      ReasonKept(s, Drained(s, readings).s);
    }
  }

  lemma ReasonKept(s: State, t: State)
    requires Onward(s, t)
    ensures t.termination == Complete ==> s.termination == Complete
  {
  }

  lemma SealedSound(s: State, b: State)
    requires Fine(s, b)
    ensures Sound(Sealed(b)) && Onward(s, Sealed(b))
  {
    hide EvidenceBytes, LinkOf;
  }

  // ---- the last evidence -------------------------------------------------------------------

  /** The target's frames that closing the transport reads. */
  function LastHeard(s: State, afterStream: seq<Reading>, beforeDatagram: seq<Reading>): seq<Frame> {
    if s.stream then Heard(afterStream) else if s.datagram then Heard(beforeDatagram) else []
  }

  /** Why the drain that closing the transport does ends, if there is one. */
  function LastEnding(s: State, afterStream: seq<Reading>, beforeDatagram: seq<Reading>): Ending {
    if s.stream then EndingOf(MeterOf(s), afterStream, DRAIN_LIMIT)
    else if s.datagram then EndingOf(MeterOf(s), beforeDatagram, DRAIN_LIMIT)
    else Dry
  }

  /** Closing a session keeps exactly the last frames up to the first one that the file does not
      take, and that frame changes the reason only if a limit is met or there is none. */
  lemma ClosedIs(s: State, afterStream: seq<Reading>, beforeDatagram: seq<Reading>)
    requires Sound(s) && s.pcapOpen && s.phase != Finalized && s.termination != LimitError
    ensures var c, last := Closed(s, afterStream, beforeDatagram), LastHeard(s, afterStream, beforeDatagram);
      var t := ReasonAfter(s.termination, LastEnding(s, afterStream, beforeDatagram));
      && c.frames == s.frames + last[..Kept(MeterOf(s), last)] && c.file == s.file + Laid(MeterOf(s), last)
      && c.termination == if t == Unset then Interrupted else t
  {
    hide Sound, DrainedFrom, EndingOf, Kept, Laid, Matching, FirstReadings;
    OneTransport(s);
    NoFrames(MeterOf(s));
    if s.stream {
      var t := s.(stream := false);
      DrainIs(t, afterStream, 0);
      SameTransport(t, afterStream, 0);
      assert MeterOf(t) == MeterOf(s);
    } else if s.datagram {
      DrainIs(s, beforeDatagram, 0);
    }
  }

  lemma NoFrames(m: Meter)
    ensures Kept(m, []) == 0 && Laid(m, []) == []
  {
  }

  function WholeItems(fs: seq<Frame>): seq<Item> { seq(|fs|, i requires 0 <= i < |fs| => Whole(fs[i])) }

  /** Frames leave complete records, and after them at most a part of one more. */
  lemma {:induction false} LaidIs(m: Meter, fs: seq<Frame>)
    ensures var k := Kept(m, fs);
      && k <= |Laid(m, fs)| <= k + 1 && Laid(m, fs)[..k] == WholeItems(fs[..k])
      && (|Laid(m, fs)| == k + 1 ==> k < |fs| && Laid(m, fs)[k].Torn? && 0 < Laid(m, fs)[k].bytes < RecordBytes(fs[k]))
    decreases fs
  {
    hide Fits, Within, After, RecordBytes;
    if fs != [] && Takes(m, fs[0]) {
      LaidIs(After(m, fs[0]), fs[1..]);
    }
  }

  lemma {:induction false} NoneRefused(m: Meter, fs: seq<Frame>)
    ensures Refusal(m, fs).Dry? <==> Kept(m, fs) == |fs|
    ensures Refusal(m, fs).Dry? ==> Laid(m, fs) == WholeItems(fs)
    decreases fs
  {
    hide Takes, Fits, Within, After;
    if fs != [] && Takes(m, fs[0]) {
      NoneRefused(After(m, fs[0]), fs[1..]);
    }
  }

  /** A drain that succeeds, or leaves a session without a reason to end, keeps all it has heard. */
  lemma AllKept(s: State, readings: seq<Reading>)
    requires s.pcapOpen && s.termination != LimitError
    requires var o := Drained(s, readings); o.ok || o.s.termination == Unset
    ensures var t := Drained(s, readings).s;
      t.frames == s.frames + Heard(readings) && t.file == s.file + WholeItems(Heard(readings))
  {
    hide DrainedFrom, Kept, Laid, Refusal, Matching, FirstReadings;
    var fs := Heard(readings);
    DrainIs(s, readings, 0);
    NoneRefused(MeterOf(s), fs);
    assert fs[..|fs|] == fs;
  }
}

/** A Book from its source to its published file: what the interpreter runs, what that does to the
    session, and what is written. */
module BookRun {
  import opened Syntax
  import opened Values
  import Heap
  import Soundness
  import Shapes
  import Parsing
  import Engine
  import opened Output
  import Persist
  import opened Session
  import opened Commit
  import opened Publication
  import opened Natives
  import Literals

  /** What the interpreter reports of a run. */
  function Reported(outcome: Engine.Outcome, created: bool, log: seq<Heap.Event>, n: Natives): Execution {
    Execution(!outcome.NotTokens? && !outcome.NotProgram?, created, CallsOf(n, log), outcome.Finished?)
  }

  /** Everything of the interpreter that a run depends on beyond the Book's source. */
  datatype Setting = Setting(w: Heap.World, libraries: seq<Shapes.Program>, start: Heap.State, nodeCap: Parsing.NodeCap,
                             listCap: Parsing.ListCap, natives: Natives, created: bool)

  ghost predicate Ready(x: Setting) {
    Engine.Initial(x.start) && x.start.log == [] && Soundness.WorldOk(x.w) && Engine.ModulesLoaded(x.w, x.libraries)
  }

  /** What the interpreter makes of a source in that setting, in the world w. */
  ghost predicate Interpreted(x: Setting, w: Heap.World, source: string, outcome: Engine.Outcome, heap: Heap.State) {
    Engine.Judged(source, x.nodeCap, x.listCap, outcome) && Engine.RanAs(w, source, x.start, outcome, heap)
  }

  /** What a published file says about the events of the run behind it: they gave the session no reason
      to end, it is complete with evidence of any counted traffic, and the file reads back as exactly
      the records of the emissions that were answered, in order. No emission of a valid record failed
      but for lack of memory. */
  ghost predicate Backed(n: Natives, w: Heap.World, log: seq<Heap.Event>, s: State, c: Circumstances, limits: Limits, name: string,
                         content: string)
  {
    var r, records := Finished(s, Execution(true, true, CallsOf(n, log), true), c, limits), Emissions(n, w, log);
    && (forall k :: 0 < k <= |log| ==> QuietAt(n, w, limits, log[..k]))
    && r.s.termination == Complete && (r.s.networkActions == 0 || r.s.packets > 0)
    && content == Persist.Serialized(name, records)
    && (Persist.NameValid(name) ==>
          && Persist.IsBytes(content)
          && Persist.ReadOut(content, name + ".out", limits) == Some(Persist.Artifact(name, records)))
  }

  lemma CompleteIsBacked(w: Heap.World, n: Natives, log: seq<Heap.Event>, s: State, c: Circumstances, limits: Limits, name: string)
    requires Sound(s) && s.phase == Capturing && s.termination == Unset
    requires Finished(s, Execution(true, true, CallsOf(n, log), true), c, limits).s.termination == Complete
    ensures var r := Finished(s, Execution(true, true, CallsOf(n, log), true), c, limits);
      Backed(n, Tied(w, n, s, limits), log, s, c, limits, name, Persist.Serialized(name, r.t.records))
  {
    hide Sound, Finished, Through, Persist.Serialized, Persist.ReadOut, Persist.IsBytes, Persist.NameValid, CallsOf, RunsToEnd,
         Stageable, Tied, QuietAt, Emissions;
    var run := Execution(true, true, CallsOf(n, log), true);
    FinishedIsBacked(s, run, c, limits);
    StagedByCalls(s, run, c, limits);
    StagedIsEmitted(w, n, s, limits, log);
    forall k | 0 < k <= |log| ensures QuietAt(n, Tied(w, n, s, limits), limits, log[..k]) {
      AllQuiet(w, n, s, limits, log, k);
    }
    if Persist.NameValid(name) {
      Persist.OutRoundTrip(name, Finished(s, run, c, limits).t.records, limits);
    }
  }

  /** What the interpreter reports, and the heap it ends in. */
  method Interpret(x: Setting, w: Heap.World, source: string)
    returns (outcome: Engine.Outcome, run: Execution, ghost heap: Heap.State)
    requires Ready(x) && w == x.w.(act := w.act, patience := w.patience)
    ensures run == Reported(outcome, x.created, heap.log, x.natives)
    ensures Interpreted(x, w, source, outcome, heap)
  {
    hide Engine.Initial, Engine.ModulesLoaded, Engine.Judged, Engine.RanAs, CallsOf;
    SameModules(x, w);
    var log;
    outcome, log, heap := Engine.RunBook(w, source, x.libraries, x.start, x.nodeCap, x.listCap);
    run := Reported(outcome, x.created, log, x.natives);
  }

  lemma SameModules(x: Setting, w: Heap.World)
    requires Engine.ModulesLoaded(x.w, x.libraries) && Soundness.WorldOk(x.w) && w.modules == x.w.modules
    ensures Engine.ModulesLoaded(w, x.libraries) && Soundness.WorldOk(w)
  {
    hide Shapes.HoldsBlock, Literals.BlockFit;
  }

  /** Run one Book against one target, from its source, with natives that stage and bail as they are
      written. Its file is published exactly if the session is complete after what the interpreter
      reports and the directory and the disk allow it. If it is, the source is a program that has run
      to its end as that program means, and the file reads back as exactly the records it emitted.
      Otherwise the file is as it was. */
  method RunFromSource(x: Setting, source: string, budget: Budget, programBytes: nat, limits: Limits, name: string, final: string,
                       files: Files, c: Circumstances)
    returns (outcome: Option<Engine.Outcome>, published: bool, ghost heap: Heap.State)
    requires Ready(x)
    modifies files
    ensures outcome.Some? <==>
      c.started && Prepared(budget, programBytes).Some? && Allowed(Prepared(budget, programBytes).value, c.remaining)
    ensures outcome.Some? ==>
      Interpreted(x, Tied(x.w, x.natives, Prepared(budget, programBytes).value, limits), source, outcome.value, heap)
    ensures published <==>
      && outcome.Some? && c.safe
      && var run := Reported(outcome.value, x.created, heap.log, x.natives);
         var r := Finished(Prepared(budget, programBytes).value, run, c, limits);
         r.s.termination == Complete && Commits(old(files.disk), final, name, r.t.records, limits, c.tags, c.luck)
    ensures published ==>
      && outcome.value.Finished? && final in files.disk && files.disk == old(files.disk)[final := files.disk[final]]
      && var s := Prepared(budget, programBytes).value;
         Backed(x.natives, Tied(x.w, x.natives, s, limits), heap.log, s, c, limits, name, files.disk[final])
    ensures !published ==> At(files.disk, final) == At(old(files.disk), final)
  {
    hide Ready, Interpreted, Finished, Backed, Sound, Allowed, Persist.Serialized, Persist.NameValid, Commits, FirstTemp,
         Committed, OldOrNew, DiskAllows, CallsOf, At, Through, RunsToEnd, Stageable, Answered;
    outcome, published, heap := None, false, x.start;
    if !c.started || Prepared(budget, programBytes).None? { return; }
    var s := Prepared(budget, programBytes).value;
    PreparedSound(budget, programBytes);
    var run := Execution(false, x.created, [], false);
    if Allowed(s, c.remaining) {
      var o;
      o, run, heap := Interpret(x, Tied(x.w, x.natives, s, limits), source);
      outcome := Some(o);
    }
    FinishedIsBacked(s, run, c, limits);
    ghost var before, rs := files.disk, Finished(s, run, c, limits).t.records;
    var normal;
    normal, published := RunOne(budget, programBytes, limits, name, final, files, run, c);
    CommittedIsOldOrNew(before, files.disk, published, final, FirstTemp(before, final, c.tags, c.luck.opens, 0),
                        Persist.Serialized(name, rs), c.luck.unlinks);
    if published {
      StagedByCalls(s, run, c, limits);
      CompleteIsBacked(x.w, x.natives, heap.log, s, c, limits, name);
      Replaced(before, files.disk, final, Persist.Serialized(name, rs), FirstTemp(before, final, c.tags, c.luck.opens, 0),
               c.luck.unlinks);
    }
  }

  lemma Replaced(before: Disk, after: Disk, final: string, whole: string, temp: Option<string>, unlinks: bool)
    requires Committed(before, after, true, final, temp, whole, unlinks)
    ensures after == before[final := whole]
  {
  }
}

/** The entity validation test: for every registry entry, load the module,
    resolve its descriptor and factory exports, count the `{GUID, name}`
    records the descriptor export returns, compare with the expected count,
    call the factory once per record (with a fresh stack dummy when the
    entry needs a signal) and release each entity that was created. There
    is no fault boundary on this path: a fault in foreign code ends the
    process. */
module EntityValidation {
  import opened Platform
  import opened Harness
  import Layouts
  import TestUtils

  datatype EntityEntry = EntityEntry(
    dll: string, descriptorSymbol: string, createSymbol: string,
    kind: EntityKind, needsSignal: bool, expectedCount: nat)

  /** The name shown for a record: its own text up to the first NUL, where
      the stream stops, or `<unnamed>` for a null pointer. */
  function DisplayName(rec: DescriptorRecord): (name: string)
    ensures rec.name.Some? ==> name == TestUtils.UpToNul(rec.name.value)
    ensures rec.name.Some? ==> TestUtils.NUL !in name
    ensures rec.name.None? ==> name == "<unnamed>"
  {
    match rec.name
    case Some(n) => TestUtils.UpToNul(n)
    case None => "<unnamed>"
  }

  /** The outcome of one factory call: `ok` when an entity was created and
      released, `faulted` when foreign code faulted (ending the process). */
  datatype StepReport = StepReport(ok: bool, faulted: bool, trace: seq<Event>)

  /** One iteration of the creation loop. The input is the iteration's own
      dummy exactly when the entry needs a signal. The entity is released
      once when the status succeeded and the pointer is non-null, and never
      otherwise. */
  function CreateOnce(o: CallOutcome, rec: DescriptorRecord, needsSignal: bool): (r: StepReport)
    ensures |r.trace| >= 1 && r.trace[0] == Call(rec.id, DisplayName(rec), needsSignal)
    ensures r.faulted <==> StepFaults(o)
    ensures r.ok <==> StepOk(o)
    ensures ModuleLocal(r.trace)
    ensures Tally(r.trace, Calls) == 1
    ensures Tally(r.trace, EntityReleases) == (if Created(o) then 1 else 0)
  {
    var call := Call(rec.id, DisplayName(rec), needsSignal);
    match o
    case Faulted(_) => StepReport(false, true, [call])
    case Returned(_, hr, created, releaseFaults) =>
      if Failed(hr) || !created then StepReport(false, false, [call])
      else
        TallyAppend([call], [ReleaseEntity(rec.id)], Loads);
        TallyAppend([call], [ReleaseEntity(rec.id)], Frees);
        assert [call] + [ReleaseEntity(rec.id)] == [call, ReleaseEntity(rec.id)];
        StepReport(!releaseFaults, releaseFaults, [call, ReleaseEntity(rec.id)])
  }

  /** Some iteration from `i` to `n - 1` would fault if reached. */
  predicate SomeFault(f: Factory, a: DescriptorAnswer, needsSignal: bool, i: nat, n: nat)
    decreases n - i
  {
    i < n && (StepFaults(OutcomeAt(f, a, needsSignal, i)) || SomeFault(f, a, needsSignal, i + 1, n))
  }

  lemma {:induction false} SomeFaultMeansOne(f: Factory, a: DescriptorAnswer, needsSignal: bool, i: nat, n: nat)
    ensures SomeFault(f, a, needsSignal, i, n) <==> exists j :: i <= j < n && StepFaults(OutcomeAt(f, a, needsSignal, j))
    decreases n - i
  {
    if i < n {
      SomeFaultMeansOne(f, a, needsSignal, i + 1, n);
      if SomeFault(f, a, needsSignal, i + 1, n) {
        var j :| i + 1 <= j < n && StepFaults(OutcomeAt(f, a, needsSignal, j));
      }
    }
  }

  /** An iteration that faults does not pass, so a fault anywhere in the
      range fails the range. */
  lemma {:induction false} FaultBlocksAll(f: Factory, a: DescriptorAnswer, needsSignal: bool, i: nat, n: nat)
    ensures SomeFault(f, a, needsSignal, i, n) ==> !AllCreated(f, a, needsSignal, i, n)
    decreases n - i
  {
    if i < n {
      FaultBlocksAll(f, a, needsSignal, i + 1, n);
    }
  }

  /** Iterations `i` to `n - 1` of the creation loop; a failure is recorded
      and the loop goes on, a fault stops everything. */
  function CreateLoop(f: Factory, a: DescriptorAnswer, needsSignal: bool, i: nat, n: nat): (r: StepReport)
    requires i <= n
    ensures ModuleLocal(r.trace)
    ensures r.faulted <==> SomeFault(f, a, needsSignal, i, n)
    ensures r.ok <==> AllCreated(f, a, needsSignal, i, n)
    ensures !r.faulted ==> Tally(r.trace, Calls) == n - i
    decreases n - i
  {
    if i == n then StepReport(true, false, [])
    else
      var step := CreateOnce(OutcomeAt(f, a, needsSignal, i), RecordAt(a, i), needsSignal);
      if step.faulted then step
      else
        var rest := CreateLoop(f, a, needsSignal, i + 1, n);
        LocalAppend(step.trace, rest.trace);
        TallyAppend(step.trace, rest.trace, Calls);
        StepReport(step.ok && rest.ok, rest.faulted, step.trace + rest.trace)
  }

  /** Both exports resolve and the descriptor export answers usably. */
  predicate Ready(env: Env, e: EntityEntry)
  {
    && e.dll in env
    && TestUtils.Narrow(e.descriptorSymbol) in env[e.dll].descriptorFns
    && TestUtils.Narrow(e.createSymbol) in env[e.dll].factories
    && UsableAnswer(env[e.dll].descriptorFns[TestUtils.Narrow(e.descriptorSymbol)])
  }

  function AnswerFor(env: Env, e: EntityEntry): DescriptorAnswer
    requires Ready(env, e)
  {
    env[e.dll].descriptorFns[TestUtils.Narrow(e.descriptorSymbol)]
  }

  function FactoryFor(env: Env, e: EntityEntry): Factory
    requires Ready(env, e)
  {
    env[e.dll].factories[TestUtils.Narrow(e.createSymbol)]
  }

  /** `end - begin` of two `const TFilter_Descriptor*`, stored in a
      `size_t`. For a whole number of records this is the byte distance
      divided by the record size. Otherwise the subtraction is undefined in
      C++ and the model's rounding toward zero is only one possible
      result. */
  function ActualCount(a: DescriptorAnswer, width: PointerWidth): (n: nat)
    ensures a.begin <= a.end < SizeModulus(width) ==>
      var size := Layouts.PairRecordSize(width);
      n * size <= a.end - a.begin < (n + 1) * size
  {
    ToSize(TruncDiv(a.end - a.begin, Layouts.PairRecordSize(width)), width)
  }

  function LoopFor(env: Env, e: EntityEntry, width: PointerWidth): StepReport
    requires Ready(env, e)
  {
    var a := AnswerFor(env, e);
    CreateLoop(FactoryFor(env, e), a, e.needsSignal, 0, ActualCount(a, width))
  }

  /** What the source counts as success for one entry: the module loads,
      both symbols resolve, the descriptors come back, the count matches,
      and every record's entity is created and released. */
  predicate EntryPasses(env: Env, e: EntityEntry, width: PointerWidth)
  {
    && Ready(env, e)
    && ActualCount(AnswerFor(env, e), width) == e.expectedCount
    && forall j :: 0 <= j < ActualCount(AnswerFor(env, e), width) ==>
         StepOk(OutcomeAt(FactoryFor(env, e), AnswerFor(env, e), e.needsSignal, j))
  }

  /** One registry entry. The module is freed once on every path that
      loaded it; a missing symbol or unusable descriptors make no factory
      call; a count mismatch fails the entry but the loop still makes one
      call per counted record. */
  function RunEntry(env: Env, e: EntityEntry, width: PointerWidth): (r: StepReport)
    ensures r.ok <==> EntryPasses(env, e, width)
    ensures r.ok ==> !r.faulted
    ensures !r.faulted ==> Disciplined(r.trace)
  {
    if e.dll !in env then StepReport(false, false, [])
    else
      var unload := [Load(e.dll), Free(e.dll)];
      Bracket(e.dll, []);
      assert [Load(e.dll)] + [] + [Free(e.dll)] == unload;
      if !Ready(env, e) then StepReport(false, false, unload)
      else
        var a := AnswerFor(env, e);
        var n := ActualCount(a, width);
        var loop := LoopFor(env, e, width);
        var mapped := [Load(e.dll)] + loop.trace;
        Bracket(e.dll, loop.trace);
        AllCreatedMeansEvery(FactoryFor(env, e), a, e.needsSignal, 0, n);
        FaultBlocksAll(FactoryFor(env, e), a, e.needsSignal, 0, n);
        if loop.faulted then StepReport(false, true, mapped)
        else
          StepReport(n == e.expectedCount && loop.ok, false, mapped + [Free(e.dll)])
  }

  /** The module side of one entry: a module that loads is loaded once and
      freed once, unless a fault ends the process while it is still mapped. */
  lemma RunEntryModules(env: Env, e: EntityEntry, width: PointerWidth)
    ensures var r := RunEntry(env, e, width);
      && (r.faulted ==> After(Idle, r.trace) == Holding(e.dll))
      && Tally(r.trace, Loads) == (if e.dll in env then 1 else 0)
      && Tally(r.trace, Frees) == (if e.dll in env && !r.faulted then 1 else 0)
  {
    if e.dll in env {
      TallyAppend([Load(e.dll)], [Free(e.dll)], Loads);
      TallyAppend([Load(e.dll)], [Free(e.dll)], Frees);
      assert [Load(e.dll)] + [Free(e.dll)] == [Load(e.dll), Free(e.dll)];
      if Ready(env, e) {
        var loop := LoopFor(env, e, width);
        var mapped := [Load(e.dll)] + loop.trace;
        Bracket(e.dll, loop.trace);
        TallyAppend([Load(e.dll)], loop.trace, Loads);
        TallyAppend([Load(e.dll)], loop.trace, Frees);
        TallyAppend(mapped, [Free(e.dll)], Loads);
        TallyAppend(mapped, [Free(e.dll)], Frees);
      }
    }
  }

  /** The factory side of one entry: no call unless both symbols resolve
      and the descriptors come back, and then exactly one per counted record
      unless a fault cuts the loop short. */
  lemma RunEntryCalls(env: Env, e: EntityEntry, width: PointerWidth)
    ensures var r := RunEntry(env, e, width);
      && (!Ready(env, e) ==> Tally(r.trace, Calls) == 0 && !r.faulted)
      && (Ready(env, e) && !r.faulted ==> Tally(r.trace, Calls) == ActualCount(AnswerFor(env, e), width))
      && (Ready(env, e) ==> (r.faulted <==> LoopFor(env, e, width).faulted))
  {
    if e.dll in env {
      TallyAppend([Load(e.dll)], [Free(e.dll)], Calls);
      assert [Load(e.dll)] + [Free(e.dll)] == [Load(e.dll), Free(e.dll)];
      if Ready(env, e) {
        var loop := LoopFor(env, e, width);
        var mapped := [Load(e.dll)] + loop.trace;
        TallyAppend([Load(e.dll)], loop.trace, Calls);
        TallyAppend(mapped, [Free(e.dll)], Calls);
      }
    }
  }

  /** How the run ends: with the function's return code, or with the
      process killed by an uncontained fault. */
  datatype Termination = Exited(code: int) | ProcessFault

  datatype RunReport = RunReport(end: Termination, trace: seq<Event>)

  /** Folds the entry reports in table order: the first faulted report ends
      the process and drops everything after it; otherwise the code is 0
      exactly when every report passed. */
  function Combine(reports: seq<StepReport>): (r: RunReport)
    requires forall i :: 0 <= i < |reports| ==> reports[i].faulted || Disciplined(reports[i].trace)
    ensures r.end == Exited(0) <==> forall i :: 0 <= i < |reports| ==> reports[i].ok && !reports[i].faulted
    ensures r.end.Exited? ==> r.end.code == 0 || r.end.code == 1
    ensures r.end == ProcessFault <==> exists i :: 0 <= i < |reports| && reports[i].faulted
    ensures r.end.Exited? ==> Disciplined(r.trace)
  {
    if reports == [] then RunReport(Exited(0), [])
    else
      var first := reports[0];
      if first.faulted then RunReport(ProcessFault, first.trace)
      else
        var rest := Combine(reports[1..]);
        assert forall i :: 0 < i < |reports| ==> reports[i] == reports[1..][i - 1];
        var code := if first.ok && rest.end == Exited(0) then Exited(0)
                    else if rest.end == ProcessFault then ProcessFault
                    else Exited(1);
        assert code == Exited(0) <==> forall i :: 0 <= i < |reports| ==> reports[i].ok && !reports[i].faulted by {
          if code != Exited(0) && first.ok {
            var k :| 0 <= k < |reports| - 1 && !(reports[1..][k].ok && !reports[1..][k].faulted);
            assert reports[k + 1] == reports[1..][k];
          }
        }
        assert code == ProcessFault <==> exists i :: 0 <= i < |reports| && reports[i].faulted by {
          if code == ProcessFault {
            var k :| 0 <= k < |reports| - 1 && reports[1..][k].faulted;
            assert reports[k + 1] == reports[1..][k];
          }
        }
        if code.Exited? then
          DisciplinedAppend(first.trace, rest.trace);
          RunReport(code, first.trace + rest.trace)
        else
          RunReport(code, first.trace + rest.trace)
  }

  /** The loop over the entity table: each entry is run in order and the
      reports are folded by Combine. */
  function RunEntries(env: Env, entries: seq<EntityEntry>, width: PointerWidth): (r: RunReport)
    ensures r.end == Exited(0) <==> forall i :: 0 <= i < |entries| ==> EntryPasses(env, entries[i], width)
    ensures r.end.Exited? ==> r.end.code == 0 || r.end.code == 1
    ensures r.end.Exited? ==> Disciplined(r.trace)
    ensures r.end == ProcessFault <==> exists i :: 0 <= i < |entries| && RunEntry(env, entries[i], width).faulted
  {
    var reports := seq(|entries|, i requires 0 <= i < |entries| => RunEntry(env, entries[i], width));
    forall i | 0 <= i < |entries|
      ensures reports[i] == RunEntry(env, entries[i], width)
      ensures reports[i].ok && !reports[i].faulted <==> EntryPasses(env, entries[i], width)
      ensures !reports[i].faulted ==> Disciplined(reports[i].trace)
    {
    }
    Combine(reports)
  }

  /** Run_Entity_Validation_Tests: returns 0 exactly when every entry
      passes, and 1 when an entry fails without a fault ending the process. */
  function RunEntityValidationTests(env: Env, entries: seq<EntityEntry>, width: PointerWidth): (r: Termination)
    ensures r == Exited(0) <==> forall e :: e in entries ==> EntryPasses(env, e, width)
    ensures r.Exited? ==> r.code == 0 || r.code == 1
  {
    RunEntries(env, entries, width).end
  }
}

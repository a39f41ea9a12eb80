/** The older creation test: for every module of the creation table, load
    it once, and for each of its entries resolve the descriptor and factory
    exports, walk the extended `TFilter_Descriptor` records the descriptor
    export returns and create one entity per record. Each factory call and
    the release of what it created run inside a fault boundary, so a fault
    fails that record only and the scan goes on. When the entry needs an
    input, a heap dummy signal is allocated before the call and released by
    the harness after it. There is no expected count on this path. */
module CreateTests {
  import opened Platform
  import opened Harness
  import Layouts
  import TestUtils
  import RefCount

  datatype CreateEntry = CreateEntry(
    createSymbol: string, descriptorSymbol: string, kind: EntityKind, needsSignal: bool)

  datatype DllCreateMap = DllCreateMap(dll: string, entries: seq<CreateEntry>)

  /** The name shown for a record: its own text, up to the first NUL that
      `wcslen` and the stream stop at, when the pointer is non-null and
      that text non-empty; otherwise the canonical 8-4-4-4-12 text of its
      GUID, from which the GUID can be read back. */
  function DisplayName(rec: DescriptorRecord): (name: string)
    ensures rec.name.Some? && TestUtils.UpToNul(rec.name.value) != [] ==> name == TestUtils.UpToNul(rec.name.value)
    ensures rec.name.None? || TestUtils.UpToNul(rec.name.value) == [] ==> TestUtils.ParseGuid(name) == Some(rec.id)
  {
    if rec.name.Some? && |TestUtils.UpToNul(rec.name.value)| > 0 then TestUtils.UpToNul(rec.name.value)
    else
      TestUtils.GuidTextRoundTrip(rec.id);
      TestUtils.GuidToWString(rec.id)
  }

  /** The result of Create_Single_Entity: its status, the events it caused
      in the module and, when a dummy was allocated, the dummy after the
      harness's own Release. */
  datatype SingleReport = SingleReport(status: int, trace: seq<Event>, dummy: Option<RefCount.Dummy>)

  /** One guarded creation. A fault inside the factory or inside the
      entity's Release is caught and reported as status 1, like a failed
      status or a null entity; only a created entity is released. The
      dummy starts with one reference, the foreign side may keep more, and
      the harness drops its own reference at the end. */
  function CreateSingleEntity(o: CallOutcome, id: Guid, name: string, needsDummy: bool): (r: SingleReport)
    ensures r.status == 0 || r.status == 1
    ensures r.status == 0 <==> StepOk(o)
    ensures ModuleLocal(r.trace)
    ensures r.dummy.Some? <==> needsDummy
    ensures r.dummy.Some? ==> (r.dummy.value.destroyed <==> o.retained == 0)
    ensures r.dummy.Some? ==> r.dummy.value.count == o.retained
    ensures |r.trace| >= 1 && r.trace[0] == Call(id, name, needsDummy)
    ensures Tally(r.trace, Calls) == 1
    ensures Tally(r.trace, EntityReleases) == (if Created(o) then 1 else 0)
  {
    var call := Call(id, name, needsDummy);
    var (guarded, status) :=
      match o
      case Faulted(_) => ([call], 1)
      case Returned(_, hr, created, releaseFaults) =>
        if Failed(hr) then ([call], 1)
        else if !created then ([call], 1)
        else ([call, ReleaseEntity(id)], if releaseFaults then 1 else 0);
    TallyAppend([call], [ReleaseEntity(id)], Loads);
    TallyAppend([call], [ReleaseEntity(id)], Frees);
    assert [call] + [ReleaseEntity(id)] == [call, ReleaseEntity(id)];
    if needsDummy then
      SingleReport(status, guarded, Some(RefCount.Release(RefCount.Retain(o.retained)).obj))
    else
      SingleReport(status, guarded, None)
  }

  /** The number of records the `ptr != end` loop visits: the whole
      extended records between `begin` and `end`. */
  function Iterations(a: DescriptorAnswer, width: PointerWidth): (n: nat)
    ensures a.begin <= a.end ==>
      var size := Layouts.ExtendedRecordSize(width);
      n * size <= a.end - a.begin < (n + 1) * size
    ensures a.end <= a.begin ==> n == 0
  {
    if a.begin <= a.end then (a.end - a.begin) / Layouts.ExtendedRecordSize(width) else 0
  }

  datatype ScanReport = ScanReport(ok: bool, trace: seq<Event>)

  /** Records `i` to `n - 1` of one entry, each through a guarded
      creation. A fault never stops the scan, so every record gets its
      factory call. */
  function ScanRecords(f: Factory, a: DescriptorAnswer, needsSignal: bool, i: nat, n: nat): (r: ScanReport)
    requires i <= n
    ensures r.ok <==> AllCreated(f, a, needsSignal, i, n)
    ensures ModuleLocal(r.trace)
    ensures Tally(r.trace, Calls) == n - i
    decreases n - i
  {
    if i == n then ScanReport(true, [])
    else
      var rec := RecordAt(a, i);
      var single := CreateSingleEntity(OutcomeAt(f, a, needsSignal, i), rec.id, DisplayName(rec), needsSignal);
      var rest := ScanRecords(f, a, needsSignal, i + 1, n);
      LocalAppend(single.trace, rest.trace);
      TallyAppend(single.trace, rest.trace, Calls);
      ScanReport(single.status == 0 && rest.ok, single.trace + rest.trace)
  }

  /** Both exports of an entry resolve in the loaded module and the
      descriptor export answers usably. */
  predicate EntryReady(m: Module, c: CreateEntry)
  {
    && TestUtils.Narrow(c.descriptorSymbol) in m.descriptorFns
    && TestUtils.Narrow(c.createSymbol) in m.factories
    && UsableAnswer(m.descriptorFns[TestUtils.Narrow(c.descriptorSymbol)])
  }

  /** What the source counts as success for one entry: it is ready and
      every record it reports yields an entity that is created and released
      cleanly. No count is compared. */
  predicate EntryPasses(m: Module, c: CreateEntry, width: PointerWidth)
  {
    && EntryReady(m, c)
    && var a := m.descriptorFns[TestUtils.Narrow(c.descriptorSymbol)];
       var f := m.factories[TestUtils.Narrow(c.createSymbol)];
       forall j :: 0 <= j < Iterations(a, width) ==> StepOk(OutcomeAt(f, a, c.needsSignal, j))
  }

  /** One entry inside a loaded module; a missing symbol or unusable
      descriptors fail the entry with no call and leave the module mapped. */
  function RunEntry(m: Module, c: CreateEntry, width: PointerWidth): (r: ScanReport)
    ensures r.ok <==> EntryPasses(m, c, width)
    ensures ModuleLocal(r.trace)
    ensures Tally(r.trace, Calls) ==
      if EntryReady(m, c) then Iterations(m.descriptorFns[TestUtils.Narrow(c.descriptorSymbol)], width) else 0
  {
    if !EntryReady(m, c) then ScanReport(false, [])
    else
      var a := m.descriptorFns[TestUtils.Narrow(c.descriptorSymbol)];
      var f := m.factories[TestUtils.Narrow(c.createSymbol)];
      AllCreatedMeansEvery(f, a, c.needsSignal, 0, Iterations(a, width));
      ScanRecords(f, a, c.needsSignal, 0, Iterations(a, width))
  }

  /** With no expected count, an entry whose descriptor export reports an
      empty table passes without calling the factory. */
  lemma EmptyTablePasses(m: Module, c: CreateEntry, width: PointerWidth)
    requires EntryReady(m, c)
    requires m.descriptorFns[TestUtils.Narrow(c.descriptorSymbol)].begin
          == m.descriptorFns[TestUtils.Narrow(c.descriptorSymbol)].end
    ensures RunEntry(m, c, width).ok
    ensures Tally(RunEntry(m, c, width).trace, Calls) == 0
  {
  }

  /** The entries of one module, in table order; a failed entry does not
      stop the later ones. */
  function RunEntries(m: Module, entries: seq<CreateEntry>, width: PointerWidth): (r: ScanReport)
    ensures r.ok <==> forall k :: 0 <= k < |entries| ==> EntryPasses(m, entries[k], width)
    ensures ModuleLocal(r.trace)
  {
    if entries == [] then ScanReport(true, [])
    else
      var first := RunEntry(m, entries[0], width);
      var rest := RunEntries(m, entries[1..], width);
      LocalAppend(first.trace, rest.trace);
      assert forall k :: 0 < k < |entries| ==> entries[k] == entries[1..][k - 1];
      ScanReport(first.ok && rest.ok, first.trace + rest.trace)
  }

  /** What the source counts as success for one module: it loads and every
      entry passes. */
  predicate DllPasses(env: Env, d: DllCreateMap, width: PointerWidth)
  {
    d.dll in env && forall k :: 0 <= k < |d.entries| ==> EntryPasses(env[d.dll], d.entries[k], width)
  }

  /** One module: a module that does not load fails with no events;
      otherwise it is loaded once, all its entries run, and it is freed
      once, whatever the entries did. */
  function RunDll(env: Env, d: DllCreateMap, width: PointerWidth): (r: ScanReport)
    ensures r.ok <==> DllPasses(env, d, width)
    ensures Disciplined(r.trace)
    ensures Tally(r.trace, Loads) == (if d.dll in env then 1 else 0)
    ensures Tally(r.trace, Frees) == (if d.dll in env then 1 else 0)
  {
    if d.dll !in env then ScanReport(false, [])
    else
      var inner := RunEntries(env[d.dll], d.entries, width);
      Bracket(d.dll, inner.trace);
      TallyAppend3([Load(d.dll)], inner.trace, [Free(d.dll)], Loads);
      TallyAppend3([Load(d.dll)], inner.trace, [Free(d.dll)], Frees);
      ScanReport(inner.ok, [Load(d.dll)] + inner.trace + [Free(d.dll)])
  }

  datatype RunResult = RunResult(code: int, trace: seq<Event>)

  /** Run_Create_Tests over the creation table: 0 exactly when every module
      loads and every entry of every module passes, 1 otherwise. */
  function RunCreateTests(env: Env, dlls: seq<DllCreateMap>, width: PointerWidth): (r: RunResult)
    ensures r.code == 0 || r.code == 1
    ensures r.code == 0 <==> forall k :: 0 <= k < |dlls| ==> DllPasses(env, dlls[k], width)
    ensures Disciplined(r.trace)
  {
    if dlls == [] then RunResult(0, [])
    else
      var first := RunDll(env, dlls[0], width);
      var rest := RunCreateTests(env, dlls[1..], width);
      DisciplinedAppend(first.trace, rest.trace);
      assert forall k :: 0 < k < |dlls| ==> dlls[k] == dlls[1..][k - 1];
      RunResult(if first.ok && rest.code == 0 then 0 else 1, first.trace + rest.trace)
  }
}

/** The world a validation test runs in, and what it does to that world.
    Loadable modules, their exports and their factories are given as data
    (the foreign code is an oracle); the test's effects on module handles,
    factories and created entities are recorded as a trace of events, over which the exactly-once claims are stated. */
module Harness {
  import opened Platform

  /** One descriptor record as read from module memory; `name` is None for
      a null name pointer. */
  datatype DescriptorRecord = DescriptorRecord(id: Guid, name: Option<string>)

  /** What a descriptor export answers: a status, the `[begin, end)` byte
      addresses of its table (0 is null) and the `i`-th record of the array
      that starts at `begin`. */
  datatype DescriptorAnswer = DescriptorAnswer(
    hr: HResult, begin: nat, end: nat, records: nat -> DescriptorRecord)

  /** The answers of one factory call. `Faulted` is a hardware fault or
      foreign exception inside the call; `Returned` gives the status,
      whether the out-pointer is non-null, and whether the created entity
      faults when released. `retained` is the number of references to the
      input object the foreign side keeps. */
  datatype CallOutcome =
    | Faulted(retained: u32)
    | Returned(retained: u32, hr: HResult, created: bool, releaseFaults: bool)

  /** A factory export: the outcome of its `ordinal`-th call in a scan, for
      a GUID, with or without an input object. */
  type Factory = (nat, Guid, bool) -> CallOutcome

  /** The exports of a loadable module, by exact (narrow) symbol name. */
  datatype Module = Module(
    descriptorFns: map<string, DescriptorAnswer>,
    factories: map<string, Factory>)

  /** The modules that load successfully, by file name. */
  type Env = map<string, Module>

  /** A factory whose status and pointer are valid: succeeded and non-null. */
  predicate Created(o: CallOutcome)
  {
    o.Returned? && !Failed(o.hr) && o.created
  }

  /** Descriptor export answered usably: success and non-null bounds. */
  predicate UsableAnswer(a: DescriptorAnswer)
  {
    !Failed(a.hr) && a.begin != 0 && a.end != 0
  }

  /** The entity families a factory export can create. */
  datatype EntityKind = Filter | Signal | Model | DiscreteModel | Approx | Solver | Metric

  /** The record of the `i`-th iteration. */
  function RecordAt(a: DescriptorAnswer, i: nat): DescriptorRecord
  {
    a.records(i)
  }

  /** The factory's answer in the `i`-th iteration. */
  function OutcomeAt(f: Factory, a: DescriptorAnswer, needsSignal: bool, i: nat): CallOutcome
  {
    f(i, RecordAt(a, i).id, needsSignal)
  }

  /** An iteration passes when an entity was created and released cleanly. */
  predicate StepOk(o: CallOutcome)
  {
    Created(o) && !o.releaseFaults
  }

  /** An iteration faults inside the factory or inside the entity's Release. */
  predicate StepFaults(o: CallOutcome)
  {
    o.Faulted? || (Created(o) && o.releaseFaults)
  }

  /** Every iteration from `i` to `n - 1` creates and releases its entity
      cleanly. */
  predicate AllCreated(f: Factory, a: DescriptorAnswer, needsSignal: bool, i: nat, n: nat)
    decreases n - i
  {
    i >= n || (StepOk(OutcomeAt(f, a, needsSignal, i)) && AllCreated(f, a, needsSignal, i + 1, n))
  }

  lemma {:induction false} AllCreatedMeansEvery(f: Factory, a: DescriptorAnswer, needsSignal: bool, i: nat, n: nat)
    ensures AllCreated(f, a, needsSignal, i, n) <==> forall j :: i <= j < n ==> StepOk(OutcomeAt(f, a, needsSignal, j))
    decreases n - i
  {
    if i < n {
      AllCreatedMeansEvery(f, a, needsSignal, i + 1, n);
    }
  }

  datatype Event =
    | Load(dll: string)
    | Free(dll: string)
    | Call(id: Guid, name: string, withInput: bool)
    | ReleaseEntity(id: Guid)

  datatype EventClass = Loads | Frees | Calls | EntityReleases

  function ClassOf(e: Event): EventClass
  {
    match e
    case Load(_) => Loads
    case Free(_) => Frees
    case Call(_, _, _) => Calls
    case ReleaseEntity(_) => EntityReleases
  }

  /** Number of events of one class. */
  function Tally(t: seq<Event>, c: EventClass): (n: nat)
    ensures n <= |t|
  {
    if t == [] then 0 else (if ClassOf(t[0]) == c then 1 else 0) + Tally(t[1..], c)
  }

  lemma {:induction false} TallyAppend(a: seq<Event>, b: seq<Event>, c: EventClass)
    ensures Tally(a + b, c) == Tally(a, c) + Tally(b, c)
    decreases |a|
  {
    if a == [] {
      assert a + b == b;
    } else {
      assert (a + b)[0] == a[0] && (a + b)[1..] == a[1..] + b;
      TallyAppend(a[1..], b, c);
    }
  }

  /** Tally over the concatenation of three traces. */
  lemma TallyAppend3(a: seq<Event>, b: seq<Event>, d: seq<Event>, c: EventClass)
    ensures Tally(a + b + d, c) == Tally(a, c) + Tally(b, c) + Tally(d, c)
  {
    TallyAppend(a + b, d, c);
    TallyAppend(a, b, c);
  }

  /** No module is loaded or freed inside this part of the trace. */
  predicate ModuleLocal(t: seq<Event>)
  {
    Tally(t, Loads) == 0 && Tally(t, Frees) == 0
  }

  lemma LocalAppend(a: seq<Event>, b: seq<Event>)
    requires ModuleLocal(a) && ModuleLocal(b)
    ensures ModuleLocal(a + b)
  {
    TallyAppend(a, b, Loads);
    TallyAppend(a, b, Frees);
  }

  /** The module handle state along a trace: no module, one held module, or
      a broken discipline (a second load, a free of a module not held, or a
      foreign call with no module mapped). */
  datatype HandleState = Idle | Holding(dll: string) | Violated

  function Step(h: HandleState, e: Event): HandleState
  {
    match e
    case Load(d) => if h == Idle then Holding(d) else Violated
    case Free(d) => if h == Holding(d) then Idle else Violated
    case Call(_, _, _) => if h.Holding? then h else Violated
    case ReleaseEntity(_) => if h.Holding? then h else Violated
  }

  function After(h: HandleState, t: seq<Event>): HandleState
    decreases |t|
  {
    if t == [] then h else After(Step(h, t[0]), t[1..])
  }

  /** Every module loaded is freed exactly once before the next load and
      before the trace ends, and foreign calls happen only while a module
      is mapped. */
  predicate Disciplined(t: seq<Event>)
  {
    After(Idle, t) == Idle
  }

  lemma {:induction false} AfterAppend(h: HandleState, a: seq<Event>, b: seq<Event>)
    ensures After(h, a + b) == After(After(h, a), b)
    decreases |a|
  {
    if a == [] {
      assert a + b == b;
    } else {
      assert (a + b)[0] == a[0] && (a + b)[1..] == a[1..] + b;
      AfterAppend(Step(h, a[0]), a[1..], b);
    }
  }

  lemma DisciplinedAppend(a: seq<Event>, b: seq<Event>)
    requires Disciplined(a) && Disciplined(b)
    ensures Disciplined(a + b)
  {
    AfterAppend(Idle, a, b);
  }

  /** Module-local events leave a held module held. */
  lemma {:induction false} LocalKeepsHolding(d: string, t: seq<Event>)
    requires ModuleLocal(t)
    ensures After(Holding(d), t) == Holding(d)
    decreases |t|
  {
    if t != [] {
      assert ClassOf(t[0]) != Loads && ClassOf(t[0]) != Frees;
      LocalKeepsHolding(d, t[1..]);
    }
  }

  /** Loading a module, doing module-local work and freeing it is
      disciplined. */
  lemma Bracket(d: string, inner: seq<Event>)
    requires ModuleLocal(inner)
    ensures Disciplined([Load(d)] + inner + [Free(d)])
    ensures After(Idle, [Load(d)] + inner) == Holding(d)
  {
    LocalKeepsHolding(d, inner);
    AfterAppend(Idle, [Load(d)], inner);
    AfterAppend(Idle, [Load(d)] + inner, [Free(d)]);
  }

  /** In a disciplined trace each module is freed as many times as it is
      loaded; a trace cut off while holding `d` has one free fewer. */
  lemma {:induction false} HoldingBalance(h: HandleState, t: seq<Event>, d: string)
    requires After(h, t) == Idle || After(h, t).Holding?
    ensures h != Violated
    ensures multiset(t)[Load(d)] + (if h == Holding(d) then 1 else 0)
         == multiset(t)[Free(d)] + (if After(h, t) == Holding(d) then 1 else 0)
    decreases |t|
  {
    if t == [] {
    } else {
      assert t == [t[0]] + t[1..];
      HoldingBalance(Step(h, t[0]), t[1..], d);
    }
  }

  lemma LoadsMatchFrees(t: seq<Event>, d: string)
    requires Disciplined(t)
    ensures multiset(t)[Load(d)] == multiset(t)[Free(d)]
  {
    HoldingBalance(Idle, t, d);
  }
}

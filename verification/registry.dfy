/** The harness's static tables (which modules are checked, through which
    exports, with which expectations) and how the three tests' record sizes
    for filters compare. */
module Registry {
  import opened Platform
  import opened Harness
  import Layouts
  import DescriptorTests
  import EntityValidation
  import CreateTests

  /** The expectation table of the descriptor-count test, grouped by export. */
  const DescriptorTable: seq<DescriptorTests.DescriptorGroup> := [
    DescriptorTests.DescriptorGroup(DescriptorTests.Filter, "do_get_filter_descriptors", [
      ("log.dll", 2), ("data.dll", 6), ("model.dll", 1), ("drawing.dll", 1),
      ("drawing_v2.dll", 1), ("metric.dll", 5), ("native.dll", 1),
      ("controllers.dll", 2), ("signal.dll", 11), ("approx.dll", 0),
      ("stochastic.dll", 0), ("icarus.dll", 0), ("matlab.dll", 0)]),
    DescriptorTests.DescriptorGroup(DescriptorTests.Solver, "do_get_solver_descriptors", [
      ("stochastic.dll", 30), ("approx.dll", 0), ("data.dll", 0),
      ("drawing.dll", 0), ("icarus.dll", 0), ("matlab.dll", 0)]),
    DescriptorTests.DescriptorGroup(DescriptorTests.Model, "do_get_model_descriptors", [
      ("controllers.dll", 12), ("data.dll", 0), ("drawing_v2.dll", 0),
      ("icarus.dll", 5), ("matlab.dll", 0), ("model.dll", 30), ("native.dll", 1)]),
    DescriptorTests.DescriptorGroup(DescriptorTests.Signal, "do_get_signal_descriptors", [
      ("controllers.dll", 8), ("data.dll", 0), ("drawing.dll", 0),
      ("icarus.dll", 0), ("matlab.dll", 0), ("metric.dll", 0),
      ("model.dll", 40), ("signal.dll", 24)]),
    DescriptorTests.DescriptorGroup(DescriptorTests.Approx, "do_get_approximator_descriptors", [
      ("approx.dll", 4), ("data.dll", 0), ("drawing_v2.dll", 0),
      ("icarus.dll", 0), ("matlab.dll", 0)]),
    DescriptorTests.DescriptorGroup(DescriptorTests.Metric, "do_get_metric_descriptors", [
      ("metric.dll", 21), ("data.dll", 0), ("icarus.dll", 0)])
  ]

  /** The entry table of the entity validation test. */
  const EntityTable: seq<EntityValidation.EntityEntry> := [
    EntityValidation.EntityEntry("log.dll", "do_get_filter_descriptors", "do_create_filter", Filter, true, 6),
    EntityValidation.EntityEntry("data.dll", "do_get_filter_descriptors", "do_create_filter", Filter, true, 6),
    EntityValidation.EntityEntry("model.dll", "do_get_filter_descriptors", "do_create_filter", Filter, true, 1),
    EntityValidation.EntityEntry("drawing.dll", "do_get_filter_descriptors", "do_create_filter", Filter, true, 1),
    EntityValidation.EntityEntry("drawing_v2.dll", "do_get_filter_descriptors", "do_create_filter", Filter, true, 1),
    EntityValidation.EntityEntry("metric.dll", "do_get_filter_descriptors", "do_create_filter", Filter, true, 5),
    EntityValidation.EntityEntry("native.dll", "do_get_filter_descriptors", "do_create_filter", Filter, true, 1),
    EntityValidation.EntityEntry("controllers.dll", "do_get_filter_descriptors", "do_create_filter", Filter, true, 2),
    EntityValidation.EntityEntry("signal.dll", "do_get_filter_descriptors", "do_create_filter", Filter, true, 11),
    EntityValidation.EntityEntry("stochastic.dll", "do_get_solver_descriptors", "do_solve_generic", Solver, false, 30),
    EntityValidation.EntityEntry("controllers.dll", "do_get_model_descriptors", "do_create_discrete_model", DiscreteModel, false, 12),
    EntityValidation.EntityEntry("icarus.dll", "do_get_model_descriptors", "do_create_discrete_model", DiscreteModel, false, 5),
    EntityValidation.EntityEntry("model.dll", "do_get_model_descriptors", "do_create_discrete_model", DiscreteModel, false, 30),
    EntityValidation.EntityEntry("native.dll", "do_get_model_descriptors", "do_create_discrete_model", DiscreteModel, false, 1),
    EntityValidation.EntityEntry("controllers.dll", "do_get_signal_descriptors", "do_create_signal", Signal, false, 8),
    EntityValidation.EntityEntry("model.dll", "do_get_signal_descriptors", "do_create_signal", Signal, false, 40),
    EntityValidation.EntityEntry("signal.dll", "do_get_signal_descriptors", "do_create_signal", Signal, false, 24),
    EntityValidation.EntityEntry("approx.dll", "do_get_approximator_descriptors", "do_create_approximator", Approx, true, 4),
    EntityValidation.EntityEntry("metric.dll", "do_get_metric_descriptors", "do_create_metric", Metric, true, 21)
  ]

  /** The module table of the creation test. */
  const CreateTable: seq<CreateTests.DllCreateMap> := [
    CreateTests.DllCreateMap("log.dll", [CreateTests.CreateEntry("do_create_filter", "do_get_filter_descriptors", Filter, true)]),
    CreateTests.DllCreateMap("controllers.dll", [
      CreateTests.CreateEntry("do_create_signal", "do_get_signal_descriptors", Signal, false),
      CreateTests.CreateEntry("do_create_filter", "do_get_filter_descriptors", Filter, true)]),
    CreateTests.DllCreateMap("data.dll", [CreateTests.CreateEntry("do_create_filter", "do_get_filter_descriptors", Filter, true)]),
    CreateTests.DllCreateMap("drawing.dll", [CreateTests.CreateEntry("do_create_filter", "do_get_filter_descriptors", Filter, true)]),
    CreateTests.DllCreateMap("drawing_v2.dll", [CreateTests.CreateEntry("do_create_filter", "do_get_filter_descriptors", Filter, true)]),
    CreateTests.DllCreateMap("icarus.dll", [CreateTests.CreateEntry("do_create_discrete_model", "do_get_model_descriptors", DiscreteModel, false)]),
    CreateTests.DllCreateMap("matlab.dll", [CreateTests.CreateEntry("do_create_signal", "do_get_signal_descriptors", Signal, false)]),
    CreateTests.DllCreateMap("metric.dll", [
      CreateTests.CreateEntry("do_create_metric", "do_get_metric_descriptors", Metric, true),
      CreateTests.CreateEntry("do_create_filter", "do_get_filter_descriptors", Filter, true)]),
    CreateTests.DllCreateMap("model.dll", [
      CreateTests.CreateEntry("do_create_signal", "do_get_signal_descriptors", Signal, false),
      CreateTests.CreateEntry("do_create_discrete_model", "do_get_model_descriptors", DiscreteModel, false),
      CreateTests.CreateEntry("do_create_filter", "do_get_filter_descriptors", Filter, true)]),
    CreateTests.DllCreateMap("native.dll", [CreateTests.CreateEntry("do_create_filter", "do_get_filter_descriptors", Filter, true)]),
    CreateTests.DllCreateMap("signal.dll", [
      CreateTests.CreateEntry("do_create_signal", "do_get_signal_descriptors", Signal, false),
      CreateTests.CreateEntry("do_create_filter", "do_get_filter_descriptors", Filter, true)]),
    CreateTests.DllCreateMap("approx.dll", [CreateTests.CreateEntry("do_create_approximator", "do_get_approximator_descriptors", Approx, true)])
  ]

  /** Every group of the descriptor-count table names each module once. */
  lemma DescriptorTableHasNoRepeats()
    ensures forall k :: 0 <= k < |DescriptorTable| ==> DescriptorTests.DistinctModules(DescriptorTable[k])
  {
  }

  /** The three tests read a filter table with three different record
      sizes: eight pointers, `{GUID, pointer}` and the nine-field extended
      record. No two agree on either pointer width. */
  lemma FilterStridesDiffer(width: PointerWidth)
    ensures DescriptorTests.Stride(DescriptorTests.Filter, width) != Layouts.PairRecordSize(width)
    ensures DescriptorTests.Stride(DescriptorTests.Filter, width) != Layouts.ExtendedRecordSize(width)
    ensures Layouts.PairRecordSize(width) != Layouts.ExtendedRecordSize(width)
  {
  }

  /** A filter table of `n` whole `{GUID, pointer}` records, which the
      entity validation test counts as `n`, is counted as fewer by the
      descriptor-count test. */
  lemma PairTableUndercounted(width: PointerWidth, n: nat)
    requires n >= 1
    ensures DescriptorTests.RecordCount(n * Layouts.PairRecordSize(width), DescriptorTests.Stride(DescriptorTests.Filter, width)) < n
  {
    var stride := DescriptorTests.Stride(DescriptorTests.Filter, width);
    var k := DescriptorTests.RecordCount(n * Layouts.PairRecordSize(width), stride);
    assert k * stride <= n * (16 + width);
    assert 16 + width < stride;
  }

  /** A multiple of `m` strictly between `-m` and `m` is 0. */
  lemma SmallMultiple(c: int, m: int)
    requires m > 0 && -m < c * m < m
    ensures c == 0
  {
  }

  /** A distance whose rounded-toward-zero quotient by `size` is congruent
      to 6 modulo `m`, reduced modulo `m`, lies strictly between five and
      seven times `size`. */
  lemma WrappedSixRecords(d: int, q: int, size: int, m: int, bytes: int)
    requires 0 < size && 7 * size <= m
    requires -size < d - q * size < size
    requires (q - 6) % m == 0
    requires 0 <= bytes < m && (d - bytes) % m == 0
    ensures 5 * size < bytes < 7 * size
  {
    var r := d - q * size;
    var k := (q - 6) / m;
    var j := (d - bytes) / m;
    assert q - 6 == k * m;
    assert d - bytes == j * m;
    var t := k * size;
    assert (q - 6) * size == t * m by {
      calc {
        (q - 6) * size;
        (k * m) * size;
        { assert (k * m) * size == k * (m * size) == k * (size * m) == (k * size) * m; }
        t * m;
      }
    }
    assert bytes - (6 * size + r) == (t - j) * m;
    SmallMultiple(t - j, m);
  }

  /** A byte distance that the entity validation test counts as six
      `{GUID, name}` records is never counted as six records by the
      descriptor-count test's eight-pointer filter stride, whatever the
      wrap-around of the distance. */
  lemma SixPairsAreNotSixFilters(d: int, width: PointerWidth)
    requires ToSize(TruncDiv(d, Layouts.PairRecordSize(width)), width) == 6
    ensures DescriptorTests.RecordCount(ToSize(d, width), DescriptorTests.Stride(DescriptorTests.Filter, width)) != 6
  {
    var size := Layouts.PairRecordSize(width);
    var q := TruncDiv(d, size);
    var bytes := ToSize(d, width);
    WrappedSixRecords(d, q, size, SizeModulus(width), bytes);
  }

  /** The check of data.dll's filters in the descriptor-count table. */
  const DataFilterCheck := DescriptorTests.Check(DescriptorTests.Filter, "do_get_filter_descriptors", "data.dll", 6)

  lemma DataFilterChecked()
    ensures DataFilterCheck in DescriptorTests.Checks(DescriptorTable)
  {
    var g := DescriptorTable[0];
    assert g.dlls[1] == ("data.dll", 6);
    assert DescriptorTests.RowOf(g, DataFilterCheck);
  }

  /** A descriptor-count run that returns 0 passes each of its checks. */
  lemma DescriptorRunPassesCheck(env: Env, groups: seq<DescriptorTests.DescriptorGroup>, c: DescriptorTests.Check, width: PointerWidth)
    requires c in DescriptorTests.Checks(groups)
    requires DescriptorTests.RunDescriptorTests(env, groups, width) == 0
    ensures DescriptorTests.Passes(env, c, width)
  {
  }

  /** data.dll's filter entry in the entity validation table. */
  const DataFilterEntry := EntityValidation.EntityEntry("data.dll", "do_get_filter_descriptors", "do_create_filter", Filter, true, 6)

  lemma DataFilterEntered()
    ensures DataFilterEntry in EntityTable
  {
    assert EntityTable[1] == DataFilterEntry;
  }

  /** data.dll is expected to report six filters by both the descriptor-count
      table and the entity validation table, but the two tests measure its
      table with different record sizes: the two tests never both return 0
      over their own tables. */
  lemma DataFilterExpectationsConflict(env: Env, width: PointerWidth)
    ensures !(DescriptorTests.RunDescriptorTests(env, DescriptorTable, width) == 0
              && EntityValidation.RunEntityValidationTests(env, EntityTable, width) == EntityValidation.Exited(0))
  {
    if DescriptorTests.RunDescriptorTests(env, DescriptorTable, width) == 0
       && EntityValidation.RunEntityValidationTests(env, EntityTable, width) == EntityValidation.Exited(0) {
      DataFilterChecked();
      DataFilterEntered();
      DescriptorRunPassesCheck(env, DescriptorTable, DataFilterCheck, width);
      assert EntityValidation.EntryPasses(env, DataFilterEntry, width);
      SixFiltersCountedTwice(env, DataFilterEntry, DataFilterCheck, width);
    }
  }

  /** An entry and a filter check that query the same export of the same
      module, both expecting six records, cannot both pass: the two tests
      measure the same answer with different record sizes. */
  lemma SixFiltersCountedTwice(env: Env, e: EntityValidation.EntityEntry, c: DescriptorTests.Check, width: PointerWidth)
    requires e.dll == c.dll && e.descriptorSymbol == c.exportFunction
    requires e.expectedCount == 6 && c.expected == 6 && c.kind == DescriptorTests.Filter
    ensures !(DescriptorTests.Passes(env, c, width) && EntityValidation.EntryPasses(env, e, width))
  {
    if EntityValidation.EntryPasses(env, e, width) {
      var a := EntityValidation.AnswerFor(env, e);
      assert DescriptorTests.AnswerOf(env, c.dll, c.exportFunction) == a;
      SixPairsAreNotSixFilters(a.end - a.begin, width);
    }
  }

  /** The creation test over its table returns 0 only when every module
      of the table loads. */
  lemma CreateTableNeedsEveryModule(env: Env, width: PointerWidth)
    ensures CreateTests.RunCreateTests(env, CreateTable, width).code == 0 ==>
      forall k :: 0 <= k < |CreateTable| ==> CreateTable[k].dll in env
  {
  }
}

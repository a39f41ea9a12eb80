# Plugin validation harness — a Dafny model

This project models the Windows test harness that checks a directory of
plugin modules (`log.dll`, `signal.dll`, `model.dll`, …). Each module exports
descriptor functions and factory functions for its entity families: filters,
signals, models, approximators, solvers and metrics.

The harness has three validation tests and a runner:

- The **descriptor-count test** loads each module and calls one descriptor
  export. It turns the returned `[begin, end)` byte range into a record
  count with a stride for each kind, unloads the module, and compares the
  count with an expected table.
- The **entity validation test** loads each registry entry's module and
  resolves its descriptor and factory exports. It counts the
  `{GUID, name}` records and compares that count with the expected one.
  It then calls the factory once per record, handing in a dummy reference
  counted input when the entry needs one. For every entity created with a
  success status and a non-null pointer, the harness calls `Release` once
  through its `IDummyEntity` view, and the module is freed.
- The **creation test** walks the extended descriptor records of each
  entry of each module. It creates one entity per record inside a fault
  boundary, so a crash inside the factory call or the entity's Release
  fails only that record.
- The **runner** runs the registered tests in order. It counts the tests
  that return non-zero and exits with 1 if any failed, 0 otherwise.

The plugins are foreign code, so the model treats them as data:

- an environment maps each loadable module to its exports;
- a descriptor export is a status, two addresses and a record reader;
- a factory is an oracle that gives the outcome of its `i`-th call;
- `CallOutcome` covers a fault, the status, a null or non-null pointer,
  a fault in the entity's own Release, and the references to the input
  that the plugin keeps.

Every test returns a trace of events: `Load`, `Free`, factory `Call` and
`ReleaseEntity`. The claims about what happens exactly once are stated
over that trace. `Harness.Disciplined` is a state machine over the module
handle. It says every load is freed exactly once before the next load,
and that foreign calls only happen while a module is mapped.

The modules follow the source files:

- `Platform`: integers, HRESULT, GUID, pointer width, `size_t` wrap-around.
- `TestUtils`: `test_utils.h`.
- `RefCount`: the `DummySignal` IUnknown.
- `Layouts`: the record structs.
- `Harness`: shared world and event vocabulary.
- `DescriptorTests`: `test_descriptors.cpp`.
- `EntityValidation`: `test_descriptors_and_create.cpp`.
- `CreateTests`: `test_create_old.cpp`.
- `Registry`: the three static tables.
- `TestRunner`: `test_runner.cpp`.

Some behaviours of the code are worth stating plainly, since a reader might
expect otherwise:

- `tester/tests/test_descriptors.cpp:62-63` divides the byte count by the
  stride in `size_t`, so a trailing partial record is dropped and no range
  is rejected as malformed.
- `tester/tests/test_create_old.cpp:126-135` and
  `tester/tests/test_descriptors_and_create.cpp:152-158` release the created
  entity only when the status succeeded and the pointer is non-null. A
  failed status with a non-null pointer leaks the entity.
- Only `tester/tests/test_create_old.cpp:121-140` guards foreign calls with
  a fault handler. In `tester/tests/test_descriptors_and_create.cpp:142-159`
  a fault in a factory or in an entity's Release ends the process, with the
  current module still mapped.
- `tester/tests/test_create_old.cpp:186-196` compares no expected count, so
  an entry whose descriptor export reports an empty table passes.

## Model

| member | source | states |
|---|---|---|
| Platform.AsHResult | tester/tests/test_create_old.cpp:69-76 | An HRESULT constant written as an unsigned 32-bit pattern denotes the signed value congruent to it modulo 2^32. It is a failure (negative) exactly when its top bit is set. |
| Platform.ToSize | tester/tests/test_descriptors.cpp:62 | Storing a pointer difference in `size_t` yields a value below the `size_t` range that is congruent to the difference. A difference that is already in range is kept unchanged. |
| Platform.TruncDiv | tester/tests/test_descriptors_and_create.cpp:128 | Integer division that rounds toward zero: the remainder is below the divisor and has the sign of the dividend. For a distance that is a whole number of records it is the exact quotient that typed pointer subtraction gives. |
| TestUtils.UpToNul | tester/tests/test_utils.h:8 | A wide string passed with length -1 is read as the prefix before its first NUL. That prefix has no NUL, and a NUL follows it whenever the input is longer. |
| TestUtils.Narrow | tester/tests/test_utils.h:7-13 | The export name after the length query, the conversion and the pop of the terminator: the wide name up to its first NUL, with no NUL in it. A name without NUL is returned unchanged. |
| TestUtils.DigitValue | tester/tests/test_utils.h:18 | Every upper-case hex digit has a value below 16 that `%X` prints back as the same digit. |
| TestUtils.Hex | tester/tests/test_utils.h:18-19 | `%08lX` and `%04hX` of a value that fits give exactly `width` upper-case hex digits. |
| TestUtils.ParseHexOfHex | tester/tests/test_utils.h:18-19 | Reading back the digits `%0<width>X` printed gives the original value. |
| TestUtils.ByteText | tester/tests/test_utils.h:18-21 | `%02hhX` of a byte is two upper-case hex digits whose value is the byte. |
| TestUtils.HexBytes | tester/tests/test_utils.h:18-21 | The run of `%02hhX` conversions over `Data4` prints each byte's two digits at positions 2k and 2k+1, in index order. |
| TestUtils.Frame | tester/tests/test_utils.h:18 | The format's fixed characters surround the five digit groups: braces at the ends and dashes at 9, 14, 19 and 24, 38 characters in all. |
| TestUtils.GuidToWString | tester/tests/test_utils.h:15-23 | The text of every GUID is the canonical 8-4-4-4-12 text of 38 characters, which fits the 40-character buffer with its terminator. |
| TestUtils.ParseGuid | tester/tests/test_utils.h:15-23 | Reading a GUID back succeeds exactly on canonical 8-4-4-4-12 texts. |
| TestUtils.GuidGroups | tester/tests/test_utils.h:18-21 | Data1 fills positions 1-8 as 8 digits, and Data2 and Data3 fill 10-13 and 15-18 as 4 digits each. The first two bytes of Data4 form the fourth group and the other six the fifth. |
| TestUtils.ParseBytes | tester/tests/test_utils.h:18-21 | Reading pairs of upper-case hex digits back as bytes gives one byte per pair. |
| TestUtils.ParseBytesOfHexBytes | tester/tests/test_utils.h:18-21 | Reading back the digit pairs the `%02hhX` run printed gives the original bytes, in order. |
| TestUtils.GuidTextRoundTrip | tester/tests/test_utils.h:15-23 | Parsing the text of a GUID gives back the same GUID, including all eight bytes of Data4. |
| TestUtils.GuidTextInjective | tester/tests/test_utils.h:15-23 | Two different GUIDs never print as the same text, so the fallback name identifies its record. |
| RefCount.New | tester/tests/test_create_old.cpp:66 | A new dummy is alive and holds one reference, its creator's. |
| RefCount.AddRef | tester/tests/test_create_old.cpp:79-81 | AddRef raises the count by one, wrapping as a ULONG, returns the new count, and keeps the object alive. |
| RefCount.Release | tester/tests/test_create_old.cpp:83-87 | Release lowers the count by one, wrapping as a ULONG, and returns the new count. The object deletes itself exactly when that count is 0. |
| RefCount.QueryInterface | tester/tests/test_create_old.cpp:68-77 | A null out-pointer gives E_POINTER and writes nothing. IUnknown gives S_OK, writes the object and adds one reference. Any other IID writes null and gives E_NOINTERFACE. Success holds exactly when the object was written. |
| RefCount.NestedOpsKeepObjectAlive | tester/tests/test_create_old.cpp:79-87 | AddRef/Release sequences that never drop the count to 0 leave the object alive. Its count is then the start count plus the net number of references. |
| RefCount.BalancedUseThenReleaseDestroys | tester/tests/test_create_old.cpp:114-142 | After balanced foreign use, the dummy still holds only its creator's reference. The creator's single Release then destroys it, with no use after free. |
| RefCount.RunAppend | tester/tests/test_create_old.cpp:79-87 | Running two sequences of reference operations one after the other equals running their concatenation. |
| RefCount.AddRefs | tester/tests/test_create_old.cpp:79-81 | A run of k foreign AddRef calls: k operations, all AddRef, with a net gain of k references. |
| RefCount.AddRefsRaise | tester/tests/test_create_old.cpp:79-81 | AddRef calls on a live object never delete it. k of them raise its count by k, modulo 2^32. |
| RefCount.Retain | tester/tests/test_create_old.cpp:114-142 | A plugin that keeps `retained` references leaves the dummy as `retained` AddRef calls on a new dummy do: alive with 1 + retained references, modulo 2^32. The harness's own Release then destroys it exactly when the plugin kept no reference, and returns the number the plugin kept. |
| Layouts.AlignUp | tester/tests/test_create_old.cpp:90-100 | A field's offset is the first multiple of its alignment at or after the previous field's end. |
| Layouts.PairRecordSize | tester/tests/test_descriptors_and_create.cpp:8-11 | `{GUID, name}` is a multiple of the pointer size and needs no padding: a GUID plus a pointer, 20 bytes on a 32-bit target and 24 on a 64-bit one. |
| Layouts.ExtendedRecordSize | tester/tests/test_create_old.cpp:90-100 | The nine-field record is a multiple of the pointer size and at least the sum of its fields: 48 bytes on a 32-bit target, and 80 on a 64-bit one, with padding after `flags`. |
| Harness.AllCreatedMeansEvery | tester/tests/test_descriptors_and_create.cpp:142-159 | The recursive "every iteration created and released its entity" holds exactly when every iteration in the range did. |
| Harness.TallyAppend | tester/tests/test_descriptors_and_create.cpp:97-162 | The count of one event class over two trace pieces is the sum of the counts over each piece. |
| Harness.LocalAppend | tester/tests/test_descriptors_and_create.cpp:141-159 | Two pieces of trace that neither load nor free a module form one that does neither. |
| Harness.AfterAppend | tester/tests/test_descriptors_and_create.cpp:97-162 | The handle state after two trace pieces is the state after the second, started from the state after the first. |
| Harness.DisciplinedAppend | tester/tests/test_descriptors_and_create.cpp:97-162 | Running two disciplined traces one after the other is disciplined. |
| Harness.LocalKeepsHolding | tester/tests/test_descriptors_and_create.cpp:141-159 | Factory calls and entity releases leave a mapped module mapped. |
| Harness.Bracket | tester/tests/test_descriptors_and_create.cpp:101-161 | Loading a module, working inside it and freeing it is disciplined, and the module is held until the free. |
| Harness.HoldingBalance | tester/tests/test_descriptors_and_create.cpp:101-161 | A trace that breaks no handle rule frees each module as often as it loads it. When it stops while holding a module, that module has one free fewer. |
| Harness.LoadsMatchFrees | tester/tests/test_descriptors_and_create.cpp:101-161 | In a disciplined trace, every module is freed exactly as many times as it is loaded. |
| DescriptorTests.Stride | tester/tests/test_descriptors.cpp:48-60 | Each kind's stride is a positive whole number of pointers, between two and nine of them. |
| DescriptorTests.RecordCount | tester/tests/test_descriptors.cpp:63 | The count is the number of whole records in the byte count. A trailing partial record is dropped. |
| DescriptorTests.LoadDescriptorCount | tester/tests/test_descriptors.cpp:25-66 | True exactly when the module loads, the export resolves and the call succeeds with non-null bounds. On false the count is 0. On true, count × stride ≤ bytes < (count + 1) × stride. A module that loads is loaded and freed once, and no factory is called. |
| DescriptorTests.CountOfRange | tester/tests/test_descriptors.cpp:62-63 | An empty range counts 0. A forward range within the address space counts the whole records in `end - begin`. |
| DescriptorTests.Checks | tester/tests/test_descriptors.cpp:102-105 | The nested loops visit one check per (module, expected count) row of every group, and nothing else: the number of checks is the number of rows, and a check is visited exactly when it is some group's row for its export. |
| DescriptorTests.MissingExportScoresZero | tester/tests/test_descriptors.cpp:109-117 | A module that does not load or lacks the export counts as 0 descriptors. Its check passes exactly when 0 was expected. |
| DescriptorTests.AllPassMeansEvery | tester/tests/test_descriptors.cpp:100-121 | The recursive "all checks pass" holds exactly when every check in the list passes. |
| DescriptorTests.Score | tester/tests/test_descriptors.cpp:100-121 | The verdict is true exactly when every check passes. A mismatch does not stop the later checks, and the whole run keeps the module handle discipline. |
| DescriptorTests.ScoreEffects | tester/tests/test_descriptors.cpp:105-119 | The run loads a module once for each check whose module loads, and calls no factory. |
| DescriptorTests.RunDescriptorTests | tester/tests/test_descriptors.cpp:69-124 | Returns 0 or 1. It returns 0 exactly when every (export, module) pair of the table observes its expected count. |
| EntityValidation.DisplayName | tester/tests/test_descriptors_and_create.cpp:144 | The name shown is the record's own text up to its first NUL when its pointer is non-null, and `<unnamed>` otherwise. It never contains a NUL. |
| EntityValidation.CreateOnce | tester/tests/test_descriptors_and_create.cpp:143-158 | One iteration starts with one factory call for the record's GUID, with an input exactly when the entry needs a signal. It passes exactly when the entity was created and released cleanly, faults exactly when foreign code faulted, and never loads or frees a module. It calls the factory once, and releases the entity once exactly when the status succeeded and the pointer is non-null. |
| EntityValidation.SomeFaultMeansOne | tester/tests/test_descriptors_and_create.cpp:142-159 | The recursive "some iteration faults" holds exactly when one iteration in the range faults. |
| EntityValidation.FaultBlocksAll | tester/tests/test_descriptors_and_create.cpp:142-159 | A fault anywhere in a range means the range does not all pass. |
| EntityValidation.CreateLoop | tester/tests/test_descriptors_and_create.cpp:142-159 | The loop passes exactly when every iteration creates and releases cleanly, and it faults exactly when some iteration faults. A failed iteration does not stop it. Without a fault it makes one call per record, and it never loads or frees a module. |
| EntityValidation.ActualCount | tester/tests/test_descriptors_and_create.cpp:128 | For a forward range within the address space that holds a whole number of `{GUID, name}` records, the count is that number of records. |
| EntityValidation.RunEntry | tester/tests/test_descriptors_and_create.cpp:97-162 | An entry passes exactly when the module loads, both symbols resolve, the descriptors come back, the count equals the expected one and every record's entity is created and released. A passing entry has not faulted, and an entry without a fault keeps the module handle discipline. |
| EntityValidation.RunEntryModules | tester/tests/test_descriptors_and_create.cpp:101-161 | A module that loads is loaded once. It is freed once unless a fault ends the process, which leaves it mapped. |
| EntityValidation.RunEntryCalls | tester/tests/test_descriptors_and_create.cpp:111-159 | There is no factory call unless the symbols resolve and the descriptors come back. After that there is one call per counted record, even when the count is wrong, unless a fault cuts the loop short. |
| EntityValidation.Combine | tester/tests/test_descriptors_and_create.cpp:97-164 | The first fault ends the process. Without one, the result is 0 exactly when every entry passed, otherwise 1, and the run keeps the module handle discipline. |
| EntityValidation.RunEntries | tester/tests/test_descriptors_and_create.cpp:97-164 | The table loop returns 0 exactly when every entry passes, and 1 when some entry fails with no fault. The process is killed exactly when some entry faults. |
| EntityValidation.RunEntityValidationTests | tester/tests/test_descriptors_and_create.cpp:59-165 | Returns 0 exactly when every entry of the table passes, and otherwise 1 or a killed process. |
| CreateTests.DisplayName | tester/tests/test_create_old.cpp:191 | The name shown is the record's own text up to its first NUL when the pointer is non-null and `wcslen` of it is positive. Otherwise it is the canonical 8-4-4-4-12 text of its GUID, from which the GUID reads back. |
| CreateTests.CreateSingleEntity | tester/tests/test_create_old.cpp:109-144 | Status is 0 or 1. It is 0 exactly when the entity was created and released without a fault; a fault, a failure status or a null pointer gives 1. A dummy exists exactly when one is needed, and the harness's Release destroys it exactly when the plugin kept no reference. The factory is called once, and the entity is released once exactly when the status succeeded and the pointer is non-null. |
| CreateTests.Iterations | tester/tests/test_create_old.cpp:189 | The `ptr != end` loop visits the whole extended records between `begin` and `end`, and none when `end` is not after `begin`. |
| CreateTests.ScanRecords | tester/tests/test_create_old.cpp:189-196 | The scan passes exactly when every record's entity is created and released cleanly. Every record gets its factory call, since faults are contained, and no module is loaded or freed. |
| CreateTests.RunEntry | tester/tests/test_create_old.cpp:161-196 | An entry passes exactly when both symbols resolve, the descriptors come back and every record passes. No count is compared. A ready entry calls the factory once per record; an entry that is not ready calls nothing. |
| CreateTests.EmptyTablePasses | tester/tests/test_create_old.cpp:186-196 | A ready entry whose table is empty passes without calling the factory. |
| CreateTests.RunEntries | tester/tests/test_create_old.cpp:161-197 | A module's entries pass exactly when each of them does. A failed entry does not stop the later ones, and no module is loaded or freed inside. |
| CreateTests.RunDll | tester/tests/test_create_old.cpp:151-200 | A module passes exactly when it loads and every entry passes. The run keeps the module handle discipline, and a module that loads is loaded once and freed once, whatever its entries did. |
| CreateTests.RunCreateTests | tester/tests/test_create_old.cpp:146-203 | Returns 0 or 1. It returns 0 exactly when every module of the table loads and all its entries pass, and the run keeps the module handle discipline. |
| TestRunner.FailureCount | tester/test_runner.cpp:18-21 | The number of failed tests never exceeds the number of tests. |
| TestRunner.FirstKill | tester/test_runner.cpp:16-25 | Every test before the index returns normally, and the test at the index, if any, ends the process. |
| TestRunner.RunAll | tester/test_runner.cpp:12-34 | Tests run in registry order, up to and including the first one that ends the process. The process is killed exactly when some test kills it. Otherwise the failure count is the number of non-zero results, and the exit code is 0 exactly when that count is 0 and 1 exactly when it is positive. |
| TestRunner.EnabledTests | tester/test_runner.cpp:54-70 | The enabled registry holds two tests, in order: the entity validation test under the label "Descriptor Filter DLLs", then "Composite Filter Build & Clear". |
| TestRunner.RegistryVerdict | tester/test_runner.cpp:27-70 | Over the enabled registry, the runner counts no failure exactly when both enabled tests return 0. |
| TestRunner.AsOutcome | tester/test_runner.cpp:18 | The runner sees the entity validation test's return code as its result, and a killed process as a test that never returns. |
| TestRunner.RunRegistered | tester/test_runner.cpp:12-70 | Over the enabled registry, with the entity validation test run on its own entry table, the runner exits with 0 exactly when every entry of that table passes and the composite filter test returns 0. It is killed exactly when one of the two tests ends the process, and otherwise exits with 0 or 1. |
| Registry.DescriptorTableHasNoRepeats | tester/tests/test_descriptors.cpp:70-97 | No group of the descriptor-count table names the same module twice, so its rows are exactly the entries of each group's module map. |
| Registry.FilterStridesDiffer | tester/tests/test_descriptors.cpp:51 | The three tests read a filter table with three different record sizes on either pointer width: eight pointers, `{GUID, name}` and the extended record. |
| Registry.PairTableUndercounted | tester/tests/test_descriptors_and_create.cpp:8-11 | A table of n ≥ 1 whole `{GUID, name}` records counts fewer than n under the descriptor-count test's eight-pointer filter stride. |
| Registry.SixPairsAreNotSixFilters | tester/tests/test_descriptors_and_create.cpp:128 | A byte distance that the entity validation test counts as six `{GUID, name}` records is never six records under the descriptor-count test's eight-pointer filter stride, whatever the `size_t` wrap-around. |
| Registry.SixFiltersCountedTwice | tester/tests/test_descriptors.cpp:62-63 | An entity entry and a filter check on the same export of the same module, both expecting six records, never both pass. |
| Registry.DataFilterExpectationsConflict | tester/tests/test_descriptors.cpp:72 | Both tables expect six filters from data.dll, so in no environment do the descriptor-count test and the entity validation test both return 0 over their own tables. |
| Registry.CreateTableNeedsEveryModule | tester/tests/test_create_old.cpp:146-203 | The creation test over its table returns 0 only when every module of the table loads. |

An observation about the code: `IDummyEntity` declares `Release` as its only
virtual function (`tester/tests/test_descriptors_and_create.cpp:52-54`,
`tester/tests/test_create_old.cpp:102-104`), so `created->Release()` calls
the first vtable slot. For an IUnknown-style plugin entity that slot is
QueryInterface. The model does not interpret the call; its outcome is the
oracle's `releaseFaults`.

## Left out

- Loading and freeing modules, symbol lookup and `GetFilterDLLBasePath` are operating-system calls. They become the environment map keyed by module file name. The base directory is the same for every module, so it is dropped from the key.
- Structured exception handling is not modelled as a mechanism. A fault is one of the outcomes of a foreign call, contained in the creation test and fatal in the entity validation test.
- A fault inside a descriptor export is not modelled. The model treats descriptor exports as always returning.
- `std::atomic` is modelled as a plain counter; the harness is single-threaded.
- The wide-to-narrow conversion through the active code page is modelled as one character per character. Real code pages can map characters to several bytes or substitute them.
- Console and error-stream output is left out.
- Plugin behaviour is an oracle: factory outcomes, the records a descriptor export reports, and the references it keeps to the input object. What the plugins actually create is outside the model.
- Harness.CallOutcome: the foreign side's use of the input object is a count of the references it keeps, so it cannot release the object more often than it adds references. In the source such a plugin makes `dummy_signal->Release()` in `tester/tests/test_create_old.cpp:142` touch a deleted object, and makes the stack dummy of `tester/tests/test_descriptors_and_create.cpp:147` run `delete this`. Neither use after free is modelled.
- Harness.DescriptorAnswer: records are read by iteration index, not by byte address. The entity validation test and the creation test read the same table with different record sizes, so in the source they read their `i`-th records at different addresses, and the creation test can read a GUID from the middle of a `{GUID, name}` record. The model hands both tests the same `i`-th record.
- EntityValidation.ActualCount: when the byte distance is not a whole number of `{GUID, name}` records, the typed pointer subtraction of `tester/tests/test_descriptors_and_create.cpp:128` is undefined behaviour. The model rounds toward zero there, which the source does not promise.
- CreateTests.ScanRecords: record memory is modelled as always readable. In the source, the harness reads `ptr->id` and `ptr->name`, calls `wcslen` and prints the name in `tester/tests/test_create_old.cpp:190-192`, outside the fault boundary. An unreadable name pointer, such as the GUID bytes that a misaligned read takes for a name, ends the process there, before that record's factory call.
- CreateTests.RunCreateTests: because record reads are modelled as always succeeding, the model always returns 0 or 1. In the source, an unreadable record at `tester/tests/test_create_old.cpp:190-192` kills the process instead.
- EntityValidation.CreateLoop: the name read and print at `tester/tests/test_descriptors_and_create.cpp:144-145` is likewise modelled as always readable.
- CreateTests.DisplayName: in the source the GUID text is a temporary whose buffer is gone by the time the name is used. The model keeps only the choice of name.
- CreateTests.Iterations: a range that is not a whole number of records, or whose `end` comes before `begin`, makes the `ptr != end` loop run past `end` (undefined behaviour). The model stops at the last whole record and visits nothing for a reversed range.
- DescriptorTests.Checks: the source keeps each group's modules in a `std::map`, so it visits them in key order and holds at most one row per module name. The model visits them in table order and does not merge repeated module names: a group that names a module twice gives two checks, which the source cannot have. The verdict does not depend on the order. `Registry.DescriptorTableHasNoRepeats` proves that the table the test uses names no module twice in any group, so there the two agree.
- EntityValidation.CreateOnce: the dummy input in this test lives on the stack and is never released by the harness. A plugin that keeps a reference to it past the iteration is not modelled.
- The framework tests (composite filter, executor, configuration links, filter parameters, persistent chains) are not part of this model. The composite filter test, which the runner has enabled, appears only as an opaque outcome in `TestRunner.EnabledTests`.
- TestRunner.RunAll: a test that throws a C++ exception is treated like one that ends the process.

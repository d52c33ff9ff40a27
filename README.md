# Marian configuration: settings store and device resolution

This project models the core of Marian's `Config` class (`src/common/config.cpp`):

- the settings store, a YAML document of top-level keys, with its `has`/`get` lookups;
- `override`, the shallow merge that copies every top-level key of a document into the store;
- `getDevices`, which turns `cpu-threads`, `num-devices` and `devices` into this MPI process's ordered device list. The inputs are the process's MPI rank and the number of MPI processes.

Layout:

- `wrappers.dfy`: `Option` and `Result`, standing in for exceptions and `ABORT_IF`.
- `decimal.dfy`: digit strings as `std::stoull` reads them, with a formatter and a round trip.
- `settings.dfy`: the YAML `Value`, the typed reads `get<size_t>` and `get<std::vector<std::string>>`, and `Overridden`, the merge written as a function.
- `devices.dfy`: `Resolve`, the reference definition of device resolution. It also holds `ResolveDevices`, the source's loops and in-place `erase`/`resize` written as methods and proved equal to `Resolve`.
- `device_properties.dfy`: the documented behaviour of `Resolve`, as lemmas.
- `device_examples.dfy`: the worked examples of the doc comment above `getDevices`.
- `config.dfy`: class `Config`. Its `settings: map<string, Value>` field is `config_`. It has `Has`, `Get`, an `Override` method that loops over the incoming keys, and `GetDevices`.

Three behaviours of the code are worth noting. The doc comment above `getDevices` (lines 142-167) does not spell them out, and the model follows the code:

- An explicit `--num-devices 0` is treated exactly like an absent one. With a list, the count becomes the list length (line 190).
- The `devices` setting is read before the CPU/GPU branch (line 170). So on the CPU path a missing or malformed `devices` still fails, even though its value is ignored there.
- Two processes with `--num-devices 1 --devices 0 1 2 3` are refused: there are four blocks, not two (`DeviceExamples.TwoProcessesFourBlocks`). The rank does not pick one entry of a longer shared list.

## Model

| member | source | states |
|---|---|---|
| `Decimal.Parse` | src/common/config.cpp:181 | the number a non-empty digit string denotes, most significant digit first |
| `Decimal.Format` | src/common/config.cpp:181 | the decimal text of a number is a non-empty digit string, one digit long exactly below 10, with no leading zero for a positive number |
| `Decimal.ParseFormat` | src/common/config.cpp:181 | reading the decimal text of any number gives that number back |
| `Decimal.LeadingZero` | src/common/config.cpp:181 | a leading zero does not change the number read ("007" is 7) |
| `Settings.GetCount` | src/common/config.cpp:172 | `get<size_t>`: the number in a digit scalar; `MissingKey` when the key is absent, `WrongType` for any other node |
| `Settings.GetStrings` | src/common/config.cpp:170 | `get<std::vector<std::string>>`: the texts of a sequence of scalars, in order; `MissingKey` or `WrongType` otherwise |
| `Settings.CountReadsBack` | src/common/config.cpp:172 | a count stored as its decimal text reads back as that count |
| `Settings.StringsReadBack` | src/common/config.cpp:170 | a list of strings stored as a sequence of scalars reads back unchanged |
| `Settings.ReadsAreLocal` | src/common/config.cpp:95-97 | writing one key never changes what a typed read of another key returns |
| `Settings.Overridden` | src/common/config.cpp:124-128 | after a merge the keys are the old keys plus the document's; each document key holds the document's value wholesale; every other key keeps its old value |
| `Settings.OverrideIdempotent` | src/common/config.cpp:124-128 | applying the same document twice gives the same store as applying it once |
| `Settings.OverrideSequence` | src/common/config.cpp:124-128 | two merges in a row equal one merge with a document in which the later document's keys win |
| `Settings.OverrideEmpty` | src/common/config.cpp:124-128 | merging an empty document leaves the store unchanged |
| `Devices.Range` | src/common/config.cpp:186-187 | the ids 0 .. n-1 in ascending order, exactly n of them |
| `Devices.WithKind` | src/common/config.cpp:206-207 | each device number becomes a device of the given kind, same length, same order |
| `Devices.ParseAll` | src/common/config.cpp:179-181 | succeeds iff every entry is a digit string; then it keeps length and order and each entry's value; otherwise it fails on the first bad entry |
| `Devices.Count` | src/common/config.cpp:182-191 | numDevices after defaulting is never zero, so the division at line 198 is defined |
| `Devices.Listed` | src/common/config.cpp:182-188 | the device list after defaulting: the given list, or 0 .. numDevices-1 when it is empty |
| `Devices.Block` | src/common/config.cpp:202-203 | block k of length n is the n entries starting at offset k*n, in order |
| `Devices.ValidateAndSlice` | src/common/config.cpp:196-204 | the three checks in source order, then this rank's block when the list holds several blocks |
| `Devices.SelectGpus` | src/common/config.cpp:178-204 | the GPU-path checks and per-rank cut-out applied to the defaulted count and list |
| `Devices.Resolve` | src/common/config.cpp:168-208 | the reference definition: CPU threads when `cpu-threads` > 0, otherwise the parsed, defaulted, checked and sliced GPU numbers |
| `Devices.ParseAllPrefixError` | src/common/config.cpp:180-181 | once a prefix of `devices` fails to parse, the whole list fails with the same error |
| `Devices.ParseDeviceNos` | src/common/config.cpp:179-181 | the `stoull` loop returns exactly what `ParseAll` does |
| `Devices.FormDevices` | src/common/config.cpp:205-207 | the final `push_back` loop returns exactly `WithKind` of its input |
| `Devices.CheckAndSlice` | src/common/config.cpp:196-204 | the three `ABORT_IF`s and the in-place `erase`/`resize` return exactly `ValidateAndSlice` |
| `Devices.ResolveDevices` | src/common/config.cpp:168-208 | the step-by-step procedure, with its loops and in-place edits, returns exactly `Resolve` |
| `DeviceProperties.SliceShared` | src/common/config.cpp:200 | a list of exactly numDevices entries passes every check and is used whole by every rank |
| `DeviceProperties.SliceNotMultiple` | src/common/config.cpp:198-199 | with several processes, a length that is not a multiple of numDevices is refused |
| `DeviceProperties.SliceBlocks` | src/common/config.cpp:200-204 | with several processes, more than one block is refused unless there is one block per process; otherwise the rank gets its own block |
| `DeviceProperties.SliceCases` | src/common/config.cpp:196-204 | the full case split of the checks: shared, size mismatch, not a multiple, wrong number of blocks, or this rank's block |
| `DeviceProperties.GpuPath` | src/common/config.cpp:177-207 | when every entry is a number, GPU resolution is the checks on the defaulted count and list, with the result typed GPU |
| `DeviceProperties.CpuThreadsEnumerate` | src/common/config.cpp:172-175 | `cpu-threads` N > 0 gives exactly N CPU devices, numbered 0 .. N-1 in ascending order |
| `DeviceProperties.CpuIgnoresGpuSettings` | src/common/config.cpp:171-175 | with `cpu-threads` > 0, `devices`, `num-devices`, rank and process count do not affect the result |
| `DeviceProperties.NoDeviceList` | src/common/config.cpp:182-188 | with no list: the single GPU 0 when `num-devices` is absent or 0, GPUs 0 .. N-1 for N > 0, on every rank |
| `DeviceProperties.ListWithoutCount` | src/common/config.cpp:189-191 | a non-empty list of numbers without `num-devices` is used verbatim, in order, duplicates kept, all GPUs, on every rank |
| `DeviceProperties.SingleProcess` | src/common/config.cpp:196-197 | for a list of numbers, one process fails exactly when `num-devices` N > 0 and a non-empty list of a length other than N are both given; otherwise it uses the defaulted list |
| `DeviceProperties.NotAMultiple` | src/common/config.cpp:198-199 | for a non-empty list of numbers, with several processes and `num-devices` N > 0, the multiple-of error occurs iff the list length is not a multiple of N |
| `DeviceProperties.PerProcessBlocks` | src/common/config.cpp:200-204 | for a list of numbers and several processes, k > 1 blocks of N fail unless k equals the process count; otherwise the result is the contiguous slice [rank*N, rank*N+N), order kept |
| `DeviceProperties.SucceedsExactly` | src/common/config.cpp:196-204 | GPU resolution succeeds iff every entry is a number and the defaulted list is one shared block or exactly one block per process |
| `DeviceProperties.SliceShape` | src/common/config.cpp:196-204 | every list that passes the checks against the count n yields exactly n entries, each taken from the list |
| `DeviceProperties.GpuResultShape` | src/common/config.cpp:198-207 | every successful GPU result has exactly numDevices entries (the `num-devices` value when given), all GPUs, each from the defaulted list |
| `DeviceProperties.SharedBlockSameForEveryRank` | src/common/config.cpp:192-195 | a single shared block gives the same result on every rank and for every process count |
| `DeviceProperties.OneKindPerProcess` | src/common/config.cpp:171-207 | all devices of a successful result have one kind: CPU when `cpu-threads` > 0, GPU otherwise |
| `DeviceExamples.CpuThreads8` | src/common/config.cpp:153-154 | `--cpu-threads 8`: exactly 8 devices, entry i is CPU thread i for every i < 8 |
| `DeviceExamples.DefaultSingleGpu` | src/common/config.cpp:155-157 | no option, or `--num-devices 1`: GPU 0 |
| `DeviceExamples.DevicesTwo` | src/common/config.cpp:158 | `--devices 2`: GPU 2 |
| `DeviceExamples.NumDevicesFour` | src/common/config.cpp:160 | `--num-devices 4`: GPUs 0 .. 3, for one process or on every rank of several |
| `DeviceExamples.DevicesZeroToThree` | src/common/config.cpp:161 | `--devices 0 1 2 3` is the same as `--num-devices 4` |
| `DeviceExamples.DevicesFourToSeven` | src/common/config.cpp:162 | `--devices 4 5 6 7`: GPUs 4 .. 7, for one process or on every rank of several |
| `DeviceExamples.EightProcessesOneGpuEach` | src/common/config.cpp:166 | `--num-devices 1` with eight devices: each process k of 8 uses GPU k |
| `DeviceExamples.TwoProcessesFourGpusEach` | src/common/config.cpp:167 | `--num-devices 4` with eight devices: process 0 uses GPUs 0 .. 3 and process 1 uses GPUs 4 .. 7 |
| `DeviceExamples.FourProcessesListed` | src/common/config.cpp:194-195 | `--num-devices 1 --devices 0 2 4 5`: process 1 uses GPU 2 |
| `DeviceExamples.SingleProcessSizeMismatch` | src/common/config.cpp:196-197 | one process, `--num-devices 2 --devices 0 1 2`: refused, size not equal to numDevices |
| `DeviceExamples.TwoProcessesShortList` | src/common/config.cpp:198-199 | two processes, `--num-devices 4 --devices 0 1`: refused, not a multiple |
| `DeviceExamples.TwoProcessesFourBlocks` | src/common/config.cpp:200-201 | two processes, `--num-devices 1 --devices 0 1 2 3`: refused, neither shared nor one set per process |
| `DeviceExamples.NotANumber` | src/common/config.cpp:181 | an entry that is not a number is refused |
| `Configuration.DevicesOf` | src/common/config.cpp:168-208 | what `getDevices` computes from a document: it reads `devices`, then `cpu-threads`, then `num-devices` (GPU path only, and only if present), then resolves |
| `Configuration.DevicesReadThreeKeys` | src/common/config.cpp:170-178 | two documents that agree on `devices`, `cpu-threads` and `num-devices` give the same devices |
| `Configuration.OverrideKeepsDevices` | src/common/config.cpp:124-128 | an override that touches none of the three device keys leaves the resolved devices unchanged |
| `Configuration.CpuSettingsYieldThreads` | src/common/config.cpp:170-175 | a store with `cpu-threads` N > 0 and any string list `devices` gives CPU threads 0 .. N-1 |
| `Configuration.GpuSettingsResolve` | src/common/config.cpp:170-191 | a store with `cpu-threads` 0 and no `num-devices` resolves its `devices` list with the count defaulted from it |
| `Configuration.Config.constructor` | src/common/config.cpp:22 | a copy of a configuration holds exactly the other configuration's document |
| `Configuration.Config.Has` | src/common/config.cpp:87-89 | true iff the key is present at top level (a null value counts as present) |
| `Configuration.Config.Get` | src/common/config.cpp:95-97 | the key's value when present, nothing when absent |
| `Configuration.Config.Override` | src/common/config.cpp:124-128 | the store becomes `Overridden(old store, params)`: keys of `params` hold its values, other keys unchanged, none removed |
| `Configuration.Config.GetDevices` | src/common/config.cpp:168-214 | returns exactly `DevicesOf` of the current store, rank and process count; ranks default to 0 of 1 |

## Left out

- `Config::initialize` (lines 24-85) is not modelled. It does command-line parsing through `ConfigParser` (external code), logger creation, the `time(0)` seed, a filesystem existence check, the try/catch around loading the model's embedded configuration, and version messages (logging only).
- `loadModelParameters` (lines 112-122): only its `override` call is modelled. Extracting `special:model.yml` from a model file or buffer is model-file I/O.
- `save` and `log` (lines 107-110, 130-140) are not modelled: they are file output, YAML emission and line-prefixed logging.
- `operator[]` (lines 91-93) is the same lookup as `get(key)`. The whole-document `get()` accessors (lines 99-105) are the `settings` field itself.
- The `MPI_FOUND` logging loop (lines 209-212) is left out. It only logs; the result does not change.
- Settings.GetCount, Settings.GetStrings: simplified typed reads. A count must be a digit scalar and a list must be a sequence of scalars. The yaml-cpp stream conversion behind `get<T>` (whitespace, signs, base prefixes) is not modelled, because `config.h` is not part of this model.
- Devices.ParseAll: only digit-only strings parse, and every other entry is refused with `InvalidDeviceNumber`. `std::stoull` also skips leading whitespace, takes a sign, stops at the first non-digit (`"12abc"` reads as 12), and throws on values above 2^64-1. None of that is modelled.
- Device numbers and counts are unbounded naturals instead of 64-bit `size_t`. Given the checks, no product in `getDevices` can exceed the list length, so no wrap-around is lost.
- Devices.Resolve, Devices.ResolveDevices, Devices.SelectGpus, Devices.ValidateAndSlice, Configuration.DevicesOf, Configuration.Config.GetDevices: each requires `myRank < numProcesses` on every path. The source never checks this. On the CPU path and on the shared GPU path (a single block) the source never reads the rank, so there the precondition excludes inputs the source accepts. On the per-process GPU path the `erase` at line 202 would run past the end.
- `ABORT_IF` is modelled as an error result (`DeviceError`), not as process termination. The error messages are reduced to one constructor per check.
- Configuration.Config.Override: the keys of `params` are visited in an arbitrary order. Keys are unique, so the result does not depend on it. Node sharing between the store and `params` (yaml-cpp assignment aliases nodes) is not modelled, because values here are immutable.
- `src/models/feedforward.h` is not part of this model. It builds a neural-network expression graph through external library calls and writes to stderr.

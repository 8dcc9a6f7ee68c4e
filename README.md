# tau: hook runner, backend merge and destroy sequencing

A Dafny model of three sequential pieces of the tau orchestrator:

- **The hook runner** (`pkg/hooks/runner.go`), in modules `Hooks` and `HookLaws`:
  - `ShouldRun`: the case-insensitive trigger `event[:cmd1,cmd2,...]`.
  - `getCacheKey`: the executor cache key.
  - `getExecutor`: get-or-create over the executor cache.
  - `Run` and `RunAll`: hooks in declaration order, files in order, fail-fast.
  - Executors run at most once unless a hook sets `disable_cache`.
  - Parsed `KEY=VALUE` output goes into the module's environment in place.
  - `Runner` is a class holding `map<string, Executor>`. Each method is proved against a function on the executors' observable state (`Lookup`, `Step`, `RunSpec`, `RunAllSpec`).
  - A ghost map `states` mirrors that state, and `Valid()` keeps it in step.
- **The backend merge rule** (`pkg/config/backend_test.go`), in module `Config`:
  - `mergeBackends` is a left fold over `(type, attributes)`. It adopts the first type, later attributes overwrite earlier ones key by key, and a different type fails with `DifferentBackendTypes`.
  - `MergeBackends` writes the result into a `Config` object in place.
- **The destroy command** (`cmd/destroy.go`), in module `Destroy`:
  - The loaded files are reversed in place by the two-index swap loop.
  - The initialization pre-flight check runs when `noAutoInit` is set.
  - The files are processed fail-fast, each through `runFile`'s decision flow: prepare hooks, auto-init, dependency resolution only without a variables file, the engine's `destroy` with `-auto-approve` when requested, removal of the variables file, then finish hooks.
  - The collaborators are parameters (`Outside`).
  - What happens is recorded as a trace of `Event`s, and the set of modules whose variables file exists is `DestroyCmd.varFiles`.

Shared modules: `Common` holds `Option` and the error kinds. `Text` holds ASCII case folding and Go's `strings.Split`/`strings.Join` on a one-character separator, with their round trips. `Loader` holds the loaded module file.

Behaviour follows the code where it and its comments disagree:

- `getCacheKey` (pkg/hooks/runner.go:153-173) never reads `disable_cache`, although the comment above it says a random key is used. So a cache-disabled hook shares its executor with every hook of the same key and re-runs that executor (`HookLaws.DisabledCacheReruns`).
- The cached executor runs the hook it was created from, so a later hook with the same key but another trigger or `set_env` value reuses the first hook's command (`HookLaws.SharedKeyReusesExecutor`).
- `destroyCmd.run` performs the all-initialized pre-flight check only when `noAutoInit` is set (cmd/destroy.go:81-85), although the command's long description (cmd/destroy.go:22-25) says the module must have been initialized first.
- `mergeBackends` itself is not part of this model. Its behaviour is taken from the `TestBackendMerge` table, plus the rule that files without a backend block are skipped. On a type conflict, the config keeps what was merged before the conflicting file.

## Model

| member | source | states |
|---|---|---|
| Text.Split | pkg/hooks/runner.go:105-110 | `strings.Split` on one character yields at least one piece, and no piece contains the separator |
| Text.LowerIdempotent | pkg/hooks/runner.go:102-106 | lowercasing twice is lowercasing once |
| Text.LowerOfUpper | pkg/hooks/runner.go:102-106 | lowercasing an uppercased string is lowercasing it (ASCII case folding) |
| Text.LowerConcat | pkg/hooks/runner.go:102-106 | lowercasing distributes over concatenation |
| Text.LowerCharIsSep | pkg/hooks/runner.go:105-111 | a character lowercases to a separator that is not an ASCII letter iff it is that separator (ASCII case folding) |
| Text.SplitWithoutSep | pkg/hooks/runner.go:105-110 | a string without the separator splits into itself alone |
| Text.SplitAtSep | pkg/hooks/runner.go:105-110 | splitting `a + sep + b` is splitting `a` followed by splitting `b` |
| Text.JoinSplit | pkg/hooks/runner.go:105-110 | joining the pieces with the separator gives the string back |
| Text.SplitJoin | pkg/hooks/runner.go:110 | splitting a join of separator-free pieces gives the pieces back |
| Text.SplitLower | pkg/hooks/runner.go:105-111 | splitting on a non-letter commutes with lowercasing |
| Text.SplitSameLower | pkg/hooks/runner.go:105-111 | strings equal up to case split into pieces equal up to case |
| Config.Config.constructor | pkg/config/backend_test.go:83 | a fresh `Config` has no backend |
| Config.MergeBackends | pkg/config/backend_test.go:83-91 | the error and the backend written into `config` are those of the left fold `Merge` from the config's backend |
| Config.MergeCharacterized | pkg/config/backend_test.go:44-99 | merging from an empty config fails with `DifferentBackendTypes` iff two declared backends differ in type; otherwise the result has the first backend's type and the key-wise overlay of all attribute sets |
| Config.MergeFrom | pkg/config/backend_test.go:44-99 | the same characterisation from any already-merged backend |
| Config.DeclaredMembers | pkg/config/backend_test.go:83 | a backend counts as declared iff some file carries it as its backend block; files without one are skipped |
| Config.FuseSameKind | pkg/config/backend_test.go:51-65 | two leading same-type backends can be fused into one with the union of their attributes without changing conflicts or overlay |
| Config.FusedKinds | pkg/config/backend_test.go:74-78 | fusing two same-type backends keeps whether some type differs |
| Config.OverlayLastWins | pkg/config/backend_test.go:51-65 | a key is in the merged attributes iff some file declares it, with the value of the last file that declares it |
| Config.MergeAppend | pkg/config/backend_test.go:44-99 | merging files in two groups is merging the second group into the first group's result, unless the first failed |
| Config.BackendMergeTable | pkg/config/backend_test.go:50-78 | the four rows of the table: overlapping key overwritten, disjoint keys united, a single file kept, `azurerm` then `aws` fails |
| Hooks.TriggeredUpToCase | pkg/hooks/runner.go:101-130 | whether a hook fires depends only on the lowercased trigger, event and command |
| Hooks.TriggeredCaseInsensitive | pkg/hooks/runner.go:102-111 | lowercasing the trigger, event and command never changes whether a hook fires; under ASCII case folding neither does uppercasing them |
| Hooks.NoCommandListFiresForAll | pkg/hooks/runner.go:109-121 | a trigger without ':' fires for every command of its event and for no other event |
| Hooks.TriggerParts | pkg/hooks/runner.go:105-113 | in `event:rest` the event is the part before ':' and the commands come from `rest` up to its first ':' split on ',' |
| Hooks.OtherEventNeverFires | pkg/hooks/runner.go:115-117 | a hook never fires when its lowercased event differs from the lowercased event |
| Hooks.CommandListFires | pkg/hooks/runner.go:119-129 | `event:c1,...,cn` fires exactly for the listed commands up to case, with no trimming |
| Hooks.EmptyCommandListFiresForEmptyCommand | pkg/hooks/runner.go:109-129 | `event:` has the command list `[""]` and fires only for the empty command |
| Hooks.SecondColonIgnored | pkg/hooks/runner.go:105-113 | text after a second ':' does not change whether a hook fires |
| Hooks.CacheKey | pkg/hooks/runner.go:153-173 | the key starts with the working directory when that is set and not empty, and otherwise with the command when there is one |
| Hooks.CacheKeyDependsOnInvocationOnly | pkg/hooks/runner.go:153-173 | hooks equal in command, script, arguments and effective working directory share a key, whatever their trigger, `set_env` and `disable_cache` |
| Hooks.CacheKeyCollisions | pkg/hooks/runner.go:160-170 | plain concatenation gives command `ab` and command `a` with script `b` one key, and arguments `[a_b]` and `[a, b]` one key |
| Hooks.Executor.constructor | pkg/hooks/runner.go:143 | a created executor has not run, has no output and remembers its hook and creator |
| Hooks.Executor.Run | pkg/hooks/runner.go:70 | one run updates the executor's state as `Invoke` says: marked as run with the new output on success, and counted either way |
| Hooks.FirstCreator | pkg/hooks/runner.go:141-146 | the index returned is of a creator that accepts the hook with none before it accepting; none is returned iff no creator accepts |
| Hooks.FirstCreatorIs | pkg/hooks/runner.go:141-146 | an accepting creator with no accepting creator before it is the one chosen |
| Hooks.Runner.constructor | pkg/hooks/runner.go:41-53 | a new runner has an empty cache and the command creator as its only creator |
| Hooks.Runner.ShouldRun | pkg/hooks/runner.go:101-130 | the loops return exactly the trigger predicate `Triggered` |
| Hooks.Runner.GetExecutor | pkg/hooks/runner.go:132-149 | a hit returns the stored executor and leaves the cache alone; a miss stores a fresh executor from the first accepting creator under exactly the hook's key; with no accepting creator it fails with `NoExecutorFound` and changes nothing |
| Hooks.Runner.Run | pkg/hooks/runner.go:57-84 | the error, the executors' states and the file's environment are those of `RunSpec`, the fail-fast walk over the hooks in declaration order; existing executors stay cached |
| Hooks.Runner.RunHook | pkg/hooks/runner.go:58-80 | one iteration: the executor lookup comes before the trigger test, and the result is `Step` |
| Hooks.Runner.FireCached | pkg/hooks/runner.go:69-80 | firing a hook on its cached executor changes that executor's state and the environment as `Fired` says and no other executor |
| Hooks.Runner.RunAll | pkg/hooks/runner.go:88-97 | the error, the executors' states and every file's environment are those of `RunAllSpec`, the files in order stopping at the first error |
| Hooks.Runner.RunAt | pkg/hooks/runner.go:90-94 | one file of `RunAll`: only that file's environment changes, to the one its pass produced |
| Hooks.RunAllAdvance | pkg/hooks/runner.go:90-94 | after the files before `i`, a failing file `i` ends the pass, and a successful one hands its cache to file `i + 1` |
| Hooks.Fire | pkg/hooks/runner.go:69-80 | a fired hook runs its executor iff it has not run or the hook disables caching; a failed run returns before any copy; with `set_env` the parsed output is merged into the environment |
| Hooks.CopyVars | pkg/hooks/runner.go:75-80 | every parsed pair overwrites its key in the environment and all other keys are kept |
| HookLaws.ReplaySaturated | pkg/hooks/runner.go:64-80 | with caching on, hooks whose executors have all run are replayed without running anything, only copying stored output |
| HookLaws.FirstPass | pkg/hooks/runner.go:57-84 | a successful pass with caching on leaves every fired hook with an executor that has run, never touches an executor that had run, and its environment is the start one plus the hooks' contributions |
| HookLaws.StepWithCaching | pkg/hooks/runner.go:58-80 | one successful step with caching on: the hook has an executor, which has run if it fired; executors that had run are untouched |
| HookLaws.RunIdempotent | pkg/hooks/runner.go:64-73 | with caching on, repeating a successful `Run` on the same hooks changes neither the executors nor the environment |
| HookLaws.NothingFiresNothingRuns | pkg/hooks/runner.go:64-67 | when no hook fires, no executor runs and the environment is unchanged; executors may still be created, unrun |
| HookLaws.DisabledCacheReruns | pkg/hooks/runner.go:69-73 | a fired hook with `disable_cache` runs its executor once more even after a run, and fails iff that run fails |
| HookLaws.CachedHookDoesNotRerun | pkg/hooks/runner.go:69-80 | a fired hook with caching on whose executor has run runs nothing and with `set_env` copies the earlier output |
| HookLaws.SharedKeyReusesExecutor | pkg/hooks/runner.go:137-139 | two hooks with one key share an executor that runs once, the first hook's |
| HookLaws.NoExecutorExactly | pkg/hooks/runner.go:58-62 | a hook fails with `NoExecutorFound` iff its key is not cached and no creator accepts it, whether or not it fires, leaving cache and environment unchanged |
| HookLaws.LookupCreates | pkg/hooks/runner.go:141-146 | a miss adds exactly the hook's key, from the first accepting creator, keeping every other entry |
| HookLaws.RunConcat | pkg/hooks/runner.go:58-62 | running hooks in two groups is running the second on what the first left, unless the first failed, in which case the second is not touched |
| HookLaws.RunAllConcat | pkg/hooks/runner.go:88-97 | running files in two groups is running the second group on what the first left, unless the first failed |
| HookLaws.RunAllStopsAtFailure | pkg/hooks/runner.go:90-93 | when file `i` fails, `RunAll` fails and the files after `i` keep their environments |
| Destroy.ReversedIndex | cmd/destroy.go:76-78 | element `i` of the reversal is element `len - 1 - i` |
| Destroy.ReversedIsMirror | cmd/destroy.go:76-78 | a sequence is the reversal iff it has the same length and mirrored elements |
| Destroy.ReversedTwice | cmd/destroy.go:76-78 | reversing twice is the identity |
| Destroy.ReversedSameElements | cmd/destroy.go:76-78 | the reversal has the same elements, each as often |
| Destroy.ReversedThree | cmd/destroy.go:76-78 | files loaded as `[a, b, c]` are destroyed as `[c, b, a]` |
| Destroy.ReverseInPlace | cmd/destroy.go:76-78 | the swap loop leaves the array holding the reversal of its old contents |
| Destroy.DestroyArgs | cmd/destroy.go:142-146 | `-auto-approve` is appended as the last argument iff auto-approve is set; otherwise the arguments are unchanged |
| Destroy.DestroyCmd.constructor | cmd/destroy.go:68 | the command starts with its flags, the existing variables files and an empty trace |
| Destroy.DestroyCmd.RunFile | cmd/destroy.go:98-163 | the error, the variables files and the events appended are those of `RunFileSpec` |
| Destroy.DestroyCmd.DestroyModule | cmd/destroy.go:142-161 | the engine's `destroy`, then on success removal of the variables file and the finish hooks, as `EngineStep` says |
| Destroy.DestroyCmd.Run | cmd/destroy.go:68-96 | the files are reversed in place, and the error, variables files and events are those of `DestroySpec` on the loaded order |
| Destroy.DestroyCmd.RunFiles | cmd/destroy.go:87-91 | the loop's error, variables files and events are those of `RunFilesSpec`, fail-fast over the files in array order |
| Destroy.DestroyCmd.RunNext | cmd/destroy.go:88-90 | one turn: a failure is the outcome of the whole loop; otherwise the loop continues from the next file |
| Destroy.RunFilesAdvance | cmd/destroy.go:87-91 | after the modules before `i`, a failing module `i` ends the run, and a successful one hands its variables files to module `i + 1` |
| Destroy.RunFileIsPrefix | cmd/destroy.go:98-163 | `runFile`'s events are a non-empty prefix of prepare, auto-init, resolution (only without a variables file), `destroy`, removal, finish; only the module's own variables file may change |
| Destroy.RunFileDestroysWhen | cmd/destroy.go:113-161 | the engine's `destroy` runs iff prepare succeeded and a variables file exists or resolution wrote one; removal and finish happen iff `destroy` also succeeded, and then the file is gone; a failed `destroy` keeps the file and is the error |
| Destroy.RunFileFailsWhen | cmd/destroy.go:105-161 | a module fails iff its prepare hooks, the resolution, the engine's `destroy` or its finish hooks fail; an unsuccessful resolution or a missing variables file is no error |
| Destroy.RunFilePreparedOnce | cmd/destroy.go:105-107 | each module starts its prepare hooks exactly once |
| Destroy.RunFilesStartsInOrder | cmd/destroy.go:87-91 | modules start in the given order: all of them on success, and on failure those up to the failing one and none after it |
| Destroy.RunFilesFailsAtLastStarted | cmd/destroy.go:87-91 | the error of a failed run is that of the last module started |
| Destroy.DestroyTouchesNothingWhen | cmd/destroy.go:81-91 | no event happens iff there is no module or the pre-flight check (with `noAutoInit`) finds an uninitialized module |
| Destroy.DestroyStartsInReverse | cmd/destroy.go:76-91 | a successful destroy starts every loaded module, the last loaded first |
| Destroy.AllInitializedReversed | cmd/destroy.go:76-85 | reversing the files does not change whether all are initialized |
| Destroy.NamesReversed | cmd/destroy.go:76-78 | the names of the reversed files are the reversed names |

## Left out

- Terminal output (`ui.*`, colours, separators), logging and the `getter` options of `New` are not modelled. They do not affect results.
- The `cacheLock` mutex is left out. `getExecutor` is modelled sequentially.
- Case folding is ASCII only. Go's `strings.ToLower`/`ToUpper` fold all of Unicode.
- Text.LowerOfUpper: holds for ASCII case folding only. In Go, `ToUpper("ſ")` is "S" while `ToLower("ſ")` stays "ſ", so lowercasing an uppercased string can differ from lowercasing it.
- Text.LowerCharIsSep: holds for ASCII case folding only. In Go, `ToLower('Ⓐ')` is 'ⓐ', and neither is an ASCII letter. It does hold for the separators ':' and ',' that the runner splits on.
- Hooks.TriggeredCaseInsensitive: the lowercasing clause matches Go; the two uppercasing clauses hold for ASCII text only. In Go, trigger "ſ" does not fire for event "s" but fires once all three are uppercased, and trigger "ſ" fires for event "ſ" but not for its uppercase "S".
- A nil `TriggerOn` (which would make `ShouldRun` panic) is not modelled: every hook has a trigger string.
- `pstrings.ParseVars`, `ExecutorCreator.CanCreate`/`Create` and the executor's command are parameters (`Effects`, `Creator`). An executor is taken to count as run only after a successful run, because the executor's code is not part of this model.
- Hooks.Runner.RunAll: requires the files to be distinct objects. The source takes any slice, but a repeated file would alias its environment between passes.
- Destroy: `runFile` calls the hook runner for prepare and finish. The model does not re-run `Hooks.Runner.Run` there; its outcome per module and event is a parameter (`Outside.hooks`).
- Destroy: `autoInit`, `resolveDependencies`, the engine's `destroy`, `getExtraArgs`/`GetInvalidArgs` (the fixed `baseArgs`) and `paths.IsFile`/`Remove` (the `varFiles` set) are abstract. Auto-init appears only as an event.
- Destroy: `IsAllInitialized`'s error is modelled as the single error `Uninitialized`. Loading the files (`dc.load`) and its errors are outside the model, which starts from loaded files.
- The executor's working directory, output processors and environment passed to the engine (`shell.Options`) are not modelled.
- `mergeBackends` is modelled from its test table. How HCL bodies are decoded into attribute maps (`getBodyAttributes`, `pkg/config/parser.go`) is not part of this model.

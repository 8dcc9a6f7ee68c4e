/** The hook runner (`pkg/hooks`): decides whether a hook fires for an event
    and command, resolves each hook to a cached executor, runs executors at
    most once unless caching is disabled, and copies `KEY=VALUE` output into
    the module's environment. */
module Hooks {
  import opened Common
  import opened Text
  import opened Config
  import opened Loader

  // ===== Trigger predicate =====

  /** The lowercased event of a trigger: the text before the first ':'. */
  function TriggerEvent(trigger: string): string
  {
    Lower(Split(trigger, ':')[0])
  }

  /** The lowercased command list of a trigger: the text between the first
      and second ':' split on ','. Empty when the trigger has no ':'. */
  function TriggerCommands(trigger: string): seq<string>
  {
    var parts := Split(trigger, ':');
    if |parts| > 1 then LowerAll(Split(parts[1], ',')) else []
  }

  /** `ShouldRun` as a predicate: the events agree up to case, and the
      command is in the list, or there is no list. */
  predicate Triggered(trigger: string, event: string, command: string)
  {
    && TriggerEvent(trigger) == Lower(event)
    && (TriggerCommands(trigger) == [] || Lower(command) in TriggerCommands(trigger))
  }

  /** Only the lowercased trigger, event and command matter. */
  lemma TriggeredUpToCase(t1: string, e1: string, c1: string, t2: string, e2: string, c2: string)
    requires Lower(t1) == Lower(t2) && Lower(e1) == Lower(e2) && Lower(c1) == Lower(c2)
    ensures Triggered(t1, e1, c1) == Triggered(t2, e2, c2)
  {
    var p1, p2 := Split(t1, ':'), Split(t2, ':');
    SplitSameLower(t1, t2, ':');
    assert LowerAll(p1)[0] == LowerAll(p2)[0];
    assert |LowerAll(p1)| == |LowerAll(p2)|;
    if |p1| > 1 {
      assert LowerAll(p1)[1] == LowerAll(p2)[1];
      SplitSameLower(p1[1], p2[1], ',');
    }
  }

  /** Lowercasing or uppercasing the trigger, the event or the command never
      changes whether a hook fires. */
  lemma TriggeredCaseInsensitive(trigger: string, event: string, command: string)
    ensures Triggered(trigger, event, command) == Triggered(Lower(trigger), Lower(event), Lower(command))
    ensures Triggered(trigger, event, command) == Triggered(Upper(trigger), Upper(event), Upper(command))
    ensures Triggered(trigger, event, command) == Triggered(trigger, Upper(event), Lower(command))
  {
    LowerIdempotent(trigger); LowerIdempotent(event); LowerIdempotent(command);
    LowerOfUpper(trigger); LowerOfUpper(event); LowerOfUpper(command);
    TriggeredUpToCase(trigger, event, command, Lower(trigger), Lower(event), Lower(command));
    TriggeredUpToCase(trigger, event, command, Upper(trigger), Upper(event), Upper(command));
    TriggeredUpToCase(trigger, event, command, trigger, Upper(event), Lower(command));
  }

  /** A trigger without ':' fires for every command of its event. */
  lemma NoCommandListFiresForAll(trigger: string, event: string, command: string)
    requires ':' !in trigger
    ensures Triggered(trigger, event, command) <==> Lower(trigger) == Lower(event)
  {
    SplitWithoutSep(trigger, ':');
  }

  /** The parts of `event:rest`: the event, and the commands taken from `rest`
      up to its own first ':'. */
  lemma TriggerParts(ev: string, rest: string)
    requires ':' !in ev
    ensures TriggerEvent(ev + ":" + rest) == Lower(ev)
    ensures TriggerCommands(ev + ":" + rest) == LowerAll(Split(Split(rest, ':')[0], ','))
  {
    SplitAtSep(ev, rest, ':');
    SplitWithoutSep(ev, ':');
  }

  /** A hook fires for `event` and `command` only if its event, lowercased,
      is `event` lowercased. */
  lemma OtherEventNeverFires(ev: string, rest: string, event: string, command: string)
    requires ':' !in ev
    requires Lower(ev) != Lower(event)
    ensures !Triggered(ev + ":" + rest, event, command)
  {
    TriggerParts(ev, rest);
  }

  /** `event:c1,c2,...` fires exactly for the listed commands, up to case. */
  lemma CommandListFires(ev: string, cmds: seq<string>, event: string, command: string)
    requires ':' !in ev && |cmds| >= 1
    requires forall i :: 0 <= i < |cmds| ==> ':' !in cmds[i] && ',' !in cmds[i]
    ensures Triggered(ev + ":" + Join(cmds, ","), event, command)
            <==> Lower(ev) == Lower(event) && Lower(command) in LowerAll(cmds)
  {
    var rest := Join(cmds, ",");
    TriggerParts(ev, rest);
    JoinHasNoSep(cmds, ':', ",");
    SplitWithoutSep(rest, ':');
    SplitJoin(cmds, ',');
  }

  lemma {:induction false} JoinHasNoSep(parts: seq<string>, c: char, sep: string)
    requires forall i :: 0 <= i < |parts| ==> c !in parts[i]
    requires c !in sep
    ensures c !in Join(parts, sep)
  {
    if |parts| > 1 {
      JoinHasNoSep(parts[1..], c, sep);
    }
  }

  /** `event:` has the command list `[""]`: it fires only for the empty
      command. */
  lemma EmptyCommandListFiresForEmptyCommand(ev: string, event: string, command: string)
    requires ':' !in ev
    ensures TriggerCommands(ev + ":") == [""]
    ensures Triggered(ev + ":", event, command) <==> Lower(ev) == Lower(event) && command == ""
  {
    TriggerParts(ev, "");
    assert ev + ":" + "" == ev + ":";
    assert Lower("") == "";
  }

  /** Text after a second ':' is ignored. */
  lemma SecondColonIgnored(ev: string, cmds: string, rest: string, event: string, command: string)
    requires ':' !in ev && ':' !in cmds
    ensures Triggered(ev + ":" + cmds + ":" + rest, event, command) == Triggered(ev + ":" + cmds, event, command)
  {
    TriggerParts(ev, cmds + ":" + rest);
    assert ev + ":" + cmds + ":" + rest == ev + ":" + (cmds + ":" + rest);
    SplitAtSep(cmds, rest, ':');
    SplitWithoutSep(cmds, ':');
    TriggerParts(ev, cmds);
  }

  // ===== Cache key =====

  /** `getCacheKey`: working directory (when set and not empty), command,
      script and the arguments joined with '_', concatenated. */
  function CacheKey(h: Hook): (r: string)
    ensures h.workingDir.Some? && h.workingDir.value != "" ==> h.workingDir.value <= r
    ensures h.workingDir in {None, Some("")} && h.command.Some? ==> h.command.value <= r
  {
    (if h.workingDir.Some? && h.workingDir.value != "" then h.workingDir.value else "")
    + (if h.command.Some? then h.command.value else "")
    + (if h.script.Some? then h.script.value else "")
    + (if h.arguments.Some? then Join(h.arguments.value, "_") else "")
  }

  /** The key depends only on the invocation: the trigger, `set_env` and
      `disable_cache` do not enter it, and an absent working directory is
      the same as an empty one. */
  lemma CacheKeyDependsOnInvocationOnly(h1: Hook, h2: Hook)
    requires h1.command == h2.command && h1.script == h2.script && h1.arguments == h2.arguments
    requires h1.workingDir == h2.workingDir || (h1.workingDir in {None, Some("")} && h2.workingDir in {None, Some("")})
    ensures CacheKey(h1) == CacheKey(h2)
  {
  }

  /** Plain concatenation makes different invocations share a key: command
      `ab` and command `a` with script `b`; arguments `[a_b]` and `[a, b]`. */
  lemma CacheKeyCollisions(t: string)
    ensures CacheKey(Hook(t, None, Some("ab"), None, None, None, None))
         == CacheKey(Hook(t, None, Some("a"), Some("b"), None, None, None))
    ensures CacheKey(Hook(t, None, None, None, Some(["a_b"]), None, None))
         == CacheKey(Hook(t, None, None, None, Some(["a", "b"]), None, None))
  {
    assert Join(["a", "b"], "_") == "a" + "_" + Join(["b"], "_");
  }

  // ===== Executors and their creators =====

  /** What running a hook's command yields; decided outside the model. */
  datatype RunOutcome = Succeeded(output: string) | Failed(message: string)

  /** The collaborators the runner calls: the executor's command, given the
      hook and how many times it already ran, and `pstrings.ParseVars`. */
  datatype Effects = Effects(execute: (Hook, nat) -> RunOutcome, parseVars: string -> map<string, string>)

  /** An `ExecutorCreator`, reduced to its `CanCreate` test. */
  datatype Creator = Creator(canCreate: Hook -> bool)

  /** The observable state of an executor: the hook and creator it was made
      from, whether it has run, its last output and how often it ran. */
  datatype ExecState = ExecState(hook: Hook, creator: nat, hasRun: bool, output: string, runs: nat)

  /** One call of an executor's `Run`. */
  function Invoke(s: ExecState, fx: Effects): (Option<Error>, ExecState)
  {
    match fx.execute(s.hook, s.runs)
    case Succeeded(out) => (None, s.(hasRun := true, output := out, runs := s.runs + 1))
    case Failed(msg) => (Some(HookFailed(msg)), s.(runs := s.runs + 1))
  }

  class Executor {
    const hook: Hook
    const creator: nat
    var hasRun: bool
    var output: string
    var runs: nat

    constructor (hook: Hook, creator: nat)
      ensures State() == ExecState(hook, creator, false, "", 0)
    {
      this.hook := hook;
      this.creator := creator;
      hasRun := false;
      output := "";
      runs := 0;
    }

    function State(): ExecState
      reads this
    {
      ExecState(hook, creator, hasRun, output, runs)
    }

    method Run(fx: Effects) returns (err: Option<Error>)
      modifies this
      ensures (err, State()) == Invoke(old(State()), fx)
    {
      runs := runs + 1;
      match fx.execute(hook, runs - 1) {
        case Succeeded(out) =>
          hasRun, output := true, out;
          return None;
        case Failed(msg) =>
          return Some(HookFailed(msg));
      }
    }
  }

  /** The first creator, in registration order, that accepts `h`. */
  function FirstCreator(creators: seq<Creator>, h: Hook): (r: Option<nat>)
    ensures r.Some? ==> r.value < |creators| && creators[r.value].canCreate(h)
                        && forall j :: 0 <= j < r.value ==> !creators[j].canCreate(h)
    ensures r.None? ==> forall j :: 0 <= j < |creators| ==> !creators[j].canCreate(h)
  {
    if creators == [] then None
    else if creators[0].canCreate(h) then Some(0)
    else match FirstCreator(creators[1..], h)
      case None => None
      case Some(i) => Some(i + 1)
  }

  /** The creator at `i` is the first that accepts `h` when it accepts and
      none before it does. */
  lemma FirstCreatorIs(creators: seq<Creator>, h: Hook, i: nat)
    requires i < |creators| && creators[i].canCreate(h)
    requires forall j :: 0 <= j < i ==> !creators[j].canCreate(h)
    ensures FirstCreator(creators, h) == Some(i)
  {
  }

  /** `getExecutor` on the cache's observable state: a hit leaves the cache
      as it is, a miss adds a fresh executor from the first accepting
      creator, and no accepting creator is a failure (`None`). */
  function Lookup(cache: map<string, ExecState>, creators: seq<Creator>, h: Hook): (r: Option<map<string, ExecState>>)
  {
    var key := CacheKey(h);
    if key in cache then Some(cache)
    else match FirstCreator(creators, h)
      case None => None
      case Some(i) => Some(cache[key := ExecState(h, i, false, "", 0)])
  }

  /** The outcome of running hooks: the error, if any, the cache and the
      environment. */
  datatype Pass = Pass(err: Option<Error>, cache: map<string, ExecState>, env: map<string, string>)

  /** A fired hook on its executor's state: run the executor if it has not
      run or the hook disables the cache, and with `set_env` copy the parsed
      output into the environment. A failed run stops before the copy. */
  function Fired(s: ExecState, h: Hook, env: map<string, string>, fx: Effects): (Option<Error>, ExecState, map<string, string>)
  {
    var (e, s') := if !s.hasRun || h.CacheDisabled() then Invoke(s, fx) else (None, s);
    if e.Some? then (e, s', env)
    else (None, s', if h.SetsEnv() then env + fx.parseVars(s'.output) else env)
  }

  /** One iteration of `Run` on observable state: look up the hook's
      executor (failing if there is none), then skip the hook if it does not
      fire, or fire it. */
  function Step(cache: map<string, ExecState>, creators: seq<Creator>, h: Hook,
                env: map<string, string>, event: string, command: string, fx: Effects): Pass
  {
    var key := CacheKey(h);
    match Lookup(cache, creators, h)
    case None => Pass(Some(NoExecutorFound), cache, env)
    case Some(c1) =>
      if !Triggered(h.triggerOn, event, command) then Pass(None, c1, env)
      else
        assert key in c1;
        var (e, s', env') := Fired(c1[key], h, env, fx);
        Pass(e, c1[key := s'], env')
  }

  /** `Run` on observable state: the hooks in declaration order, stopping at
      the first error. */
  function RunSpec(cache: map<string, ExecState>, creators: seq<Creator>, hooks: seq<Hook>,
                   env: map<string, string>, event: string, command: string, fx: Effects): Pass
    decreases |hooks|
  {
    if hooks == [] then Pass(None, cache, env)
    else
      var p := Step(cache, creators, hooks[0], env, event, command, fx);
      if p.err.Some? then p
      else RunSpec(p.cache, creators, hooks[1..], p.env, event, command, fx)
  }

  /** The outcome of running the hooks of several files. */
  datatype AllPass = AllPass(err: Option<Error>, cache: map<string, ExecState>, envs: seq<map<string, string>>)

  /** `RunAll` on observable state: the files in order, stopping at the
      first error. */
  function RunAllSpec(cache: map<string, ExecState>, creators: seq<Creator>, hookss: seq<seq<Hook>>,
                      envs: seq<map<string, string>>, event: string, command: string, fx: Effects): (r: AllPass)
    requires |hookss| == |envs|
    ensures |r.envs| == |envs|
    decreases |hookss|
  {
    if hookss == [] then AllPass(None, cache, [])
    else
      var p := RunSpec(cache, creators, hookss[0], envs[0], event, command, fx);
      if p.err.Some? then AllPass(p.err, p.cache, [p.env] + envs[1..])
      else
        var rest := RunAllSpec(p.cache, creators, hookss[1..], envs[1..], event, command, fx);
        AllPass(rest.err, rest.cache, [p.env] + rest.envs)
  }

  // ===== The runner =====

  class Runner {
    /** All executors created so far, by cache key. */
    var cache: map<string, Executor>
    /** The executor creators, in registration order. */
    const creators: seq<Creator>
    /** The observable state of every cached executor. */
    ghost var states: map<string, ExecState>

    /** `states` is the executors' state, and every executor is stored under
        the key of the hook it was created from (so distinct keys hold
        distinct executors). */
    ghost predicate Valid()
      reads this, cache.Values
    {
      && states.Keys == cache.Keys
      && forall k :: k in cache ==> CacheKey(cache[k].hook) == k && cache[k].State() == states[k]
    }

    /** `New`: an empty cache and the command creator as the only creator. */
    constructor (commandCreator: Creator)
      ensures Valid() && cache == map[] && states == map[] && creators == [commandCreator]
    {
      cache := map[];
      creators := [commandCreator];
      states := map[];
    }

    /** `ShouldRun` */
    method ShouldRun(hook: Hook, event: string, command: string) returns (r: bool)
      ensures r == Triggered(hook.triggerOn, event, command)
    {
      var ev := Lower(event);
      var cmd := Lower(command);
      var split := Split(hook.triggerOn, ':');
      var hookEvent := Lower(split[0]);
      var hookCommands: seq<string> := [];
      if |split| > 1 {
        var cmds := Split(split[1], ',');
        var i := 0;
        while i < |cmds|
          invariant 0 <= i <= |cmds|
          invariant hookCommands == LowerAll(cmds[..i])
        {
          hookCommands := hookCommands + [Lower(cmds[i])];
          i := i + 1;
        }
        assert cmds[..|cmds|] == cmds;
      }
      if hookEvent != ev {
        return false;
      }
      if |hookCommands| == 0 {
        return true;
      }
      var j := 0;
      while j < |hookCommands|
        invariant 0 <= j <= |hookCommands|
        invariant forall k :: 0 <= k < j ==> hookCommands[k] != cmd
      {
        if hookCommands[j] == cmd {
          return true;
        }
        j := j + 1;
      }
      return false;
    }

    /** `getExecutor` */
    method GetExecutor(hook: Hook) returns (exec: Executor?, err: Option<Error>)
      requires Valid()
      modifies this`cache, this`states
      ensures Valid()
      ensures Lookup(old(states), creators, hook).None? ==>
                err == Some(NoExecutorFound) && exec == null && cache == old(cache) && states == old(states)
      ensures Lookup(old(states), creators, hook).Some? ==>
                && err == None && exec != null
                && CacheKey(hook) in cache && cache[CacheKey(hook)] == exec
                && states == Lookup(old(states), creators, hook).value
                && (CacheKey(hook) in old(cache) ==> cache == old(cache))
                && (CacheKey(hook) !in old(cache) ==> fresh(exec) && cache == old(cache)[CacheKey(hook) := exec])
      ensures forall k :: k in old(cache) ==> k in cache && cache[k] == old(cache)[k]
      ensures fresh(cache.Values - old(cache.Values))
    {
      var key := CacheKey(hook);
      if key in cache {
        return cache[key], None;
      }
      var i := 0;
      while i < |creators|
        invariant 0 <= i <= |creators|
        invariant forall j :: 0 <= j < i ==> !creators[j].canCreate(hook)
      {
        if creators[i].canCreate(hook) {
          FirstCreatorIs(creators, hook, i);
          exec := new Executor(hook, i);
          cache := cache[key := exec];
          states := states[key := exec.State()];
          return exec, None;
        }
        i := i + 1;
      }
      assert FirstCreator(creators, hook) == None;
      return null, Some(NoExecutorFound);
    }

    /** `Run` */
    method Run(file: File, event: string, command: string, fx: Effects) returns (err: Option<Error>)
      requires Valid()
      modifies this`cache, this`states, cache.Values, file`env
      ensures Valid()
      ensures var p := RunSpec(old(states), creators, file.hooks, old(file.env), event, command, fx);
              err == p.err && states == p.cache && file.env == p.env
      ensures forall k :: k in old(cache) ==> k in cache && cache[k] == old(cache)[k]
      ensures fresh(cache.Values - old(cache.Values))
    {
      var i := 0;
      while i < |file.hooks|
        invariant 0 <= i <= |file.hooks|
        invariant Valid()
        invariant RunSpec(old(states), creators, file.hooks, old(file.env), event, command, fx)
               == RunSpec(states, creators, file.hooks[i..], file.env, event, command, fx)
        invariant forall k :: k in old(cache) ==> k in cache && cache[k] == old(cache)[k]
        invariant fresh(cache.Values - old(cache.Values))
      {
        assert file.hooks[i..][1..] == file.hooks[i + 1..];
        err := RunHook(file, file.hooks[i], event, command, fx);
        if err.Some? {
          return;
        }
        i := i + 1;
      }
      return None;
    }

    /** The body of `Run`'s loop, for one hook. */
    method RunHook(file: File, hook: Hook, event: string, command: string, fx: Effects) returns (err: Option<Error>)
      requires Valid()
      modifies this`cache, this`states, cache.Values, file`env
      ensures Valid()
      ensures var p := Step(old(states), creators, hook, old(file.env), event, command, fx);
              err == p.err && states == p.cache && file.env == p.env
      ensures forall k :: k in old(cache) ==> k in cache && cache[k] == old(cache)[k]
      ensures fresh(cache.Values - old(cache.Values))
    {
      var exec, lerr := GetExecutor(hook);
      if lerr.Some? {
        return lerr;
      }
      ghost var c1 := states;
      assert Lookup(old(states), creators, hook) == Some(c1);
      var fire := ShouldRun(hook, event, command);
      if !fire {
        return None;
      }
      err := FireCached(exec, file, hook, fx);
    }

    /** Fires `hook` on the cached executor `exec`, keeping `states` in step. */
    method FireCached(exec: Executor, file: File, hook: Hook, fx: Effects) returns (err: Option<Error>)
      requires Valid()
      requires CacheKey(hook) in cache && cache[CacheKey(hook)] == exec
      modifies this`states, exec, file`env
      ensures Valid()
      ensures var (e, s', env') := Fired(old(states)[CacheKey(hook)], hook, old(file.env), fx);
              err == e && states == old(states)[CacheKey(hook) := s'] && file.env == env'
    {
      ghost var key := CacheKey(hook);
      err := Fire(exec, file, hook, fx);
      states := states[key := exec.State()];
      forall k | k in cache && k != key
        ensures cache[k].State() == states[k]
      {
        assert CacheKey(cache[k].hook) != CacheKey(exec.hook);
      }
    }

    /** `RunAll` */
    method RunAll(files: seq<File>, event: string, command: string, fx: Effects) returns (err: Option<Error>)
      requires Valid()
      requires Distinct(files)
      modifies this`cache, this`states, cache.Values, set f | f in files
      ensures Valid()
      ensures var a := RunAllSpec(old(states), creators, HooksOf(files), old(EnvsOf(files)), event, command, fx);
              err == a.err && states == a.cache && EnvsOf(files) == a.envs
    {
      ghost var envs0 := EnvsOf(files);
      ghost var done: seq<map<string, string>> := [];
      var i := 0;
      while i < |files|
        invariant 0 <= i <= |files| && |done| == i
        invariant Valid()
        invariant forall j :: 0 <= j < i ==> files[j].env == done[j]
        invariant forall j :: i <= j < |files| ==> files[j].env == envs0[j]
        invariant RunAllSpec(old(states), creators, HooksOf(files), envs0, event, command, fx)
               == Prepend(done, RunAllSpec(states, creators, HooksOf(files)[i..], envs0[i..], event, command, fx))
        invariant fresh(cache.Values - old(cache.Values))
      {
        RunAllAdvance(old(states), creators, HooksOf(files), envs0, event, command, fx, done, states, i);
        var e;
        e, done := RunAt(files, i, event, command, fx, done, envs0);
        if e.Some? {
          EnvsOfSplit(files, done, envs0);
          return e;
        }
        i := i + 1;
      }
      EnvsOfSplit(files, done, envs0);
      return None;
    }

    /** One turn of `RunAll`'s loop: `Run` on file `i`, whose environment
        becomes the one its pass produced; the others keep theirs. */
    method RunAt(files: seq<File>, i: nat, event: string, command: string, fx: Effects,
                 ghost done: seq<map<string, string>>, ghost envs0: seq<map<string, string>>)
      returns (err: Option<Error>, ghost done': seq<map<string, string>>)
      requires Valid()
      requires Distinct(files)
      requires i < |files| == |envs0| && |done| == i
      requires forall j :: 0 <= j < i ==> files[j].env == done[j]
      requires forall j :: i <= j < |files| ==> files[j].env == envs0[j]
      modifies this`cache, this`states, cache.Values, files[i]
      ensures Valid()
      ensures fresh(cache.Values - old(cache.Values))
      ensures var p := RunSpec(old(states), creators, HooksOf(files)[i], envs0[i], event, command, fx);
              && err == p.err && states == p.cache && done' == done + [p.env]
      ensures forall j :: 0 <= j < i + 1 ==> files[j].env == done'[j]
      ensures forall j :: i + 1 <= j < |files| ==> files[j].env == envs0[j]
    {
      forall j | 0 <= j < |files| && j != i
        ensures files[j] != files[i]
      {
        DistinctAt(files, i, j);
      }
      ghost var p := RunSpec(states, creators, files[i].hooks, files[i].env, event, command, fx);
      err := Run(files[i], event, command, fx);
      done' := done + [p.env];
    }
  }

  /** One more file of `RunAll`: if running the hooks of file `i` fails,
      that ends the pass; otherwise the pass goes on from file `i + 1`. */
  lemma RunAllAdvance(c0: map<string, ExecState>, creators: seq<Creator>, hookss: seq<seq<Hook>>,
                      envs: seq<map<string, string>>, event: string, command: string, fx: Effects,
                      done: seq<map<string, string>>, c: map<string, ExecState>, i: nat)
    requires |hookss| == |envs| && i < |hookss|
    requires RunAllSpec(c0, creators, hookss, envs, event, command, fx)
          == Prepend(done, RunAllSpec(c, creators, hookss[i..], envs[i..], event, command, fx))
    ensures var p := RunSpec(c, creators, hookss[i], envs[i], event, command, fx);
            && (p.err.Some? ==> RunAllSpec(c0, creators, hookss, envs, event, command, fx)
                                == AllPass(p.err, p.cache, done + [p.env] + envs[i + 1..]))
            && (p.err.None? ==> RunAllSpec(c0, creators, hookss, envs, event, command, fx)
                                == Prepend(done + [p.env], RunAllSpec(p.cache, creators, hookss[i + 1..], envs[i + 1..], event, command, fx)))
  {
    var hs, es := hookss[i..], envs[i..];
    assert hs[0] == hookss[i] && hs[1..] == hookss[i + 1..];
    assert es[0] == envs[i] && es[1..] == envs[i + 1..];
    var p := RunSpec(c, creators, hs[0], es[0], event, command, fx);
    if p.err.Some? {
      assert done + ([p.env] + es[1..]) == done + [p.env] + envs[i + 1..];
    } else {
      var rest := RunAllSpec(p.cache, creators, hs[1..], es[1..], event, command, fx);
      assert done + ([p.env] + rest.envs) == done + [p.env] + rest.envs;
    }
  }

  /** Puts the environments of the files already run in front of a pass over the rest. */
  function Prepend(done: seq<map<string, string>>, a: AllPass): AllPass
  {
    AllPass(a.err, a.cache, done + a.envs)
  }

  /** Fires a hook whose trigger matched on its executor. */
  method Fire(exec: Executor, file: File, hook: Hook, fx: Effects) returns (err: Option<Error>)
    modifies exec, file`env
    ensures (err, exec.State(), file.env) == Fired(old(exec.State()), hook, old(file.env), fx)
  {
    if !exec.hasRun || hook.CacheDisabled() {
      err := exec.Run(fx);
      if err.Some? {
        return;
      }
    }
    if hook.SetsEnv() {
      CopyVars(file, fx.parseVars(exec.output));
    }
    return None;
  }

  /** Copies every parsed pair into the file's environment, in place. */
  method CopyVars(file: File, vars: map<string, string>)
    modifies file`env
    ensures file.env == old(file.env) + vars
  {
    var keys := vars.Keys;
    while keys != {}
      invariant keys <= vars.Keys
      invariant file.env == old(file.env) + (map k | k in vars && k !in keys :: vars[k])
      decreases keys
    {
      var key :| key in keys;
      file.env := file.env[key := vars[key]];
      keys := keys - {key};
    }
    assert (map k | k in vars && k !in keys :: vars[k]) == vars;
  }

  /** No file occurs twice in `files`. */
  predicate Distinct(files: seq<File>)
  {
    files == [] || (files[0] !in files[1..] && Distinct(files[1..]))
  }

  lemma {:induction false} DistinctAt(files: seq<File>, i: int, j: int)
    requires Distinct(files)
    requires 0 <= i < |files| && 0 <= j < |files| && i != j
    ensures files[i] != files[j]
  {
    if i != 0 && j != 0 {
      DistinctAt(files[1..], i - 1, j - 1);
    } else if i == 0 {
      assert files[j] == files[1..][j - 1];
    } else {
      assert files[i] == files[1..][i - 1];
    }
  }

  function HooksOf(files: seq<File>): seq<seq<Hook>>
  {
    seq(|files|, i requires 0 <= i < |files| => files[i].hooks)
  }

  /** The files' environments are `done` for the first files and `envs`
      for the rest. */
  lemma EnvsOfSplit(files: seq<File>, done: seq<map<string, string>>, envs: seq<map<string, string>>)
    requires |done| <= |files| == |envs|
    requires forall j :: 0 <= j < |done| ==> files[j].env == done[j]
    requires forall j :: |done| <= j < |files| ==> files[j].env == envs[j]
    ensures EnvsOf(files) == done + envs[|done|..]
  {
  }

  function EnvsOf(files: seq<File>): seq<map<string, string>>
    reads set f | f in files
  {
    seq(|files|, i requires 0 <= i < |files| reads set f | f in files => files[i].env)
  }
}

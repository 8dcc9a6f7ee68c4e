/** What the hook runner promises across several hooks and passes: executors
    run at most once unless a hook disables caching, running the same hooks
    again changes nothing, hooks that do not fire never run, and the
    environment receives the parsed output of every fired `set_env` hook. */
module HookLaws {
  import opened Common
  import opened Config
  import opened Hooks

  /** No hook in `hooks` sets `disable_cache`. */
  predicate NoneDisabled(hooks: seq<Hook>)
  {
    forall i :: 0 <= i < |hooks| ==> !hooks[i].CacheDisabled()
  }

  /** Every hook has an executor in `c`, and every hook that fires has one
      that has already run. */
  predicate Saturated(c: map<string, ExecState>, hooks: seq<Hook>, event: string, command: string)
  {
    forall i :: 0 <= i < |hooks| ==>
      CacheKey(hooks[i]) in c
      && (Triggered(hooks[i].triggerOn, event, command) ==> c[CacheKey(hooks[i])].hasRun)
  }

  /** The variables one hook contributes to the environment, read from its
      executor's output in `c`. */
  function Contribution(c: map<string, ExecState>, h: Hook, event: string, command: string, fx: Effects): map<string, string>
  {
    if CacheKey(h) in c && Triggered(h.triggerOn, event, command) && h.SetsEnv()
    then fx.parseVars(c[CacheKey(h)].output)
    else map[]
  }

  /** The variables all hooks contribute, later hooks overriding earlier ones. */
  function Updates(c: map<string, ExecState>, hooks: seq<Hook>, event: string, command: string, fx: Effects): map<string, string>
  {
    if hooks == [] then map[]
    else Contribution(c, hooks[0], event, command, fx) + Updates(c, hooks[1..], event, command, fx)
  }

  lemma UnionAbsorbs(x: map<string, string>, y: map<string, string>)
    ensures (x + y) + y == x + y
  {
  }

  /** Replaying hooks whose executors have all run, with caching on, runs
      nothing and only copies their stored output into the environment. */
  lemma {:induction false} ReplaySaturated(c: map<string, ExecState>, creators: seq<Creator>, hooks: seq<Hook>,
                                          env: map<string, string>, event: string, command: string, fx: Effects)
    requires NoneDisabled(hooks) && Saturated(c, hooks, event, command)
    ensures RunSpec(c, creators, hooks, env, event, command, fx)
            == Pass(None, c, env + Updates(c, hooks, event, command, fx))
    decreases |hooks|
  {
    if hooks != [] {
      var h, rest := hooks[0], hooks[1..];
      assert NoneDisabled(rest) && Saturated(c, rest, event, command) by {
        forall i | 0 <= i < |rest| ensures rest[i] == hooks[i + 1] { }
      }
      var u := Contribution(c, h, event, command, fx);
      var p := Step(c, creators, h, env, event, command, fx);
      assert p == Pass(None, c, env + u);
      ReplaySaturated(c, creators, rest, env + u, event, command, fx);
      UnionAssoc(env, u, Updates(c, rest, event, command, fx));
    }
  }

  /** A successful pass with caching on leaves every hook with an executor,
      every fired hook with one that has run, never touches an executor
      that had already run, and its environment is the start environment
      with the final executors' contributions. */
  lemma {:induction false} FirstPass(c: map<string, ExecState>, creators: seq<Creator>, hooks: seq<Hook>,
                                    env: map<string, string>, event: string, command: string, fx: Effects)
    requires NoneDisabled(hooks)
    requires RunSpec(c, creators, hooks, env, event, command, fx).err == None
    ensures var p := RunSpec(c, creators, hooks, env, event, command, fx);
            && c.Keys <= p.cache.Keys
            && (forall k :: k in c && c[k].hasRun ==> p.cache[k] == c[k])
            && Saturated(p.cache, hooks, event, command)
            && p.env == env + Updates(p.cache, hooks, event, command, fx)
    decreases |hooks|
  {
    var p := RunSpec(c, creators, hooks, env, event, command, fx);
    if hooks != [] {
      var h, rest := hooks[0], hooks[1..];
      var k := CacheKey(h);
      assert NoneDisabled(rest) by {
        forall i | 0 <= i < |rest| ensures rest[i] == hooks[i + 1] { }
      }
      var s := Step(c, creators, h, env, event, command, fx);
      StepWithCaching(c, creators, h, env, event, command, fx);
      FirstPass(s.cache, creators, rest, s.env, event, command, fx);
      assert Contribution(p.cache, h, event, command, fx) == Contribution(s.cache, h, event, command, fx);
      forall i | 0 <= i < |hooks|
        ensures CacheKey(hooks[i]) in p.cache
        ensures Triggered(hooks[i].triggerOn, event, command) ==> p.cache[CacheKey(hooks[i])].hasRun
      {
        if i > 0 {
          assert hooks[i] == rest[i - 1];
        }
      }
      UnionAssoc(env, Contribution(s.cache, h, event, command, fx), Updates(p.cache, rest, event, command, fx));
    }
  }

  /** One successful step with caching on: the hook has an executor, which
      has run if the hook fired; executors that had run are untouched; the
      environment gains the hook's contribution. */
  lemma StepWithCaching(c: map<string, ExecState>, creators: seq<Creator>, h: Hook,
                        env: map<string, string>, event: string, command: string, fx: Effects)
    requires !h.CacheDisabled()
    requires Step(c, creators, h, env, event, command, fx).err == None
    ensures var s := Step(c, creators, h, env, event, command, fx);
            && CacheKey(h) in s.cache && c.Keys <= s.cache.Keys
            && (Triggered(h.triggerOn, event, command) ==> s.cache[CacheKey(h)].hasRun)
            && (forall j :: j in c && c[j].hasRun ==> s.cache[j] == c[j])
            && s.env == env + Contribution(s.cache, h, event, command, fx)
  {
  }

  /** Running the same hooks a second time, with caching on, after a
      successful pass, changes nothing: no executor runs again and the
      environment is already what the second pass would make it. */
  lemma RunIdempotent(c: map<string, ExecState>, creators: seq<Creator>, hooks: seq<Hook>,
                      env: map<string, string>, event: string, command: string, fx: Effects)
    requires NoneDisabled(hooks)
    requires RunSpec(c, creators, hooks, env, event, command, fx).err == None
    ensures var p := RunSpec(c, creators, hooks, env, event, command, fx);
            RunSpec(p.cache, creators, hooks, p.env, event, command, fx) == p
  {
    var p := RunSpec(c, creators, hooks, env, event, command, fx);
    var u := Updates(p.cache, hooks, event, command, fx);
    FirstPass(c, creators, hooks, env, event, command, fx);
    ReplaySaturated(p.cache, creators, hooks, p.env, event, command, fx);
    UnionAbsorbs(env, u);
  }

  /** A pass in which no hook fires runs no executor and leaves the
      environment as it was; it may still create executors, which have
      not run. */
  lemma {:induction false} NothingFiresNothingRuns(c: map<string, ExecState>, creators: seq<Creator>, hooks: seq<Hook>,
                                                  env: map<string, string>, event: string, command: string, fx: Effects)
    requires forall i :: 0 <= i < |hooks| ==> !Triggered(hooks[i].triggerOn, event, command)
    ensures var p := RunSpec(c, creators, hooks, env, event, command, fx);
            && p.env == env
            && (forall k :: k in c ==> k in p.cache && p.cache[k] == c[k])
            && (forall k :: k in p.cache && k !in c ==> !p.cache[k].hasRun && p.cache[k].runs == 0)
    decreases |hooks|
  {
    if hooks != [] {
      var s := Step(c, creators, hooks[0], env, event, command, fx);
      if s.err == None {
        assert forall i :: 0 <= i < |hooks[1..]| ==> hooks[1..][i] == hooks[i + 1];
        NothingFiresNothingRuns(s.cache, creators, hooks[1..], env, event, command, fx);
      }
    }
  }

  /** A fired hook that disables caching runs its executor again even when
      it has run before. The executor runs the hook it was created from,
      which shares the key but may be another hook. */
  lemma DisabledCacheReruns(c: map<string, ExecState>, creators: seq<Creator>, h: Hook,
                            env: map<string, string>, event: string, command: string, fx: Effects)
    requires CacheKey(h) in c && c[CacheKey(h)].hasRun
    requires h.CacheDisabled() && Triggered(h.triggerOn, event, command)
    ensures var p := Step(c, creators, h, env, event, command, fx);
            && CacheKey(h) in p.cache
            && p.cache[CacheKey(h)].runs == c[CacheKey(h)].runs + 1
            && (fx.execute(c[CacheKey(h)].hook, c[CacheKey(h)].runs).Failed? <==> p.err.Some?)
  {
    var s := c[CacheKey(h)];
    assert Lookup(c, creators, h) == Some(c);
    var f := Fired(s, h, env, fx);
    assert f.0 == Invoke(s, fx).0 && f.1 == Invoke(s, fx).1;
    assert Step(c, creators, h, env, event, command, fx) == Pass(f.0, c[CacheKey(h) := f.1], f.2);
  }

  /** A fired hook with caching on whose executor has run does not run it
      again; with `set_env` it copies the executor's earlier output. */
  lemma CachedHookDoesNotRerun(c: map<string, ExecState>, creators: seq<Creator>, h: Hook,
                               env: map<string, string>, event: string, command: string, fx: Effects)
    requires CacheKey(h) in c && c[CacheKey(h)].hasRun && !h.CacheDisabled()
    ensures Step(c, creators, h, env, event, command, fx)
            == Pass(None, c, env + Contribution(c, h, event, command, fx))
  {
  }

  /** Two hooks with the same key share one executor: after the first has
      run, the second, with caching on, does not run, so its own command
      never executes even when it differs from the first's. */
  lemma SharedKeyReusesExecutor(c: map<string, ExecState>, creators: seq<Creator>, h1: Hook, h2: Hook,
                                env: map<string, string>, event: string, command: string, fx: Effects)
    requires CacheKey(h1) == CacheKey(h2) && CacheKey(h1) !in c
    requires FirstCreator(creators, h1).Some?
    requires Triggered(h1.triggerOn, event, command) && Triggered(h2.triggerOn, event, command)
    requires !h1.CacheDisabled() && !h2.CacheDisabled()
    requires fx.execute(h1, 0).Succeeded?
    ensures var p := RunSpec(c, creators, [h1, h2], env, event, command, fx);
            && p.err == None
            && CacheKey(h1) in p.cache
            && p.cache[CacheKey(h1)].hook == h1
            && p.cache[CacheKey(h1)].runs == 1
  {
    var key := CacheKey(h1);
    var i := FirstCreator(creators, h1).value;
    var fresh0 := ExecState(h1, i, false, "", 0);
    assert Lookup(c, creators, h1) == Some(c[key := fresh0]);
    var out := fx.execute(h1, 0).output;
    assert Invoke(fresh0, fx) == (None, fresh0.(hasRun := true, output := out, runs := 1));
    var s := Step(c, creators, h1, env, event, command, fx);
    assert s.err == None && s.cache == c[key := fresh0.(hasRun := true, output := out, runs := 1)];
    assert [h1, h2][1..] == [h2];
    assert [h2][1..] == [];
    CachedHookDoesNotRerun(s.cache, creators, h2, s.env, event, command, fx);
    assert RunSpec(c, creators, [h1, h2], env, event, command, fx)
        == RunSpec(s.cache, creators, [h2], s.env, event, command, fx);
    var t := Step(s.cache, creators, h2, s.env, event, command, fx);
    assert RunSpec(s.cache, creators, [h2], s.env, event, command, fx)
        == RunSpec(t.cache, creators, [], t.env, event, command, fx);
  }

  /** A pass fails for want of an executor exactly when a hook's key is not
      cached and no creator accepts it; whether the hook fires does not
      matter. That failure leaves the cache and the environment as they were. */
  lemma NoExecutorExactly(c: map<string, ExecState>, creators: seq<Creator>, h: Hook,
                          env: map<string, string>, event: string, command: string, fx: Effects)
    ensures var p := Step(c, creators, h, env, event, command, fx);
            && (p.err == Some(NoExecutorFound) <==> CacheKey(h) !in c && FirstCreator(creators, h).None?)
            && (p.err == Some(NoExecutorFound) ==> p.cache == c && p.env == env)
  {
  }

  /** A new executor comes from the first creator that accepts the hook and
      has not run; the rest of the cache is untouched. */
  lemma LookupCreates(c: map<string, ExecState>, creators: seq<Creator>, h: Hook)
    requires CacheKey(h) !in c
    requires Lookup(c, creators, h).Some?
    ensures var c1 := Lookup(c, creators, h).value;
            && c1.Keys == c.Keys + {CacheKey(h)}
            && (forall k :: k in c ==> c1[k] == c[k])
            && var s := c1[CacheKey(h)];
               s.creator < |creators| && creators[s.creator].canCreate(h)
               && (forall j :: 0 <= j < s.creator ==> !creators[j].canCreate(h))
               && !s.hasRun && s.runs == 0 && s.hook == h
  {
  }

  /** Fail-fast in hook order: running hooks in two groups is running the
      second group on what the first left behind, unless the first failed,
      in which case no hook of the second group is looked up or run. */
  lemma {:induction false} RunConcat(c: map<string, ExecState>, creators: seq<Creator>, hs1: seq<Hook>, hs2: seq<Hook>,
                                    env: map<string, string>, event: string, command: string, fx: Effects)
    ensures var p := RunSpec(c, creators, hs1, env, event, command, fx);
            RunSpec(c, creators, hs1 + hs2, env, event, command, fx)
            == if p.err.Some? then p else RunSpec(p.cache, creators, hs2, p.env, event, command, fx)
    decreases |hs1|
  {
    if hs1 == [] {
      assert hs1 + hs2 == hs2;
    } else {
      assert (hs1 + hs2)[0] == hs1[0] && (hs1 + hs2)[1..] == hs1[1..] + hs2;
      var s := Step(c, creators, hs1[0], env, event, command, fx);
      if s.err.None? {
        RunConcat(s.cache, creators, hs1[1..], hs2, s.env, event, command, fx);
      }
    }
  }

  /** Running the files of `RunAll` in two groups is running the second
      group on what the first left behind, unless the first failed. */
  lemma {:induction false} RunAllConcat(c: map<string, ExecState>, creators: seq<Creator>,
                                       h1: seq<seq<Hook>>, e1: seq<map<string, string>>,
                                       h2: seq<seq<Hook>>, e2: seq<map<string, string>>,
                                       event: string, command: string, fx: Effects)
    requires |h1| == |e1| && |h2| == |e2|
    ensures var a := RunAllSpec(c, creators, h1, e1, event, command, fx);
            RunAllSpec(c, creators, h1 + h2, e1 + e2, event, command, fx)
            == if a.err.Some? then AllPass(a.err, a.cache, a.envs + e2)
               else var b := RunAllSpec(a.cache, creators, h2, e2, event, command, fx);
                    AllPass(b.err, b.cache, a.envs + b.envs)
    decreases |h1|
  {
    if h1 == [] {
      assert h1 + h2 == h2 && e1 + e2 == e2;
    } else {
      assert (h1 + h2)[0] == h1[0] && (h1 + h2)[1..] == h1[1..] + h2;
      assert (e1 + e2)[0] == e1[0] && (e1 + e2)[1..] == e1[1..] + e2;
      var p := RunSpec(c, creators, h1[0], e1[0], event, command, fx);
      if p.err.Some? {
        assert [p.env] + (e1[1..] + e2) == [p.env] + e1[1..] + e2;
      } else {
        RunAllConcat(p.cache, creators, h1[1..], e1[1..], h2, e2, event, command, fx);
        var a' := RunAllSpec(p.cache, creators, h1[1..], e1[1..], event, command, fx);
        if a'.err.Some? {
          assert [p.env] + (a'.envs + e2) == ([p.env] + a'.envs) + e2;
        } else {
          var b := RunAllSpec(a'.cache, creators, h2, e2, event, command, fx);
          assert [p.env] + (a'.envs + b.envs) == ([p.env] + a'.envs) + b.envs;
        }
      }
    }
  }

  /** Only the first failing file's hooks run in part; every later file's
      environment is left as it was. */
  lemma {:induction false} RunAllStopsAtFailure(c: map<string, ExecState>, creators: seq<Creator>,
                                               hookss: seq<seq<Hook>>, envs: seq<map<string, string>>,
                                               event: string, command: string, fx: Effects, i: nat)
    requires |hookss| == |envs| && i < |hookss|
    requires RunAllSpec(c, creators, hookss[..i], envs[..i], event, command, fx).err == None
    requires var a := RunAllSpec(c, creators, hookss[..i], envs[..i], event, command, fx);
             RunSpec(a.cache, creators, hookss[i], envs[i], event, command, fx).err.Some?
    ensures var r := RunAllSpec(c, creators, hookss, envs, event, command, fx);
            r.err.Some? && r.envs[i + 1..] == envs[i + 1..]
  {
    assert hookss == hookss[..i] + hookss[i..] && envs == envs[..i] + envs[i..];
    RunAllConcat(c, creators, hookss[..i], envs[..i], hookss[i..], envs[i..], event, command, fx);
    assert hookss[i..][0] == hookss[i] && envs[i..][0] == envs[i];
    assert envs[i..][1..] == envs[i + 1..];
  }
}

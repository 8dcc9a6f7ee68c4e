/** The `destroy` command (`cmd/destroy.go`): the loaded module files are
    reversed in place, optionally checked for initialization, then destroyed
    one at a time, stopping at the first error. Per module: prepare hooks,
    auto-init, dependency resolution when no variables file exists, the
    engine's `destroy`, removal of the variables file and finish hooks. */
module Destroy {
  import opened Common
  import opened Loader

  // ===== Reversal =====

  /** `s` back to front. */
  function Reversed<T>(s: seq<T>): (r: seq<T>)
    ensures |r| == |s|
  {
    if s == [] then [] else [s[|s| - 1]] + Reversed(s[..|s| - 1])
  }

  /** Element `i` of the reversal is element `|s| - 1 - i` of `s`. */
  lemma {:induction false} ReversedIndex<T>(s: seq<T>)
    ensures forall i :: 0 <= i < |s| ==> Reversed(s)[i] == s[|s| - 1 - i]
  {
    if s != [] {
      var init := s[..|s| - 1];
      var r := Reversed(s);
      ReversedIndex(init);
      assert r == [s[|s| - 1]] + Reversed(init);
      forall i | 0 <= i < |s|
        ensures r[i] == s[|s| - 1 - i]
      {
        if i > 0 {
          assert r[i] == Reversed(init)[i - 1] == init[|init| - 1 - (i - 1)];
        }
      }
    }
  }

  /** A sequence is the reversal of `s` exactly when it is its mirror image. */
  lemma ReversedIsMirror<T>(s: seq<T>, r: seq<T>)
    ensures r == Reversed(s) <==> |r| == |s| && forall i :: 0 <= i < |s| ==> r[i] == s[|s| - 1 - i]
  {
    ReversedIndex(s);
  }

  /** Reversing twice gives the sequence back. */
  lemma ReversedTwice<T>(s: seq<T>)
    ensures Reversed(Reversed(s)) == s
  {
    ReversedIndex(s);
    ReversedIndex(Reversed(s));
  }

  /** Reversal keeps the same elements, each as often. */
  lemma {:induction false} ReversedSameElements<T>(s: seq<T>)
    ensures multiset(Reversed(s)) == multiset(s)
  {
    if s != [] {
      ReversedSameElements(s[..|s| - 1]);
      assert s == s[..|s| - 1] + [s[|s| - 1]];
    }
  }

  /** Three modules loaded as `[a, b, c]` are destroyed as `[c, b, a]`. */
  lemma ReversedThree<T>(a: T, b: T, c: T)
    ensures Reversed([a, b, c]) == [c, b, a]
  {
    ReversedIsMirror([a, b, c], [c, b, a]);
  }

  /** The two-index swap loop that reverses a slice in place. */
  method ReverseInPlace<T>(a: array<T>)
    modifies a
    ensures a[..] == Reversed(old(a[..]))
  {
    var i, j := 0, a.Length - 1;
    while i < j
      invariant 0 <= i && j == a.Length - 1 - i && i <= j + 1
      invariant forall k :: 0 <= k < i ==> a[k] == old(a[a.Length - 1 - k]) && a[a.Length - 1 - k] == old(a[k])
      invariant forall k :: i <= k <= j ==> a[k] == old(a[k])
    {
      a[i], a[j] := a[j], a[i];
      i, j := i + 1, j - 1;
    }
    ReversedIsMirror(old(a[..]), a[..]);
  }

  // ===== One module =====

  /** What the command does, in order, as seen from outside. */
  datatype Event =
    | HooksRun(name: string, event: string)       // `Runner.Run(file, event, "destroy")`
    | AutoInit(name: string)                      // `autoInit(file)`
    | Resolve(name: string)                       // `resolveDependencies(file)`
    | EngineDestroy(name: string, args: seq<string>) // the engine's `destroy` with its extra arguments
    | RemoveVarFile(name: string)                 // `paths.Remove(file.VariableFile())`

  /** What dependency resolution yields: an error, no success, or success,
      having written the variables file or not. */
  datatype Resolution = ResolveError(err: Error) | Unresolved | Resolved(writesVarFile: bool)

  /** The collaborators, decided outside the model: the hook runner's result
      per module and event, dependency resolution, the engine's `destroy`,
      and the extra arguments the engine's compatibility table leaves. */
  datatype Outside = Outside(
    hooks: (string, string) -> Option<Error>,
    resolve: string -> Resolution,
    destroy: (string, seq<string>) -> Option<Error>,
    baseArgs: seq<string>)

  /** The extra arguments of the engine's `destroy`: `-auto-approve` is
      appended when requested. */
  function DestroyArgs(base: seq<string>, autoApprove: bool): (r: seq<string>)
    ensures autoApprove ==> |r| == |base| + 1 && r[..|base|] == base && r[|base|] == "-auto-approve"
    ensures !autoApprove ==> r == base
  {
    if autoApprove then base + ["-auto-approve"] else base
  }

  /** The error, the set of modules whose variables file exists, and the
      events of a run. */
  datatype Outcome = Outcome(err: Option<Error>, varFiles: set<string>, trace: seq<Event>)

  /** `runFile` for module `name` on observable state; `varFiles` is the set
      of modules whose variables file exists. */
  function RunFileSpec(name: string, varFiles: set<string>, autoApprove: bool, o: Outside): Outcome
  {
    var prep := [HooksRun(name, "prepare")];
    if o.hooks(name, "prepare").Some? then Outcome(o.hooks(name, "prepare"), varFiles, prep)
    else
      var t := prep + [AutoInit(name)];
      if name !in varFiles then
        match o.resolve(name)
        case ResolveError(e) => Outcome(Some(e), varFiles, t + [Resolve(name)])
        case Unresolved => Outcome(None, varFiles, t + [Resolve(name)])
        case Resolved(w) =>
          if !w then Outcome(None, varFiles, t + [Resolve(name)])
          else After(t + [Resolve(name)], EngineStep(name, varFiles + {name}, autoApprove, o))
      else After(t, EngineStep(name, varFiles, autoApprove, o))
  }

  /** The part of `runFile` after the second check for the variables file,
      which exists: the engine's `destroy`, then removal of the file and the
      finish hooks. */
  function EngineStep(name: string, varFiles: set<string>, autoApprove: bool, o: Outside): Outcome
  {
    var args := DestroyArgs(o.baseArgs, autoApprove);
    var t := [EngineDestroy(name, args)];
    if o.destroy(name, args).Some? then Outcome(o.destroy(name, args), varFiles, t)
    else Outcome(o.hooks(name, "finish"), varFiles - {name}, t + [RemoveVarFile(name), HooksRun(name, "finish")])
  }

  // ===== All modules =====

  /** The names of the files, in order. */
  function Names(files: seq<File>): (r: seq<string>)
    ensures |r| == |files| && forall i :: 0 <= i < |files| ==> r[i] == files[i].name
  {
    seq(|files|, i requires 0 <= i < |files| => files[i].name)
  }

  /** `IsAllInitialized`: every module carries its initialization marker. */
  predicate AllInitialized(files: seq<File>)
  {
    forall i :: 0 <= i < |files| ==> files[i].initialized
  }

  /** Puts the events of the modules already processed in front of an outcome. */
  function After(t: seq<Event>, r: Outcome): Outcome
  {
    Outcome(r.err, r.varFiles, t + r.trace)
  }

  /** The modules in the given order, stopping at the first error. */
  function RunFilesSpec(names: seq<string>, varFiles: set<string>, autoApprove: bool, o: Outside): Outcome
    decreases |names|
  {
    if names == [] then Outcome(None, varFiles, [])
    else
      var a := RunFileSpec(names[0], varFiles, autoApprove, o);
      Then(a, RunFilesSpec(names[1..], a.varFiles, autoApprove, o))
  }

  /** Fail-fast sequencing: a failed outcome ends the run; otherwise the
      outcome `rest` of what follows comes after its events. */
  function Then(a: Outcome, rest: Outcome): Outcome
  {
    if a.err.Some? then a else After(a.trace, rest)
  }

  /** `destroyCmd.run` on observable state, for files loaded as `loaded`:
      with `noAutoInit` set, any uninitialized module aborts before any
      module is touched; otherwise the modules run in reverse load order. */
  function DestroySpec(loaded: seq<File>, noAutoInit: bool, varFiles: set<string>, autoApprove: bool, o: Outside): Outcome
  {
    if noAutoInit && !AllInitialized(loaded) then Outcome(Some(Uninitialized), varFiles, [])
    else RunFilesSpec(Reversed(Names(loaded)), varFiles, autoApprove, o)
  }

  class DestroyCmd {
    /** `--auto-approve` */
    const autoApprove: bool
    /** The shared flag that turns auto-init off and the pre-flight check on. */
    const noAutoInit: bool
    /** The modules whose input-variables file exists on disk. */
    var varFiles: set<string>
    /** The events so far. */
    var trace: seq<Event>

    constructor (autoApprove: bool, noAutoInit: bool, varFiles: set<string>)
      ensures this.autoApprove == autoApprove && this.noAutoInit == noAutoInit
      ensures this.varFiles == varFiles && trace == []
    {
      this.autoApprove := autoApprove;
      this.noAutoInit := noAutoInit;
      this.varFiles := varFiles;
      trace := [];
    }

    /** `runFile` */
    method RunFile(file: File, o: Outside) returns (err: Option<Error>)
      modifies this
      ensures var r := RunFileSpec(file.name, old(varFiles), autoApprove, o);
              err == r.err && varFiles == r.varFiles && trace == old(trace) + r.trace
    {
      var name := file.name;
      trace := trace + [HooksRun(name, "prepare")];
      err := o.hooks(name, "prepare");
      if err.Some? {
        return;
      }
      trace := trace + [AutoInit(name)];
      if name !in varFiles {
        trace := trace + [Resolve(name)];
        match o.resolve(name) {
          case ResolveError(e) =>
            return Some(e);
          case Unresolved =>
            return None;
          case Resolved(w) =>
            if w {
              varFiles := varFiles + {name};
            }
        }
      }
      if name !in varFiles {
        return None;
      }
      err := DestroyModule(name, o);
    }

    /** The tail of `runFile` once the variables file exists: the engine's
        `destroy`, then removal of the file and the finish hooks. */
    method DestroyModule(name: string, o: Outside) returns (err: Option<Error>)
      modifies this
      ensures var r := EngineStep(name, old(varFiles), autoApprove, o);
              err == r.err && varFiles == r.varFiles && trace == old(trace) + r.trace
    {
      var args := o.baseArgs;
      if autoApprove {
        args := args + ["-auto-approve"];
      }
      trace := trace + [EngineDestroy(name, args)];
      err := o.destroy(name, args);
      if err.Some? {
        return;
      }
      varFiles := varFiles - {name};
      trace := trace + [RemoveVarFile(name)];
      trace := trace + [HooksRun(name, "finish")];
      err := o.hooks(name, "finish");
    }

    /** `destroyCmd.run` on the loaded files. */
    method Run(files: array<File>, o: Outside) returns (err: Option<Error>)
      modifies files, this
      ensures files[..] == Reversed(old(files[..]))
      ensures var r := DestroySpec(old(files[..]), noAutoInit, old(varFiles), autoApprove, o);
              err == r.err && varFiles == r.varFiles && trace == old(trace) + r.trace
    {
      ghost var loaded := files[..];
      ReverseInPlace(files);
      NamesReversed(loaded);
      AllInitializedReversed(loaded);
      if noAutoInit && !AllInitialized(files[..]) {
        return Some(Uninitialized);
      }
      err := RunFiles(files, o);
    }

    /** The loop of `destroyCmd.run`: `runFile` on each file in array
        order, stopping at the first error. */
    method RunFiles(files: array<File>, o: Outside) returns (err: Option<Error>)
      modifies this
      ensures var r := RunFilesSpec(Names(files[..]), old(varFiles), autoApprove, o);
              err == r.err && varFiles == r.varFiles && trace == old(trace) + r.trace
    {
      ghost var names := Names(files[..]);
      ghost var done: seq<Event> := [];
      var i := 0;
      while i < files.Length
        invariant 0 <= i <= files.Length
        invariant trace == old(trace) + done
        invariant RunFilesSpec(names, old(varFiles), autoApprove, o)
               == After(done, RunFilesSpec(names[i..], varFiles, autoApprove, o))
      {
        err, done := RunNext(files[i], o, names, i, old(varFiles), old(trace), done);
        if err.Some? {
          return;
        }
        i := i + 1;
      }
      assert names[i..] == [];
      return None;
    }

    /** One turn of that loop: `runFile` on the module at position `i`,
        after the events `done` of the modules before it. */
    method RunNext(file: File, o: Outside, ghost names: seq<string>, ghost i: nat,
                   ghost vf0: set<string>, ghost t0: seq<Event>, ghost done: seq<Event>)
      returns (err: Option<Error>, ghost done': seq<Event>)
      requires i < |names| && names[i] == file.name
      requires trace == t0 + done
      requires RunFilesSpec(names, vf0, autoApprove, o) == After(done, RunFilesSpec(names[i..], varFiles, autoApprove, o))
      modifies this
      ensures err.Some? ==> var r := RunFilesSpec(names, vf0, autoApprove, o);
                            err == r.err && varFiles == r.varFiles && trace == t0 + r.trace
      ensures err.None? ==> trace == t0 + done'
                            && RunFilesSpec(names, vf0, autoApprove, o)
                               == After(done', RunFilesSpec(names[i + 1..], varFiles, autoApprove, o))
    {
      ghost var vf, before := varFiles, trace;
      err := RunFile(file, o);
      done' := done + RunFileSpec(file.name, vf, autoApprove, o).trace;
      RunNextOutcome(names, vf0, autoApprove, o, t0, done, vf, i, err, varFiles, trace);
    }
  }

  /** What one turn of the loop leaves behind, given `runFile`'s outcome. */
  lemma RunNextOutcome(names: seq<string>, vf0: set<string>, autoApprove: bool, o: Outside,
                       t0: seq<Event>, done: seq<Event>, vf: set<string>, i: nat,
                       err: Option<Error>, vf': set<string>, trace': seq<Event>)
    requires i < |names|
    requires RunFilesSpec(names, vf0, autoApprove, o) == After(done, RunFilesSpec(names[i..], vf, autoApprove, o))
    requires var a := RunFileSpec(names[i], vf, autoApprove, o);
             err == a.err && vf' == a.varFiles && trace' == (t0 + done) + a.trace
    ensures err.Some? ==> var r := RunFilesSpec(names, vf0, autoApprove, o);
                          err == r.err && vf' == r.varFiles && trace' == t0 + r.trace
    ensures var done' := done + RunFileSpec(names[i], vf, autoApprove, o).trace;
            err.None? ==> trace' == t0 + done'
                          && RunFilesSpec(names, vf0, autoApprove, o)
                             == After(done', RunFilesSpec(names[i + 1..], vf', autoApprove, o))
  {
    RunFilesAdvance(names, vf0, autoApprove, o, done, vf, i);
    var a := RunFileSpec(names[i], vf, autoApprove, o);
    ThenOutcome(RunFilesSpec(names, vf0, autoApprove, o), t0, done, a,
                RunFilesSpec(names[i + 1..], a.varFiles, autoApprove, o), trace');
  }

  /** The bookkeeping behind `RunNextOutcome`, on plain outcomes: `total` is
      what the whole loop yields, `a` the current module's outcome and
      `rest` that of the modules after it. */
  lemma ThenOutcome(total: Outcome, t0: seq<Event>, done: seq<Event>, a: Outcome, rest: Outcome, trace': seq<Event>)
    requires a.err.Some? ==> total == After(done, a)
    requires a.err.None? ==> total == After(done + a.trace, rest)
    requires trace' == (t0 + done) + a.trace
    ensures a.err.Some? ==> a.err == total.err && a.varFiles == total.varFiles && trace' == t0 + total.trace
    ensures a.err.None? ==> trace' == t0 + (done + a.trace)
  {
    assert (t0 + done) + a.trace == t0 + (done + a.trace);
  }

  /** One more module of the loop: if it fails, that is the outcome;
      otherwise the loop goes on from the next module. */
  lemma RunFilesAdvance(names: seq<string>, vf0: set<string>, autoApprove: bool, o: Outside,
                        done: seq<Event>, vf: set<string>, i: nat)
    requires i < |names|
    requires RunFilesSpec(names, vf0, autoApprove, o) == After(done, RunFilesSpec(names[i..], vf, autoApprove, o))
    ensures var a := RunFileSpec(names[i], vf, autoApprove, o);
            && (a.err.Some? ==> RunFilesSpec(names, vf0, autoApprove, o) == After(done, a))
            && (a.err.None? ==> RunFilesSpec(names, vf0, autoApprove, o)
                                == After(done + a.trace, RunFilesSpec(names[i + 1..], a.varFiles, autoApprove, o)))
  {
    assert names[i..][0] == names[i] && names[i..][1..] == names[i + 1..];
    var a := RunFileSpec(names[i], vf, autoApprove, o);
    var rest := RunFilesSpec(names[i + 1..], a.varFiles, autoApprove, o);
    assert RunFilesSpec(names[i..], vf, autoApprove, o) == Then(a, rest);
    AfterThen(done, a, rest);
  }

  /** Events already done stay in front of a fail-fast sequence. */
  lemma AfterThen(done: seq<Event>, a: Outcome, rest: Outcome)
    ensures a.err.Some? ==> After(done, Then(a, rest)) == After(done, a)
    ensures a.err.None? ==> After(done, Then(a, rest)) == After(done + a.trace, rest)
  {
    assert done + (a.trace + rest.trace) == (done + a.trace) + rest.trace;
  }

  // ===== Properties =====

  /** Every event `runFile` can produce for module `name`, in the order it
      produces them; resolution takes part only without a variables file. */
  function FullRun(name: string, varFiles: set<string>, autoApprove: bool, o: Outside): seq<Event>
  {
    [HooksRun(name, "prepare"), AutoInit(name)]
    + (if name in varFiles then [] else [Resolve(name)])
    + [EngineDestroy(name, DestroyArgs(o.baseArgs, autoApprove)), RemoveVarFile(name), HooksRun(name, "finish")]
  }

  /** `runFile` performs a prefix of the full sequence of steps: it never
      reorders or skips a step and only ever stops early. It only adds or
      removes the variables file of its own module. */
  lemma RunFileIsPrefix(name: string, vf: set<string>, autoApprove: bool, o: Outside)
    ensures var r := RunFileSpec(name, vf, autoApprove, o);
            && 1 <= |r.trace| && r.trace <= FullRun(name, vf, autoApprove, o)
            && r.varFiles - {name} == vf - {name}
  {
    var f := FullRun(name, vf, autoApprove, o);
    var args := DestroyArgs(o.baseArgs, autoApprove);
    if name in vf {
      assert f == [HooksRun(name, "prepare"), AutoInit(name), EngineDestroy(name, args), RemoveVarFile(name), HooksRun(name, "finish")];
    } else {
      assert f == [HooksRun(name, "prepare"), AutoInit(name), Resolve(name), EngineDestroy(name, args), RemoveVarFile(name), HooksRun(name, "finish")];
    }
  }

  /** The engine's `destroy` runs exactly when the prepare hooks succeed and
      the variables file exists, before or after resolution; the finish hooks
      run exactly when the engine's `destroy` also succeeds, and then the
      variables file is gone; a failed `destroy` keeps the file. */
  lemma RunFileDestroysWhen(name: string, vf: set<string>, autoApprove: bool, o: Outside)
    ensures var r := RunFileSpec(name, vf, autoApprove, o);
            var args := DestroyArgs(o.baseArgs, autoApprove);
            && (EngineDestroy(name, args) in r.trace
                <==> o.hooks(name, "prepare").None? && (name in vf || o.resolve(name) == Resolved(true)))
            && (RemoveVarFile(name) in r.trace
                <==> EngineDestroy(name, args) in r.trace && o.destroy(name, args).None?)
            && (RemoveVarFile(name) in r.trace ==> name !in r.varFiles && r.err == o.hooks(name, "finish"))
            && (EngineDestroy(name, args) in r.trace && o.destroy(name, args).Some? ==>
                  name in r.varFiles && r.err == o.destroy(name, args))
  {
  }

  /** A module fails exactly when its prepare hooks, the resolution, the
      engine's `destroy` or its finish hooks fail; a failed resolution or a
      failed `destroy` is the error reported. */
  lemma RunFileFailsWhen(name: string, vf: set<string>, autoApprove: bool, o: Outside)
    ensures var r := RunFileSpec(name, vf, autoApprove, o);
            var args := DestroyArgs(o.baseArgs, autoApprove);
            var prepared := o.hooks(name, "prepare").None?;
            var resolved := name in vf || o.resolve(name) == Resolved(true);
            r.err.Some? <==>
              || !prepared
              || (prepared && name !in vf && o.resolve(name).ResolveError?)
              || (prepared && resolved && o.destroy(name, args).Some?)
              || (prepared && resolved && o.destroy(name, args).None? && o.hooks(name, "finish").Some?)
  {
  }

  /** The names of the modules whose prepare hooks ran, in order. */
  function Prepared(t: seq<Event>): (r: seq<string>)
  {
    if t == [] then []
    else (if t[0] == HooksRun(t[0].name, "prepare") then [t[0].name] else []) + Prepared(t[1..])
  }

  lemma {:induction false} PreparedConcat(a: seq<Event>, b: seq<Event>)
    ensures Prepared(a + b) == Prepared(a) + Prepared(b)
  {
    if a != [] {
      assert (a + b)[0] == a[0] && (a + b)[1..] == a[1..] + b;
      PreparedConcat(a[1..], b);
    } else {
      assert a + b == b;
    }
  }

  /** A module's own events start its prepare hooks once. */
  lemma RunFilePreparedOnce(name: string, vf: set<string>, autoApprove: bool, o: Outside)
    ensures Prepared(RunFileSpec(name, vf, autoApprove, o).trace) == [name]
  {
    var t := RunFileSpec(name, vf, autoApprove, o).trace;
    RunFileIsPrefix(name, vf, autoApprove, o);
    var f := FullRun(name, vf, autoApprove, o);
    assert "finish" != "prepare" by { assert "finish"[0] != "prepare"[0]; }
    assert t == f[..|t|];
    PreparedNoneAfterFirst(t);
  }

  /** Only the first event of `runFile`'s trace starts prepare hooks. */
  lemma {:induction false} PreparedNoneAfterFirst(t: seq<Event>)
    requires 1 <= |t| && t[0].HooksRun? && t[0].event == "prepare"
    requires forall k :: 1 <= k < |t| ==> !(t[k].HooksRun? && t[k].event == "prepare")
    ensures Prepared(t) == [t[0].name]
  {
    NoPrepared(t[1..]);
  }

  lemma {:induction false} NoPrepared(t: seq<Event>)
    requires forall k :: 0 <= k < |t| ==> !(t[k].HooksRun? && t[k].event == "prepare")
    ensures Prepared(t) == []
  {
    if t != [] {
      NoPrepared(t[1..]);
    }
  }

  /** Fail-fast: the modules are started in the given order; on success all
      of them are, on failure those up to the failing one and none after it. */
  lemma {:induction false} RunFilesStartsInOrder(names: seq<string>, vf: set<string>, autoApprove: bool, o: Outside)
    ensures var r := RunFilesSpec(names, vf, autoApprove, o);
            var started := Prepared(r.trace);
            && (r.err.None? ==> started == names)
            && (r.err.Some? ==> 1 <= |started| <= |names| && started == names[..|started|])
    decreases |names|
  {
    if names != [] {
      var a := RunFileSpec(names[0], vf, autoApprove, o);
      var rest := RunFilesSpec(names[1..], a.varFiles, autoApprove, o);
      RunFilePreparedOnce(names[0], vf, autoApprove, o);
      RunFilesStartsInOrder(names[1..], a.varFiles, autoApprove, o);
      PreparedThen(names[0], names[1..], a, rest);
      assert names == [names[0]] + names[1..];
    }
  }

  /** The sequencing step of `RunFilesStartsInOrder`, on plain outcomes. */
  lemma PreparedThen(name: string, names: seq<string>, a: Outcome, rest: Outcome)
    requires Prepared(a.trace) == [name]
    requires rest.err.None? ==> Prepared(rest.trace) == names
    requires rest.err.Some? ==> 1 <= |Prepared(rest.trace)| <= |names| && Prepared(rest.trace) == names[..|Prepared(rest.trace)|]
    ensures var started := Prepared(Then(a, rest).trace);
            && (Then(a, rest).err.None? ==> started == [name] + names)
            && (Then(a, rest).err.Some? ==> 1 <= |started| <= 1 + |names| && started == ([name] + names)[..|started|])
  {
    if a.err.None? {
      PreparedConcat(a.trace, rest.trace);
      if rest.err.Some? {
        var k := |Prepared(rest.trace)|;
        assert ([name] + names)[..k + 1] == [name] + names[..k];
      }
    }
  }

  /** The error of a failed run is that of the last module started, run on
      the variables files its predecessors left behind. */
  lemma {:induction false} RunFilesFailsAtLastStarted(names: seq<string>, vf: set<string>, autoApprove: bool, o: Outside)
    requires RunFilesSpec(names, vf, autoApprove, o).err.Some?
    ensures var r := RunFilesSpec(names, vf, autoApprove, o);
            var k := |Prepared(r.trace)|;
            1 <= k <= |names| && RunFileSpec(names[k - 1], FailedFrom(names, vf, autoApprove, o), autoApprove, o).err == r.err
    decreases |names|
  {
    RunFilesStartsInOrder(names, vf, autoApprove, o);
    var a := RunFileSpec(names[0], vf, autoApprove, o);
    if a.err.None? {
      var rest := RunFilesSpec(names[1..], a.varFiles, autoApprove, o);
      RunFilesFailsAtLastStarted(names[1..], a.varFiles, autoApprove, o);
      RunFilePreparedOnce(names[0], vf, autoApprove, o);
      PreparedConcat(a.trace, rest.trace);
      var k := |Prepared(rest.trace)|;
      assert names[1..][k - 1] == names[k];
    } else {
      RunFilePreparedOnce(names[0], vf, autoApprove, o);
    }
  }

  /** The variables-file set in effect when the failing module of a run
      started (the starting set when nothing fails). */
  function FailedFrom(names: seq<string>, vf: set<string>, autoApprove: bool, o: Outside): set<string>
    decreases |names|
  {
    if names == [] then vf
    else
      var a := RunFileSpec(names[0], vf, autoApprove, o);
      if a.err.Some? then vf else FailedFrom(names[1..], a.varFiles, autoApprove, o)
  }

  /** `destroy` touches nothing exactly when there is no module or the
      pre-flight initialization check stops it. */
  lemma DestroyTouchesNothingWhen(loaded: seq<File>, noAutoInit: bool, vf: set<string>, autoApprove: bool, o: Outside)
    ensures var r := DestroySpec(loaded, noAutoInit, vf, autoApprove, o);
            r.trace == [] <==> loaded == [] || (noAutoInit && !AllInitialized(loaded))
  {
    var names := Reversed(Names(loaded));
    if names != [] {
      RunFileIsPrefix(names[0], vf, autoApprove, o);
      var a := RunFileSpec(names[0], vf, autoApprove, o);
      if a.err.None? {
        assert RunFilesSpec(names, vf, autoApprove, o).trace == a.trace + RunFilesSpec(names[1..], a.varFiles, autoApprove, o).trace;
      }
    }
  }

  /** Without the pre-flight failing, a successful `destroy` starts every
      loaded module, the last loaded first. */
  lemma DestroyStartsInReverse(loaded: seq<File>, noAutoInit: bool, vf: set<string>, autoApprove: bool, o: Outside)
    requires !(noAutoInit && !AllInitialized(loaded))
    ensures var r := DestroySpec(loaded, noAutoInit, vf, autoApprove, o);
            r.err.None? ==> && |Prepared(r.trace)| == |loaded|
                            && forall i :: 0 <= i < |loaded| ==> Prepared(r.trace)[i] == loaded[|loaded| - 1 - i].name
  {
    var names := Names(loaded);
    RunFilesStartsInOrder(Reversed(names), vf, autoApprove, o);
    ReversedIndex(names);
  }

  /** Reversal neither adds nor removes an uninitialized module. */
  lemma AllInitializedReversed(files: seq<File>)
    ensures AllInitialized(Reversed(files)) <==> AllInitialized(files)
  {
    ReversedIndex(files);
    var r := Reversed(files);
    if AllInitialized(r) {
      forall k | 0 <= k < |files| ensures files[k].initialized {
        assert files[k] == r[|files| - 1 - k];
      }
    }
  }

  /** The names of reversed files are the reversed names. */
  lemma NamesReversed(files: seq<File>)
    ensures Names(Reversed(files)) == Reversed(Names(files))
  {
    ReversedIndex(files);
    ReversedIndex(Names(files));
  }
}

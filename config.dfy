/** Declarations read from module files (`pkg/config`): hook declarations and
    backend blocks, and the rule by which the backend blocks of several files
    of one module merge into one. */
module Config {
  import opened Common

  /** A `hook` block. Optional attributes are `Option`s, as they are nil-able
      references in the source; `triggerOn` is always present. */
  datatype Hook = Hook(
    triggerOn: string,               // "event[:cmd1,cmd2,...]"
    workingDir: Option<string>,
    command: Option<string>,
    script: Option<string>,
    arguments: Option<seq<string>>,
    disableCache: Option<bool>,
    setEnv: Option<bool>)
  {
    predicate CacheDisabled() { disableCache == Some(true) }
    predicate SetsEnv() { setEnv == Some(true) }
  }

  /** A `backend "<kind>" { ... }` block with its string attributes. */
  datatype Backend = Backend(kind: string, attrs: map<string, string>)

  /** What a merge leaves behind: the error, if any, and the backend merged
      so far (on a conflict, the backend merged up to the conflicting file). */
  datatype Merged = Merged(err: Option<Error>, backend: Option<Backend>)

  /** Adds one file's backend block to the backend merged so far. */
  function MergeOne(acc: Option<Backend>, b: Backend): Merged
  {
    match acc
    case None => Merged(None, Some(b))
    case Some(a) =>
      if a.kind != b.kind then Merged(Some(DifferentBackendTypes), acc)
      else Merged(None, Some(Backend(a.kind, a.attrs + b.attrs)))
  }

  /** `mergeBackends`: folds the files' backend blocks left to right into
      `acc`; files without a backend block are skipped; the first type
      conflict stops the merge. */
  function Merge(acc: Option<Backend>, files: seq<Option<Backend>>): Merged
    decreases |files|
  {
    if files == [] then Merged(None, acc)
    else match files[0]
      case None => Merge(acc, files[1..])
      case Some(b) =>
        var m := MergeOne(acc, b);
        if m.err.Some? then m else Merge(m.backend, files[1..])
  }

  /** A `Config` whose backend is written in place. */
  class Config {
    var backend: Option<Backend>

    constructor ()
      ensures backend == None
    {
      backend := None;
    }
  }

  /** `mergeBackends(config, files)`: merges the files' backend blocks into
      `config.backend`, stopping at the first type conflict. */
  method MergeBackends(config: Config, files: seq<Option<Backend>>) returns (err: Option<Error>)
    modifies config
    ensures Merged(err, config.backend) == Merge(old(config.backend), files)
  {
    var i := 0;
    while i < |files|
      invariant 0 <= i <= |files|
      invariant Merge(old(config.backend), files) == Merge(config.backend, files[i..])
    {
      assert files[i..][1..] == files[i + 1..];
      if files[i].Some? {
        var b := files[i].value;
        match config.backend {
          case None =>
            config.backend := Some(b);
          case Some(a) =>
            if a.kind != b.kind {
              return Some(DifferentBackendTypes);
            }
            config.backend := Some(Backend(a.kind, a.attrs + b.attrs));
        }
      }
      i := i + 1;
    }
    return None;
  }

  // ----- what the merge promises -----

  /** The backend blocks of `files`, in order, without the files that have none. */
  function Declared(files: seq<Option<Backend>>): (r: seq<Backend>)
    ensures |r| <= |files|
  {
    if files == [] then []
    else if files[0].None? then Declared(files[1..])
    else [files[0].value] + Declared(files[1..])
  }

  /** A backend is declared iff some file carries it as its backend block. */
  lemma {:induction false} DeclaredMembers(files: seq<Option<Backend>>, b: Backend)
    ensures b in Declared(files) <==> Some(b) in files
  {
    if files != [] {
      DeclaredMembers(files[1..], b);
      assert files == [files[0]] + files[1..];
    }
  }

  /** Some declared backend differs in type from the first one. */
  predicate KindsDiffer(bs: seq<Backend>)
  {
    bs != [] && exists i :: 0 <= i < |bs| && bs[i].kind != bs[0].kind
  }

  /** The attributes of the declared backends, later files overriding earlier
      ones key by key. */
  function Overlay(bs: seq<Backend>): map<string, string>
  {
    if bs == [] then map[] else bs[0].attrs + Overlay(bs[1..])
  }

  /** `m` is what merging the backends `all` should give: a type conflict
      exactly when two of them differ in type, otherwise the first backend's
      type with the key-wise overlay of all attribute sets. */
  predicate Describes(m: Merged, all: seq<Backend>)
  {
    && (m.err.Some? <==> KindsDiffer(all))
    && (m.err.Some? ==> m.err == Some(DifferentBackendTypes))
    && (m.err.None? ==> m.backend == if all == [] then None else Some(Backend(all[0].kind, Overlay(all))))
  }

  /** Merging from an empty config fails exactly when two declared backends
      differ in type; otherwise the result has the first backend's type and
      the key-wise overlay of all attribute sets. */
  lemma MergeCharacterized(files: seq<Option<Backend>>)
    ensures Describes(Merge(None, files), Declared(files))
  {
    MergeFrom(None, files);
    assert [] + Declared(files) == Declared(files);
  }

  function AsSeq(acc: Option<Backend>): seq<Backend>
  {
    if acc.Some? then [acc.value] else []
  }

  /** The general form of `MergeCharacterized`, from any accumulated backend. */
  lemma {:induction false} MergeFrom(acc: Option<Backend>, files: seq<Option<Backend>>)
    ensures Describes(Merge(acc, files), AsSeq(acc) + Declared(files))
    decreases |files|
  {
    if files == [] {
      assert AsSeq(acc) + Declared(files) == AsSeq(acc);
      if acc.Some? {
        assert AsSeq(acc)[1..] == [];
        assert Overlay(AsSeq(acc)) == acc.value.attrs + map[] == acc.value.attrs;
      }
    } else {
      var rest := files[1..];
      var tail := Declared(rest);
      if files[0].None? {
        MergeFrom(acc, rest);
      } else {
        var b := files[0].value;
        assert Declared(files) == [b] + tail;
        if acc.None? {
          MergeFrom(Some(b), rest);
          assert AsSeq(acc) + Declared(files) == [b] + tail;
        } else {
          var a := acc.value;
          assert AsSeq(acc) + Declared(files) == [a, b] + tail;
          if a.kind != b.kind {
            assert ([a, b] + tail)[1].kind != a.kind;
          } else {
            var a' := Backend(a.kind, a.attrs + b.attrs);
            MergeFrom(Some(a'), rest);
            FuseSameKind(a, b, tail);
          }
        }
      }
    }
  }

  /** Two leading backends of one type may be fused into one carrying the
      overlay of their attributes. */
  lemma FuseSameKind(a: Backend, b: Backend, tail: seq<Backend>)
    requires a.kind == b.kind
    ensures var all := [a, b] + tail;
            var all' := [Backend(a.kind, a.attrs + b.attrs)] + tail;
            && (KindsDiffer(all) <==> KindsDiffer(all'))
            && Overlay(all) == Overlay(all')
  {
    var all := [a, b] + tail;
    var all' := [Backend(a.kind, a.attrs + b.attrs)] + tail;
    FusedKinds(a, b, tail);
    assert all[1..] == [b] + tail && all[1..][1..] == tail && all'[1..] == tail;
    assert Overlay(all) == a.attrs + (b.attrs + Overlay(tail));
    assert Overlay(all') == (a.attrs + b.attrs) + Overlay(tail);
    UnionAssoc(a.attrs, b.attrs, Overlay(tail));
  }

  lemma UnionAssoc(x: map<string, string>, y: map<string, string>, z: map<string, string>)
    ensures x + (y + z) == (x + y) + z
  {
  }

  lemma FusedKinds(a: Backend, b: Backend, tail: seq<Backend>)
    requires a.kind == b.kind
    ensures KindsDiffer([a, b] + tail) <==> KindsDiffer([Backend(a.kind, a.attrs + b.attrs)] + tail)
  {
    var all := [a, b] + tail;
    var all' := [Backend(a.kind, a.attrs + b.attrs)] + tail;
    if KindsDiffer(all) {
      var i :| 0 <= i < |all| && all[i].kind != all[0].kind;
      assert all'[i - 1].kind != all'[0].kind;
    }
    if KindsDiffer(all') {
      var i :| 0 <= i < |all'| && all'[i].kind != all'[0].kind;
      assert all[i + 1].kind != all[0].kind;
    }
  }

  /** Key by key: a key is in the overlay exactly when some backend declares
      it, and its value is the one of the last backend that declares it. */
  lemma {:induction false} OverlayLastWins(bs: seq<Backend>, key: string)
    ensures key in Overlay(bs) <==> exists i :: 0 <= i < |bs| && key in bs[i].attrs
    ensures forall i :: 0 <= i < |bs| && key in bs[i].attrs
                        && (forall j :: i < j < |bs| ==> key !in bs[j].attrs)
                        ==> key in Overlay(bs) && Overlay(bs)[key] == bs[i].attrs[key]
  {
    if bs != [] {
      OverlayLastWins(bs[1..], key);
      assert forall i :: 1 <= i < |bs| ==> bs[i] == bs[1..][i - 1];
      if key in Overlay(bs) && key !in bs[0].attrs {
        var i :| 0 <= i < |bs[1..]| && key in bs[1..][i].attrs;
        assert key in bs[i + 1].attrs;
      }
    }
  }

  /** Merging a sequence of files in two parts is merging the second part
      into the result of the first. */
  lemma {:induction false} MergeAppend(acc: Option<Backend>, xs: seq<Option<Backend>>, ys: seq<Option<Backend>>)
    ensures var m := Merge(acc, xs);
            Merge(acc, xs + ys) == if m.err.Some? then m else Merge(m.backend, ys)
    decreases |xs|
  {
    if xs == [] {
      assert xs + ys == ys;
    } else {
      assert (xs + ys)[0] == xs[0];
      assert (xs + ys)[1..] == xs[1..] + ys;
      match xs[0] {
        case None =>
          MergeAppend(acc, xs[1..], ys);
        case Some(b) =>
          var m := MergeOne(acc, b);
          if m.err.None? {
            MergeAppend(m.backend, xs[1..], ys);
          }
      }
    }
  }

  /** The test table: two `azurerm` files with an overlapping key, two with
      disjoint keys, a single `aws` file, and `azurerm` followed by `aws`. */
  lemma BackendMergeTable()
    ensures var f1 := Some(Backend("azurerm", map["storage_account_name" := "test", "container_name" := "state"]));
            var f2 := Some(Backend("azurerm", map["storage_account_name" := "overwrite"]));
            var f3 := Some(Backend("azurerm", map["key" := "addition"]));
            var f4 := Some(Backend("aws", map["region" := "oregon"]));
            && Merge(None, [f1, f2]) == Merged(None, Some(Backend("azurerm",
                 map["storage_account_name" := "overwrite", "container_name" := "state"])))
            && Merge(None, [f1, f3]) == Merged(None, Some(Backend("azurerm",
                 map["storage_account_name" := "test", "container_name" := "state", "key" := "addition"])))
            && Merge(None, [f4]) == Merged(None, f4)
            && Merge(None, [f1, f4]).err == Some(DifferentBackendTypes)
  {
    var f1: Option<Backend> := Some(Backend("azurerm", map["storage_account_name" := "test", "container_name" := "state"]));
    var f2: Option<Backend> := Some(Backend("azurerm", map["storage_account_name" := "overwrite"]));
    var f3: Option<Backend> := Some(Backend("azurerm", map["key" := "addition"]));
    var f4: Option<Backend> := Some(Backend("aws", map["region" := "oregon"]));
    assert [f1, f2][1..] == [f2];
    assert [f1, f3][1..] == [f3];
    assert [f1, f4][1..] == [f4];
    var b12 := Backend("azurerm", f1.value.attrs + f2.value.attrs);
    var b13 := Backend("azurerm", f1.value.attrs + f3.value.attrs);
    assert Merge(f1, [f2]) == Merge(Some(b12), []);
    assert Merge(f1, [f3]) == Merge(Some(b13), []);
    assert f1.value.attrs + f2.value.attrs
        == map["storage_account_name" := "overwrite", "container_name" := "state"];
    assert f1.value.attrs + f3.value.attrs
        == map["storage_account_name" := "test", "container_name" := "state", "key" := "addition"];
  }
}

/**
  `preprocess(orgs_to_skip, silent)` of `runner.py`: one adapter per supported dataset
  that is not skipped, asked from the registry under the dataset's name followed by
  "Preprocessor" and run in the order of the dataset list. The registry and the adapters
  it builds are a parameter: `run(key)` is what building the adapter registered under
  `key` and calling its `process()` returns or raises. A count line is a
  (processed, skipped) pair.
*/
module Runner {
  import opened Wrappers

  /** `SUPPORTED_SOURCES['DATASETS']`. */
  const Datasets: seq<string> := ["CALCE", "HNEI", "OX", "ORNL", "SNL", "ULPurdue"]

  /** The registry name of a dataset's adapter. */
  function RegistryKey(dataset: string): (key: string)
    ensures |key| == |dataset| + 12 && key[..|dataset|] == dataset
  {
    dataset + "Preprocessor"
  }

  /** Different datasets ask for different adapters. */
  lemma RegistryKeyInjective(a: string, b: string)
    requires RegistryKey(a) == RegistryKey(b)
    ensures a == b
  {
    assert a == RegistryKey(a)[..|a|];
  }

  /** The datasets of `names` that are not in `skip`, in their original order. */
  function Kept(names: seq<string>, skip: seq<string>): (r: seq<string>)
    ensures |r| <= |names|
    decreases |names|
  {
    if names == [] then []
    else
      var init, last := names[..|names| - 1], names[|names| - 1];
      if last in skip then Kept(init, skip) else Kept(init, skip) + [last]
  }

  /** A dataset is run exactly when it is supported and not skipped. */
  lemma {:induction false} KeptMembers(names: seq<string>, skip: seq<string>)
    ensures forall d :: d in Kept(names, skip) <==> d in names && d !in skip
    decreases |names|
  {
    if names != [] {
      var init, last := names[..|names| - 1], names[|names| - 1];
      KeptMembers(init, skip);
      assert names == init + [last];
    }
  }

  /** With nothing skipped (the default), every dataset is run, in the list's order. */
  lemma {:induction false} KeptNothingSkipped(names: seq<string>)
    ensures Kept(names, []) == names
    decreases |names|
  {
    if names != [] {
      KeptNothingSkipped(names[..|names| - 1]);
    }
  }

  /** The registry keys of `datasets`, in order. */
  function Keys(datasets: seq<string>): (r: seq<string>)
    ensures |r| == |datasets|
    ensures forall i :: 0 <= i < |r| ==> r[i] == RegistryKey(datasets[i])
  {
    seq(|datasets|, i requires 0 <= i < |datasets| => RegistryKey(datasets[i]))
  }

  /** The count lines of runs that all returned. */
  function Counts(keys: seq<string>, run: string -> Result<(nat, nat), Exception>): (r: seq<(nat, nat)>)
    requires forall k :: k in keys ==> run(k).Ok?
    ensures |r| == |keys|
    ensures forall i :: 0 <= i < |r| ==> r[i] == run(keys[i]).value
  {
    seq(|keys|, i requires 0 <= i < |keys| => run(keys[i]).value)
  }

  lemma KeysSnoc(datasets: seq<string>, d: string)
    ensures Keys(datasets + [d]) == Keys(datasets) + [RegistryKey(d)]
  {
  }

  lemma CountsSnoc(keys: seq<string>, k: string, run: string -> Result<(nat, nat), Exception>)
    requires forall k' :: k' in keys + [k] ==> run(k').Ok?
    ensures Counts(keys + [k], run) == Counts(keys, run) + [run(k).value]
  {
  }

  /** Filtering one more name. */
  lemma KeptSnoc(names: seq<string>, skip: seq<string>, i: nat)
    requires i < |names|
    ensures Kept(names[..i + 1], skip) == Kept(names[..i], skip) + (if names[i] in skip then [] else [names[i]])
  {
    assert names[..i + 1][..i] == names[..i];
  }

  /** `Kept` of a prefix of the names is a prefix of `Kept` of all of them. */
  lemma {:induction false} KeptPrefix(names: seq<string>, skip: seq<string>, n: nat)
    requires n <= |names|
    ensures |Kept(names[..n], skip)| <= |Kept(names, skip)|
    ensures Kept(names[..n], skip) == Kept(names, skip)[..|Kept(names[..n], skip)|]
    decreases |names| - n
  {
    if n < |names| {
      KeptPrefix(names, skip, n + 1);
      KeptSnoc(names, skip, n);
    } else {
      assert names[..n] == names;
    }
  }

  /**
    The loop of `preprocess` over `datasets`. `requested` are the registry keys asked
    for, in order; the first run that raises ends the call with its exception. Without
    `silent` there is one count line per run that returned.
  */
  method RunAll(datasets: seq<string>, skip: seq<string>, silent: bool,
                run: string -> Result<(nat, nat), Exception>)
    returns (requested: seq<string>, lines: seq<(nat, nat)>, r: Result<(), Exception>)
    ensures r.Ok? ==> requested == Keys(Kept(datasets, skip))
    ensures r.Ok? ==> forall k :: k in requested ==> run(k).Ok?
    ensures r.Err? ==> 1 <= |requested| <= |Kept(datasets, skip)|
    ensures r.Err? ==> requested == Keys(Kept(datasets, skip)[..|requested|])
    ensures r.Err? ==> run(requested[|requested| - 1]).Err? && r == Err(run(requested[|requested| - 1]).error)
    ensures r.Err? ==> forall k :: k in requested[..|requested| - 1] ==> run(k).Ok?
    ensures r.Ok? ==> lines == if silent then [] else Counts(requested, run)
    ensures r.Err? ==> lines == if silent then [] else Counts(requested[..|requested| - 1], run)
  {
    requested, lines := [], [];
    for i := 0 to |datasets|
      invariant requested == Keys(Kept(datasets[..i], skip))
      invariant forall k :: k in requested ==> run(k).Ok?
      invariant lines == if silent then [] else Counts(requested, run)
    {
      var org := datasets[i];
      KeptSnoc(datasets, skip, i);
      if org !in skip {
        var key := RegistryKey(org);
        var outcome := run(key);
        ghost var before := requested;
        KeysSnoc(Kept(datasets[..i], skip), org);
        requested := requested + [key];
        assert requested[..|requested| - 1] == before;
        if outcome.Err? {
          KeptPrefix(datasets, skip, i + 1);
          return requested, lines, Err(outcome.error);
        }
        if !silent {
          CountsSnoc(before, key, run);
          lines := lines + [outcome.value];
        }
      }
    }
    assert datasets[..|datasets|] == datasets;
    return requested, lines, Ok(());
  }

  /** `preprocess(orgs_to_skip=[], silent=False)`: the loop over the supported datasets. */
  method Preprocess(run: string -> Result<(nat, nat), Exception>, skip: seq<string> := [], silent: bool := false)
    returns (requested: seq<string>, lines: seq<(nat, nat)>, r: Result<(), Exception>)
    ensures r.Ok? ==> requested == Keys(Kept(Datasets, skip))
    ensures r.Ok? ==> forall k :: k in requested ==> run(k).Ok?
    ensures r.Err? ==> 1 <= |requested| <= |Kept(Datasets, skip)|
    ensures r.Err? ==> requested == Keys(Kept(Datasets, skip)[..|requested|])
    ensures r.Err? ==> run(requested[|requested| - 1]).Err? && r == Err(run(requested[|requested| - 1]).error)
    ensures r.Err? ==> forall k :: k in requested[..|requested| - 1] ==> run(k).Ok?
    ensures r.Ok? ==> lines == if silent then [] else Counts(requested, run)
    ensures r.Err? ==> lines == if silent then [] else Counts(requested[..|requested| - 1], run)
  {
    requested, lines, r := RunAll(Datasets, skip, silent, run);
  }

  /**
    `preprocess()` with its defaults: every supported dataset is requested in list order,
    and a completed call reports one count line per dataset.
  */
  method PreprocessDefaults(run: string -> Result<(nat, nat), Exception>)
    returns (requested: seq<string>, lines: seq<(nat, nat)>, r: Result<(), Exception>)
    ensures r.Ok? ==> requested == Keys(Datasets) && (forall k :: k in requested ==> run(k).Ok?)
    ensures r.Ok? ==> lines == Counts(requested, run)
    ensures r.Err? ==> 1 <= |requested| <= |Datasets| && requested == Keys(Datasets[..|requested|])
    ensures r.Err? ==> run(requested[|requested| - 1]).Err?
  {
    KeptNothingSkipped(Datasets);
    requested, lines, r := Preprocess(run);
  }
}

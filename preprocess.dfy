/**
  `preprocess.py`: the generic per-organisation pass. Each file of the organisation's
  input directory is read with the reader its extension selects, reduced to the columns
  whose names look like time or temperature, and dumped to `<output_dir>/<stem>.pkl`
  unless reading failed or fewer than two columns survive.
*/
module Preprocess {
  import opened Wrappers
  import opened Text
  import opened Table
  import opened FileSystem
  import opened Organizations

  /** `ORG_RAW_DATA`: the raw-data folder of each organisation handled here. */
  const OrgRawData: map<string, string> := map["oakridge" := "data/raw/oakridge/excel"]

  /**
    The substrings a column name must contain one of; the second is the degree sign as
    it reads once UTF-8 bytes are decoded as Latin-1, exactly as the program spells it.
  */
  const ExpectedSubstrings: seq<string> := ["Time", "\U{00C2}\U{00B0}C", "[C]"]

  /** Whether `str(col)` contains one of the listed substrings, case-sensitive. */
  predicate Expected(c: Column) {
    exists sub :: sub in ExpectedSubstrings && Contains(c.name, sub)
  }

  /**
    At least two columns survive a filter exactly when two different positions of the
    original sequence pass it.
  */
  lemma {:induction false} FilterKeepsTwo(cols: seq<Column>, keep: Column -> bool)
    ensures |FilterColumns(cols, keep)| >= 2 <==>
            exists i, j :: 0 <= i < j < |cols| && keep(cols[i]) && keep(cols[j])
  {
    if |FilterColumns(cols, keep)| >= 2 {
      FilterTwoWitness(cols, keep);
    }
    if exists i, j :: 0 <= i < j < |cols| && keep(cols[i]) && keep(cols[j]) {
      var i, j :| 0 <= i < j < |cols| && keep(cols[i]) && keep(cols[j]);
      FilterTwoFromWitness(cols, keep, i, j);
    }
  }

  lemma {:induction false} FilterTwoWitness(cols: seq<Column>, keep: Column -> bool)
    requires |FilterColumns(cols, keep)| >= 2
    ensures exists i, j :: 0 <= i < j < |cols| && keep(cols[i]) && keep(cols[j])
  {
    var rest := cols[1..];
    if keep(cols[0]) {
      FilterKeepsOne(rest, keep);
      var j :| 0 <= j < |rest| && keep(rest[j]);
      assert cols[j + 1] == rest[j];
    } else {
      FilterTwoWitness(rest, keep);
      var i, j :| 0 <= i < j < |rest| && keep(rest[i]) && keep(rest[j]);
      assert cols[i + 1] == rest[i] && cols[j + 1] == rest[j];
    }
  }

  lemma {:induction false} FilterTwoFromWitness(cols: seq<Column>, keep: Column -> bool, i: nat, j: nat)
    requires i < j < |cols| && keep(cols[i]) && keep(cols[j])
    ensures |FilterColumns(cols, keep)| >= 2
  {
    var rest := cols[1..];
    assert rest[j - 1] == cols[j];
    if i == 0 {
      FilterKeepsOne(rest, keep);
    } else {
      assert rest[i - 1] == cols[i];
      FilterTwoFromWitness(rest, keep, i - 1, j - 1);
    }
  }

  /** Something survives a filter exactly when some column passes it. */
  lemma FilterKeepsOne(cols: seq<Column>, keep: Column -> bool)
    ensures |FilterColumns(cols, keep)| >= 1 <==> exists j :: 0 <= j < |cols| && keep(cols[j])
  {
    var r := FilterColumns(cols, keep);
    if |r| >= 1 {
      assert r[0] in r;
      var j :| 0 <= j < |cols| && cols[j] == r[0];
    }
    if exists j :: 0 <= j < |cols| && keep(cols[j]) {
      var j :| 0 <= j < |cols| && keep(cols[j]);
      assert cols[j] in cols;
    }
  }

  /**
    `standardize_dataframe(df)`: the matching columns in their original order with the
    same rows, or `None` unless at least two of them exist.
  */
  function Standardize(f: Frame): (r: Option<Frame>)
    ensures r.Some? <==> exists i, j :: 0 <= i < j < |f.columns| && Expected(f.columns[i]) && Expected(f.columns[j])
    ensures r.Some? ==> r.value.rows == f.rows && r.value.columns == FilterColumns(f.columns, Expected)
    ensures r.Some? ==> forall c :: c in r.value.columns <==> c in f.columns && Expected(c)
  {
    FilterKeepsTwo(f.columns, Expected);
    var kept := FilterColumns(f.columns, Expected);
    if |kept| > 1 then Some(Frame(f.rows, kept)) else None
  }

  /** The three pandas readers the extension can select. */
  datatype Reader = Csv | Excel | Json

  /** The extension dispatch of `load_and_standardize`, on the `os.path.splitext` suffix. */
  function ReaderFor(path: string): (r: Option<Reader>)
    ensures r.Some? ==> EndsWith(path, SplitExt(path).1)
    ensures r.None? <==> SplitExt(path).1 !in [".csv", ".txt", ".xls", ".xlsx", ".json"]
  {
    var ext := SplitExt(path).1;
    assert SplitExt(path).0 + ext == path;
    assert path[|path| - |ext|..] == ext;
    if ext in [".csv", ".txt"] then Some(Csv)
    else if ext in [".xls", ".xlsx"] then Some(Excel)
    else if ext == ".json" then Some(Json)
    else None
  }

  /** Which reader each accepted extension selects. */
  lemma ReaderChoice(path: string)
    ensures ReaderFor(path) == Some(Csv) <==> SplitExt(path).1 == ".csv" || SplitExt(path).1 == ".txt"
    ensures ReaderFor(path) == Some(Excel) <==> SplitExt(path).1 == ".xls" || SplitExt(path).1 == ".xlsx"
    ensures ReaderFor(path) == Some(Json) <==> SplitExt(path).1 == ".json"
  {
  }

  /** The comparison is case-sensitive: an upper-case extension selects no reader. */
  lemma ReaderCaseSensitive(stem: string, ext: string)
    requires ext in [".CSV", ".TXT", ".XLS", ".XLSX", ".JSON"]
    ensures ReaderFor(stem + ext).None?
  {
    var path := stem + ext;
    var e := SplitExt(path).1;
    assert SplitExt(path).0 + e == path;
    if e != [] {
      assert e[|e| - 1] == path[|path| - 1];
      assert path[|path| - 1] == ext[|ext| - 1];
    }
  }

  /**
    `load_and_standardize(file_path)`: no reader for the extension, or a reader that
    raises, gives `None`; otherwise the standardised frame.
  */
  function Load(path: string, read: (Reader, string) -> Result<Frame, Exception>): (r: Option<Frame>)
    ensures ReaderFor(path).None? ==> r.None?
    ensures ReaderFor(path).Some? && read(ReaderFor(path).value, path).Err? ==> r.None?
    ensures ReaderFor(path).Some? && read(ReaderFor(path).value, path).Ok? ==>
              r == Standardize(read(ReaderFor(path).value, path).value)
  {
    match ReaderFor(path)
    case None => None
    case Some(reader) =>
      match read(reader, path)
      case Err(_) => None
      case Ok(f) => Standardize(f)
  }

  /** `os.path.join(output_dir, base + '.pkl')` with `base` the stem of the file's base name. */
  function OutputPath(outputDir: string, path: string): (r: string)
    ensures StartsWith(r, outputDir)
    ensures EndsWith(r, SplitExt(Basename(path)).0 + ".pkl")
  {
    var name := SplitExt(Basename(path)).0 + ".pkl";
    OutputNameNoSlash(path);
    assert name[0] != '/';
    JoinRelative(outputDir, name);
    Join(outputDir, name)
  }

  /** The output name, the stem of a base name plus ".pkl", has no '/'. */
  lemma OutputNameNoSlash(path: string)
    ensures '/' !in SplitExt(Basename(path)).0 + ".pkl"
  {
    var base := Basename(path);
    assert SplitExt(base).0 + SplitExt(base).1 == base;
    assert forall k :: 0 <= k < |SplitExt(base).0| ==> SplitExt(base).0[k] == base[k];
  }

  /** The output of a file is `<stem>.pkl` directly inside the output directory. */
  lemma OutputPathUnder(outputDir: string, path: string)
    requires outputDir != []
    ensures var name := SplitExt(Basename(path)).0 + ".pkl";
      '/' !in name && Collapse(OutputPath(outputDir, path)) == Collapse(outputDir + "/") + name
  {
    var name := SplitExt(Basename(path)).0 + ".pkl";
    OutputNameNoSlash(path);
    assert !StartsWith(name, "/") by { assert name[0] != '/'; }
    JoinResolvesLikeSlash(outputDir, name);
    CollapseFileUnder(outputDir, name);
  }

  /** Equal strings with the same prefix and suffix have the same middle. */
  lemma SuffixCancel(d: string, a: string, b: string, ext: string)
    ensures d + (a + ext) == d + (b + ext) ==> a == b
  {
    if d + (a + ext) == d + (b + ext) {
      assert a == (d + (a + ext))[|d|..|d| + |a|];
      assert b == (d + (b + ext))[|d|..|d| + |b|];
    }
  }

  /** Files whose base names have different stems never share an output. */
  lemma DistinctStemsDistinctOutputs(outputDir: string, p: string, q: string)
    requires outputDir != []
    requires SplitExt(Basename(p)).0 != SplitExt(Basename(q)).0
    ensures Collapse(OutputPath(outputDir, p)) != Collapse(OutputPath(outputDir, q))
  {
    OutputPathUnder(outputDir, p);
    OutputPathUnder(outputDir, q);
    var d := Collapse(outputDir + "/");
    var a := SplitExt(Basename(p)).0;
    var b := SplitExt(Basename(q)).0;
    var na := a + ".pkl";
    var nb := b + ".pkl";
    assert Collapse(OutputPath(outputDir, p)) == d + na;
    assert Collapse(OutputPath(outputDir, q)) == d + nb;
    SuffixCancel(d, a, b, ".pkl");
  }

  /** The (output path, frame) pairs the loop dumps, in the order of `paths`. */
  function Saves(outputDir: string, paths: seq<string>, read: (Reader, string) -> Result<Frame, Exception>):
    (r: seq<(string, Frame)>)
    ensures |r| <= |paths|
    ensures forall p :: p in paths && Load(p, read).Some? ==> (OutputPath(outputDir, p), Load(p, read).value) in r
    ensures forall s :: s in r ==> exists p :: p in paths && Load(p, read) == Some(s.1) && s.0 == OutputPath(outputDir, p)
    decreases |paths|
  {
    if paths == [] then []
    else
      var init := paths[..|paths| - 1];
      var last := paths[|paths| - 1];
      assert forall p :: p in paths <==> p in init || p == last;
      var done := Saves(outputDir, init, read);
      match Load(last, read)
      case None => done
      case Some(f) => done + [(OutputPath(outputDir, last), f)]
  }

  /** One more path adds its dump, if any, at the end. */
  lemma SavesSnoc(outputDir: string, paths: seq<string>, p: string, read: (Reader, string) -> Result<Frame, Exception>)
    ensures Load(p, read).None? ==> Saves(outputDir, paths + [p], read) == Saves(outputDir, paths, read)
    ensures Load(p, read).Some? ==>
      Saves(outputDir, paths + [p], read) == Saves(outputDir, paths, read) + [(OutputPath(outputDir, p), Load(p, read).value)]
  {
    assert (paths + [p])[..|paths|] == paths;
  }

  /** The positions of `paths` whose file loads. */
  ghost function Loadable(paths: seq<string>, read: (Reader, string) -> Result<Frame, Exception>): set<nat> {
    set i: nat | i < |paths| && Load(paths[i], read).Some?
  }

  /** Appending a path adds its position to the loadable ones exactly when it loads. */
  lemma LoadableSnoc(paths: seq<string>, x: string, read: (Reader, string) -> Result<Frame, Exception>)
    ensures Loadable(paths + [x], read) == Loadable(paths, read) + (if Load(x, read).Some? then {|paths|} else {})
    ensures |paths| !in Loadable(paths, read)
  {
    IndicesSnoc(paths, x, p => Load(p, read).Some?);
  }

  /** The positions of a sequence whose element passes a test, after one more element. */
  lemma IndicesSnoc<T>(xs: seq<T>, x: T, good: T -> bool)
    ensures (set i: nat | i < |xs + [x]| && good((xs + [x])[i])) ==
            (set i: nat | i < |xs| && good(xs[i])) + (if good(x) then {|xs|} else {})
    ensures |xs| !in (set i: nat | i < |xs| && good(xs[i]))
  {
    var ys := xs + [x];
    forall i: nat | i < |xs|
      ensures ys[i] == xs[i]
    {
    }
  }

  /** Exactly the files whose load succeeded are dumped, once each. */
  lemma {:induction false} SavesCount(outputDir: string, paths: seq<string>, read: (Reader, string) -> Result<Frame, Exception>)
    ensures |Saves(outputDir, paths, read)| == |Loadable(paths, read)|
    decreases |paths|
  {
    if paths != [] {
      var init, x := paths[..|paths| - 1], paths[|paths| - 1];
      assert paths == init + [x];
      SavesSnoc(outputDir, init, x, read);
      SavesCount(outputDir, init, read);
      LoadableSnoc(init, x, read);
      var before := Loadable(init, read);
      if Load(x, read).Some? {
        assert Loadable(paths, read) == before + {|init|};
        assert |before + {|init|}| == |before| + 1;
      } else {
        assert Loadable(paths, read) == before;
      }
    }
  }

  /** The disk after the dumps of `saves`, in order, each file of size `size(frame)`. */
  function WriteAll(disk: Disk, saves: seq<(string, Frame)>, size: Frame -> nat): (r: Disk)
    ensures r.Keys == disk.Keys + set s | s in saves :: Collapse(s.0)
    ensures forall q :: q in disk && (forall s :: s in saves ==> Collapse(s.0) != q) ==> r[q] == disk[q]
    decreases |saves|
  {
    if saves == [] then disk
    else
      var init := saves[..|saves| - 1];
      var last := saves[|saves| - 1];
      assert forall s :: s in saves <==> s in init || s == last;
      Write(WriteAll(disk, init, size), last.0, Blob(size(last.1), Pickled(last.1)))
  }

  /** One more dump is one more write on top of the others. */
  lemma WriteAllSnoc(disk: Disk, saves: seq<(string, Frame)>, s: (string, Frame), size: Frame -> nat)
    ensures WriteAll(disk, saves + [s], size) == Write(WriteAll(disk, saves, size), s.0, Blob(size(s.1), Pickled(s.1)))
  {
    assert (saves + [s])[..|saves|] == saves;
  }

  /** A file keeps the frame of the last dump aimed at it. */
  lemma {:induction false} WriteAllLast(disk: Disk, saves: seq<(string, Frame)>, size: Frame -> nat, k: nat)
    requires k < |saves|
    requires forall j :: k < j < |saves| ==> Collapse(saves[j].0) != Collapse(saves[k].0)
    ensures WriteAll(disk, saves, size)[Collapse(saves[k].0)] == Blob(size(saves[k].1), Pickled(saves[k].1))
    decreases |saves|
  {
    var init := saves[..|saves| - 1];
    if k < |saves| - 1 {
      assert init[k] == saves[k];
      assert forall j :: k < j < |init| ==> init[j] == saves[j];
      WriteAllLast(disk, init, size, k);
    }
  }

  /**
    `process_org_data(org)` over the paths the glob of the input directory returns: each
    file whose load gives a frame is dumped to its output path, and nothing else changes.
  */
  method ProcessOrgData(org: Organization, disk: Disk, paths: seq<string>,
                        read: (Reader, string) -> Result<Frame, Exception>, size: Frame -> nat)
    returns (disk': Disk)
    ensures disk' == WriteAll(disk, Saves(org.outputDir, paths, read), size)
  {
    disk' := disk;
    for i := 0 to |paths|
      invariant disk' == WriteAll(disk, Saves(org.outputDir, paths[..i], read), size)
    {
      var frame := Load(paths[i], read);
      assert paths[..i + 1] == paths[..i] + [paths[i]];
      SavesSnoc(org.outputDir, paths[..i], paths[i], read);
      if frame.Some? {
        WriteAllSnoc(disk, Saves(org.outputDir, paths[..i], read), (OutputPath(org.outputDir, paths[i]), frame.value), size);
        disk' := Write(disk', OutputPath(org.outputDir, paths[i]), Blob(size(frame.value), Pickled(frame.value)));
      }
    }
    assert paths[..|paths|] == paths;
  }
}

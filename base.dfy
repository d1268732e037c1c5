/**
  The shared machinery of `base.py`: the preprocessor's identity and output directory,
  the resumable-skip test, the dump of one record, cell discovery from a directory
  listing, and the batch driver that walks the cells, skipping the ones already done
  and the ones whose extraction raises.

  An adapter plugs into the driver through `Hooks`: its `get_timeseries_data` (bound to
  its input directory), its `get_cell_info`, and the byte count pickle produces.
*/
module Base {
  import opened Wrappers
  import opened Text
  import opened Values
  import opened FileSystem
  import opened BatteryData

  const BatteryTypes: seq<string> := ["NFP", "LCO"]
  const Cathodes: seq<string> := ["LCO", "LFP", "NMC-LMO", "NMC-LCO", "NMC", "LMO-LNO", "LMO", "LNO", "NCA"]
  const Anodes: seq<string> := ["graphite"]

  datatype Preprocessor = Preprocessor(name: string, outputDir: string, silent: bool)

  /** A constructed preprocessor always has somewhere to write. */
  predicate Valid(p: Preprocessor) {
    p.outputDir != []
  }

  /**
    `BasePreprocessor.__init__`: a missing or empty `output_dir` (both are falsy) falls
    back to the processed-data root followed by the name and '/'.
  */
  function NewPreprocessor(processedRoot: string, name: string, outputDir: Option<string>, silent: bool):
    (p: Preprocessor)
    ensures Valid(p) && p.name == name && p.silent == silent
    ensures outputDir.Some? && outputDir.value != [] ==> p.outputDir == outputDir.value
    ensures outputDir.None? || outputDir.value == [] ==> p.outputDir == processedRoot + name + "/"
  {
    var dir := if outputDir.Some? && outputDir.value != [] then outputDir.value else processedRoot + name + "/";
    Preprocessor(name, dir, silent)
  }

  // ---------------------------------------------------------------- output paths

  /** The path `check_processed_file` looks at: `os.path.join(output_dir, f"{cell}.pkl")`. */
  function CheckPath(p: Preprocessor, cell: string): string {
    Join(p.outputDir, cell + ".pkl")
  }

  /** The path `dump_single_file` writes: `f"{output_dir}/{cell_id}.pkl"`. */
  function DumpPath(p: Preprocessor, cellId: string): string {
    p.outputDir + "/" + cellId + ".pkl"
  }

  /** The file a cell's record lands in, once the path is resolved. */
  function Key(p: Preprocessor, cell: string): string {
    Collapse(DumpPath(p, cell))
  }

  /**
    The two spellings name the same file: the join inserts no second '/' but the system
    collapses the doubled one of the f-string anyway.
  */
  lemma CheckSeesDump(p: Preprocessor, cell: string)
    requires Valid(p) && '/' !in cell
    ensures Collapse(CheckPath(p, cell)) == Key(p, cell)
  {
    if |cell| > 0 {
      assert cell[0] != '/';
    }
    assert !StartsWith(cell + ".pkl", "/") by {
      assert (cell + ".pkl")[0] == if |cell| > 0 then cell[0] else '.';
    }
    JoinResolvesLikeSlash(p.outputDir, cell + ".pkl");
    assert p.outputDir + "/" + (cell + ".pkl") == DumpPath(p, cell);
  }

  /** Distinct cells (file-name tokens, free of '/') get distinct files. */
  lemma KeyInjective(p: Preprocessor, a: string, b: string)
    requires '/' !in a && '/' !in b && a != b
    ensures Key(p, a) != Key(p, b)
  {
    var dir := p.outputDir;
    assert '/' !in a + ".pkl" && '/' !in b + ".pkl";
    CollapseFileUnder(dir, a + ".pkl");
    CollapseFileUnder(dir, b + ".pkl");
    assert DumpPath(p, a) == dir + "/" + (a + ".pkl");
    assert DumpPath(p, b) == dir + "/" + (b + ".pkl");
    var pre := Collapse(dir + "/");
    var x, y := a + ".pkl", b + ".pkl";
    assert x != y by {
      assert x[..|a|] == a && y[..|b|] == b;
      assert |a| != |b| ==> |x| != |y|;
    }
    assert (pre + x)[|pre|..] == x && (pre + y)[|pre|..] == y;
  }

  // ---------------------------------------------------------------- skip test and dump

  /**
    `check_processed_file(cell)`: true exactly when the cell's `.pkl` exists and is not
    empty; an absent or zero-length file means the cell is (re)processed.
  */
  function CheckProcessedFile(p: Preprocessor, disk: Disk, cell: string): (r: bool)
    ensures r <==> Exists(disk, CheckPath(p, cell)) && disk[Collapse(CheckPath(p, cell))].size > 0
  {
    var path := CheckPath(p, cell);
    Exists(disk, path) && disk[Collapse(path)].size > 0
  }

  /** `dump_single_file(battery)`: dump the record to `<output_dir>/<cell_id>.pkl`. */
  function DumpSingleFile(p: Preprocessor, disk: Disk, b: Battery, pickleSize: map<string, Value> -> nat):
    (r: (Disk, Result<map<string, Value>, Exception>))
    requires CellIdKey in b.attrs && b.attrs[CellIdKey].VStr?
    ensures r.1 == Serialize(b.attrs)
    ensures r.0 == disk[Key(p, b.attrs[CellIdKey].s) :=
      if r.1.Ok? then Blob(pickleSize(r.1.value), Record(r.1.value)) else Blob(0, Opaque)]
  {
    Dump(disk, DumpPath(p, b.attrs[CellIdKey].s), b, pickleSize)
  }

  /**
    A record dumped for `cell` is seen by the skip test exactly when `to_dict` succeeded
    and pickle wrote at least one byte.
  */
  lemma DumpThenCheck(p: Preprocessor, disk: Disk, b: Battery, pickleSize: map<string, Value> -> nat, cell: string)
    requires Valid(p) && '/' !in cell
    requires CellIdKey in b.attrs && b.attrs[CellIdKey] == VStr(cell)
    ensures var r := DumpSingleFile(p, disk, b, pickleSize);
      CheckProcessedFile(p, r.0, cell) <==> r.1.Ok? && pickleSize(r.1.value) > 0
  {
    CheckSeesDump(p, cell);
  }

  // ---------------------------------------------------------------- cell discovery

  /** One entry of a directory listing. */
  datatype Entry = Entry(name: string, isFile: bool)

  /** The glob `*`. */
  predicate GlobAll(name: string) {
    true
  }

  /** The glob `*timeseries*`. */
  predicate GlobTimeseries(name: string) {
    Contains(name, "timeseries")
  }

  /** `f.stem.split()[0]`: `None` stands for the `IndexError` of a blank stem. */
  function CellOf(name: string): Option<string> {
    FirstToken(Stem(name))
  }

  /**
    `set(f.stem.split()[0] for f in inputdir.glob(pattern) if f.is_file())`: the set of
    first tokens of the stems of the matching regular files; a blank stem raises.
  */
  function DiscoverCells(entries: seq<Entry>, pattern: string -> bool): (r: Result<set<string>, Exception>)
    ensures r.Err? <==> exists e :: e in entries && e.isFile && pattern(e.name) && CellOf(e.name).None?
    ensures r.Err? ==> r.error == IndexError
    ensures r.Ok? ==> forall c :: c in r.value <==>
      exists e :: e in entries && e.isFile && pattern(e.name) && CellOf(e.name) == Some(c)
  {
    var matched := set e | e in entries && e.isFile && pattern(e.name);
    if exists e :: e in matched && CellOf(e.name).None? then Err(IndexError)
    else
      var cells := set e | e in matched :: CellOf(e.name).value;
      assert forall c :: c in cells ==> exists e :: e in matched && CellOf(e.name) == Some(c);
      Ok(cells)
  }

  /** The cell id of a file name is one non-blank token of it, free of '/' when the name is. */
  lemma CellOfIsToken(name: string)
    requires '/' !in name && CellOf(name).Some?
    ensures var c := CellOf(name).value;
      c != [] && '/' !in c && forall k :: 0 <= k < |c| ==> !IsSpace(c[k])
  {
    var stem := Stem(name);
    assert '/' !in stem by {
      assert forall k :: 0 <= k < |stem| ==> stem[k] == name[k];
    }
    FirstTokenAvoids(stem, '/');
  }

  /**
    Discovered cells are single tokens of a file name: no whitespace, and no '/' when
    the listing holds plain names.
  */
  lemma DiscoveredCellsAreTokens(entries: seq<Entry>, pattern: string -> bool)
    requires forall e :: e in entries ==> '/' !in e.name
    requires DiscoverCells(entries, pattern).Ok?
    ensures forall c :: c in DiscoverCells(entries, pattern).value ==>
      c != [] && '/' !in c && forall k :: 0 <= k < |c| ==> !IsSpace(c[k])
  {
    var cells := DiscoverCells(entries, pattern).value;
    forall c | c in cells
      ensures c != [] && '/' !in c && forall k :: 0 <= k < |c| ==> !IsSpace(c[k])
    {
      var e :| e in entries && e.isFile && pattern(e.name) && CellOf(e.name) == Some(c);
      CellOfIsToken(e.name);
    }
  }

  // ---------------------------------------------------------------- the batch driver

  /** What an adapter supplies to the driver. */
  datatype Hooks = Hooks(
    extract: string -> Result<Value, Exception>,          // get_timeseries_data(inputdir, cell)
    info: (string, Value) -> Result<Battery, Exception>,  // get_cell_info(cell, timeseries_data)
    pickleSize: map<string, Value> -> nat)                // bytes pickle writes for a dictionary

  /** The record an adapter builds for a cell carries that cell as its id. */
  ghost predicate InfoKeepsId(h: Hooks) {
    forall c, v :: h.info(c, v).Ok? ==>
      CellIdKey in h.info(c, v).value.attrs && h.info(c, v).value.attrs[CellIdKey] == VStr(c)
  }

  /** The cells the driver processes: not done yet, and their extraction succeeds. */
  function Processed(p: Preprocessor, disk: Disk, cells: set<string>, h: Hooks): (r: set<string>)
    ensures r <= cells
  {
    set c | c in cells && !CheckProcessedFile(p, disk, c) && h.extract(c).Ok?
  }

  /** The dictionary pickled for a processed cell, or what `get_cell_info`/`to_dict` raised. */
  function Stored(h: Hooks, c: string): Result<map<string, Value>, Exception>
    requires h.extract(c).Ok?
  {
    match h.info(c, h.extract(c).value)
    case Err(e) => Err(e)
    case Ok(b) => Serialize(b.attrs)
  }

  /** No processed cell makes `get_cell_info` or `to_dict` raise. */
  predicate Clean(p: Preprocessor, disk: Disk, cells: set<string>, h: Hooks) {
    forall c :: c in Processed(p, disk, cells, h) ==> Stored(h, c).Ok?
  }

  /** The file a dumped cell leaves: its pickle, or an empty file when `to_dict` raised. */
  function Written(h: Hooks, c: string): Blob
    requires h.extract(c).Ok?
  {
    match Stored(h, c)
    case Ok(d) => Blob(h.pickleSize(d), Record(d))
    case Err(_) => Blob(0, Opaque)
  }

  function Keys(p: Preprocessor, cells: set<string>): set<string> {
    set c | c in cells :: Key(p, c)
  }

  /** `after` is `before` with exactly the files of `dumped` written, and nothing else changed. */
  ghost predicate Dumped(p: Preprocessor, before: Disk, after: Disk, dumped: set<string>, h: Hooks)
    requires forall c :: c in dumped ==> h.extract(c).Ok?
  {
    && after.Keys == before.Keys + Keys(p, dumped)
    && (forall c :: c in dumped ==> Key(p, c) in after && after[Key(p, c)] == Written(h, c))
    && (forall k :: k in before && k !in Keys(p, dumped) ==> after[k] == before[k])
  }

  /** A file the driver did not write answers the skip test as before. */
  lemma CheckUnaffected(p: Preprocessor, before: Disk, after: Disk, dumped: set<string>, h: Hooks, c: string)
    requires Valid(p) && '/' !in c && forall d :: d in dumped ==> '/' !in d
    requires forall d :: d in dumped ==> h.extract(d).Ok?
    requires Dumped(p, before, after, dumped, h)
    requires c !in dumped
    ensures CheckProcessedFile(p, after, c) == CheckProcessedFile(p, before, c)
    ensures Key(p, c) in before ==> Key(p, c) in after && after[Key(p, c)] == before[Key(p, c)]
  {
    CheckSeesDump(p, c);
    assert Key(p, c) !in Keys(p, dumped) by {
      forall d | d in dumped ensures Key(p, d) != Key(p, c) {
        KeyInjective(p, d, c);
      }
    }
  }

  /** Dumping one more cell extends the set of written files by that cell's file. */
  lemma DumpedStep(p: Preprocessor, before: Disk, mid: Disk, dumped: set<string>, h: Hooks, c: string)
    requires '/' !in c && forall d :: d in dumped ==> '/' !in d
    requires forall d :: d in dumped ==> h.extract(d).Ok?
    requires h.extract(c).Ok?
    requires Dumped(p, before, mid, dumped, h)
    requires c !in dumped
    ensures Dumped(p, before, mid[Key(p, c) := Written(h, c)], dumped + {c}, h)
  {
    var after := mid[Key(p, c) := Written(h, c)];
    assert Keys(p, dumped + {c}) == Keys(p, dumped) + {Key(p, c)};
    forall d | d in dumped
      ensures after[Key(p, d)] == Written(h, d)
    {
      KeyInjective(p, d, c);
    }
  }

  /** A skipped cell adds nothing to the processed set. */
  lemma ProcessedSkip(p: Preprocessor, disk: Disk, done: set<string>, h: Hooks, c: string)
    requires CheckProcessedFile(p, disk, c) || h.extract(c).Err?
    ensures Processed(p, disk, done + {c}, h) == Processed(p, disk, done, h)
  {
  }

  /** A cell that is neither done nor failing joins the processed set. */
  lemma ProcessedGood(p: Preprocessor, disk: Disk, done: set<string>, h: Hooks, c: string)
    requires !CheckProcessedFile(p, disk, c) && h.extract(c).Ok? && c !in done
    ensures Processed(p, disk, done + {c}, h) == Processed(p, disk, done, h) + {c}
    ensures c !in Processed(p, disk, done, h)
  {
  }

  /** Processing more cells processes a superset. */
  lemma ProcessedMono(p: Preprocessor, disk: Disk, done: set<string>, cells: set<string>, h: Hooks)
    requires done <= cells
    ensures Processed(p, disk, done, h) <= Processed(p, disk, cells, h)
  {
  }

  /** What the driver writes for a processed cell is the cell's `Written` file. */
  lemma DumpWritesCell(p: Preprocessor, disk: Disk, h: Hooks, c: string)
    requires h.extract(c).Ok? && InfoKeepsId(h)
    requires h.info(c, h.extract(c).value).Ok?
    ensures var d := DumpSingleFile(p, disk, h.info(c, h.extract(c).value).value, h.pickleSize);
      && d.0 == disk[Key(p, c) := Written(h, c)]
      && d.1 == Stored(h, c)
  {
  }

  /**
    One pass of the driver's loop body for `cell`: skip it when its output is there or
    its extraction raises (`Ok(false)`); otherwise build its record and dump it
    (`Ok(true)`). What `get_cell_info` or the dump raises comes back as `Err`, with the
    empty file the failed dump left behind.
  */
  method ProcessCell(p: Preprocessor, disk: Disk, cell: string, h: Hooks)
    returns (disk': Disk, r: Result<bool, Exception>)
    requires InfoKeepsId(h)
    ensures r == Ok(false) <==> CheckProcessedFile(p, disk, cell) || h.extract(cell).Err?
    ensures r == Ok(false) ==> disk' == disk
    ensures r == Ok(true) ==> Stored(h, cell).Ok?
    ensures r.Err? ==> Stored(h, cell) == Err(r.error)
    ensures r.Ok? ==> r.value == (cell in Processed(p, disk, {cell}, h))
    ensures r != Ok(false) ==>
      || disk' == disk[Key(p, cell) := Written(h, cell)]
      || (disk' == disk && h.info(cell, h.extract(cell).value).Err?)
  {
    if CheckProcessedFile(p, disk, cell) {
      return disk, Ok(false);
    }
    var ts := h.extract(cell);
    if ts.Err? {
      return disk, Ok(false);
    }
    var b := h.info(cell, ts.value);
    if b.Err? {
      return disk, Err(b.error);
    }
    var dumped := DumpSingleFile(p, disk, b.value, h.pickleSize);
    DumpWritesCell(p, disk, h, cell);
    disk' := dumped.0;
    if dumped.1.Err? {
      return disk', Err(dumped.1.error);
    }
    r := Ok(true);
  }

  /**
    The state of the driver's loop after visiting `done`: the counters count the processed
    and the skipped cells among them, exactly the processed ones have been written, and
    none of them raised.
  */
  ghost predicate Visited(p: Preprocessor, disk: Disk, h: Hooks, done: set<string>, cur: Disk, processed: nat, skipped: nat) {
    && processed == |Processed(p, disk, done, h)| && processed + skipped == |done|
    && Dumped(p, disk, cur, Processed(p, disk, done, h), h)
    && Clean(p, disk, done, h)
  }

  /** Visiting a skipped cell adds one to the skip count and writes nothing. */
  lemma VisitSkipped(p: Preprocessor, disk: Disk, h: Hooks, done: set<string>, cur: Disk, processed: nat, skipped: nat, c: string)
    requires Visited(p, disk, h, done, cur, processed, skipped) && c !in done
    requires CheckProcessedFile(p, disk, c) || h.extract(c).Err?
    ensures Visited(p, disk, h, done + {c}, cur, processed, skipped + 1)
  {
    ProcessedSkip(p, disk, done, h, c);
  }

  /** Visiting a processed cell adds one to the processed count and writes its file. */
  lemma VisitProcessed(p: Preprocessor, disk: Disk, h: Hooks, done: set<string>, cur: Disk, processed: nat, skipped: nat, c: string)
    requires Valid(p) && '/' !in c && forall d :: d in done ==> '/' !in d
    requires Visited(p, disk, h, done, cur, processed, skipped) && c !in done
    requires !CheckProcessedFile(p, disk, c) && h.extract(c).Ok? && Stored(h, c).Ok?
    ensures Visited(p, disk, h, done + {c}, cur[Key(p, c) := Written(h, c)], processed + 1, skipped)
  {
    ProcessedGood(p, disk, done, h, c);
    DumpedStep(p, disk, cur, Processed(p, disk, done, h), h, c);
  }

  /** A cell that raises leaves the written files of the cells before it, and possibly its own. */
  lemma VisitRaising(p: Preprocessor, disk: Disk, h: Hooks, cells: set<string>, done: set<string>, cur: Disk, after: Disk,
                     processed: nat, skipped: nat, c: string)
    requires Valid(p) && '/' !in c && forall d :: d in done ==> '/' !in d
    requires Visited(p, disk, h, done, cur, processed, skipped) && done <= cells && c in cells && c !in done
    requires !CheckProcessedFile(p, disk, c) && h.extract(c).Ok? && Stored(h, c).Err?
    requires after == cur || after == cur[Key(p, c) := Written(h, c)]
    ensures !Clean(p, disk, cells, h)
    ensures exists x :: x in Processed(p, disk, cells, h) && Stored(h, x) == Stored(h, c)
    ensures exists s :: s <= Processed(p, disk, cells, h) && Dumped(p, disk, after, s, h)
  {
    var good := Processed(p, disk, done, h);
    ProcessedMono(p, disk, done + {c}, cells, h);
    ProcessedGood(p, disk, done, h, c);
    assert c in Processed(p, disk, cells, h);
    if after == cur {
      assert good <= Processed(p, disk, cells, h) && Dumped(p, disk, after, good, h);
    } else {
      DumpedStep(p, disk, cur, good, h, c);
      assert good + {c} <= Processed(p, disk, cells, h) && Dumped(p, disk, after, good + {c}, h);
    }
  }

  /**
    One visit, as `ProcessCell` reports it, moves the loop state forward, or (when the
    cell raised) establishes what the driver promises about an aborted run.
  */
  lemma Visit(p: Preprocessor, disk: Disk, h: Hooks, cells: set<string>, done: set<string>, before: Disk, after: Disk,
              processed: nat, skipped: nat, c: string, outcome: Result<bool, Exception>)
    requires Valid(p) && forall d :: d in cells ==> '/' !in d
    requires done <= cells && c in cells && c !in done
    requires Visited(p, disk, h, done, before, processed, skipped)
    requires outcome == Ok(false) <==> CheckProcessedFile(p, before, c) || h.extract(c).Err?
    requires outcome == Ok(false) ==> after == before
    requires outcome == Ok(true) ==> Stored(h, c).Ok?
    requires outcome.Err? ==> Stored(h, c) == Err(outcome.error)
    requires outcome != Ok(false) ==>
      || after == before[Key(p, c) := Written(h, c)]
      || (after == before && h.info(c, h.extract(c).value).Err?)
    ensures outcome == Ok(false) ==> Visited(p, disk, h, done + {c}, after, processed, skipped + 1)
    ensures outcome == Ok(true) ==> Visited(p, disk, h, done + {c}, after, processed + 1, skipped)
    ensures outcome.Err? ==> !Clean(p, disk, cells, h)
    ensures outcome.Err? ==> exists x :: x in Processed(p, disk, cells, h) && Stored(h, x) == Err(outcome.error)
    ensures outcome.Err? ==> exists s :: s <= Processed(p, disk, cells, h) && Dumped(p, disk, after, s, h)
  {
    CheckUnaffected(p, disk, before, Processed(p, disk, done, h), h, c);
    if outcome.Err? {
      VisitRaising(p, disk, h, cells, done, before, after, processed, skipped, c);
    } else if outcome.value {
      VisitProcessed(p, disk, h, done, before, processed, skipped, c);
    } else {
      VisitSkipped(p, disk, h, done, before, processed, skipped, c);
    }
  }

  /** Before the loop nothing is visited, counted or written. */
  lemma StartRun(p: Preprocessor, disk: Disk, h: Hooks)
    ensures Visited(p, disk, h, {}, disk, 0, 0)
  {
    assert Processed(p, disk, {}, h) == {};
  }

  /** When the loop has visited every cell, its counters and writes are those of the whole set. */
  lemma FinishRun(p: Preprocessor, disk: Disk, h: Hooks, cells: set<string>, cur: Disk, processed: nat, skipped: nat)
    requires Visited(p, disk, h, cells, cur, processed, skipped)
    ensures Clean(p, disk, cells, h)
    ensures processed == |Processed(p, disk, cells, h)| && processed + skipped == |cells|
    ensures Dumped(p, disk, cur, Processed(p, disk, cells, h), h)
  {
  }

  /**
    The loop body of the driver for one cell `c` not yet visited: process it and move the
    loop state forward, or report what it raised together with what that means for the
    whole run.
  */
  method VisitCell(p: Preprocessor, disk: Disk, h: Hooks, ghost cells: set<string>, ghost done: set<string>,
                   cur: Disk, processed: nat, skipped: nat, c: string)
    returns (next: Disk, processed': nat, skipped': nat, raised: Option<Exception>)
    requires Valid(p) && forall d :: d in cells ==> '/' !in d
    requires InfoKeepsId(h)
    requires done <= cells && c in cells && c !in done
    requires Visited(p, disk, h, done, cur, processed, skipped)
    ensures raised.None? ==> Visited(p, disk, h, done + {c}, next, processed', skipped')
    ensures raised.Some? ==> !Clean(p, disk, cells, h)
    ensures raised.Some? ==> exists x :: x in Processed(p, disk, cells, h) && Stored(h, x) == Err(raised.value)
    ensures raised.Some? ==> exists s :: s <= Processed(p, disk, cells, h) && Dumped(p, disk, next, s, h)
  {
    var outcome;
    next, outcome := ProcessCell(p, cur, c, h);
    Visit(p, disk, h, cells, done, cur, next, processed, skipped, c, outcome);
    processed', skipped', raised := processed, skipped, None;
    if outcome.Err? {
      raised := Some(outcome.error);
    } else if outcome.value {
      processed' := processed + 1;
    } else {
      skipped' := skipped + 1;
    }
  }

  /**
    The loop of `HealthyZipProcessor.process` over a set of cells (visited in any order):
    a cell with a non-empty `.pkl` is skipped, a cell whose extraction raises is skipped,
    every other cell is built and dumped and counted as processed. `get_cell_info` and the
    dump run outside the `try`, so what they raise stops the loop and propagates.
  */
  method ProcessCells(p: Preprocessor, disk: Disk, cells: set<string>, h: Hooks)
    returns (disk': Disk, r: Result<(nat, nat), Exception>)
    requires Valid(p)
    requires forall c :: c in cells ==> '/' !in c
    requires InfoKeepsId(h)
    ensures r.Ok? <==> Clean(p, disk, cells, h)
    ensures r.Ok? ==> r.value.0 == |Processed(p, disk, cells, h)| && r.value.0 + r.value.1 == |cells|
    ensures r.Ok? ==> Dumped(p, disk, disk', Processed(p, disk, cells, h), h)
    ensures r.Err? ==> exists c :: c in Processed(p, disk, cells, h) && Stored(h, c) == Err(r.error)
    ensures r.Err? ==> exists s :: s <= Processed(p, disk, cells, h) && Dumped(p, disk, disk', s, h)
  {
    var processed: nat, skipped: nat := 0, 0;
    disk' := disk;
    var todo := cells;
    ghost var done: set<string> := {};
    StartRun(p, disk, h);
    while todo != {}
      invariant todo <= cells && done == cells - todo
      invariant Visited(p, disk, h, done, disk', processed, skipped)
      decreases todo
    {
      var c :| c in todo;
      var raised;
      disk', processed, skipped, raised := VisitCell(p, disk, h, cells, done, disk', processed, skipped, c);
      if raised.Some? {
        return disk', Err(raised.value);
      }
      todo := todo - {c};
      done := done + {c};
    }
    assert done == cells;
    FinishRun(p, disk, h, cells, disk', processed, skipped);
    r := Ok((processed, skipped));
  }

  /** What a run of the driver over `cells` promises, as `ProcessCells` states it. */
  ghost predicate Run(p: Preprocessor, disk: Disk, cells: set<string>, h: Hooks, disk': Disk, r: Result<(nat, nat), Exception>) {
    && (r.Ok? <==> Clean(p, disk, cells, h))
    && (r.Ok? ==> r.value.0 == |Processed(p, disk, cells, h)| && r.value.0 + r.value.1 == |cells|)
    && (r.Ok? ==> Dumped(p, disk, disk', Processed(p, disk, cells, h), h))
    && (r.Err? ==> exists c :: c in Processed(p, disk, cells, h) && Stored(h, c) == Err(r.error))
    && (r.Err? ==> exists s :: s <= Processed(p, disk, cells, h) && Dumped(p, disk, disk', s, h))
  }

  /**
    `HealthyZipProcessor.process(parentdir, globstr)`: the cells are the first tokens of
    the stems of the files matching the glob in the input directory (`listing`), and
    the driver runs over them. A blank stem raises `IndexError` before anything is written.
  */
  method HealthyZipProcess(p: Preprocessor, disk: Disk, listing: seq<Entry>, glob: string -> bool, h: Hooks)
    returns (disk': Disk, r: Result<(nat, nat), Exception>)
    requires Valid(p) && InfoKeepsId(h)
    requires forall e :: e in listing ==> '/' !in e.name
    ensures var found := DiscoverCells(listing, glob);
      found.Err? ==> disk' == disk && r == Err(found.error)
    ensures var found := DiscoverCells(listing, glob);
      found.Ok? ==> Run(p, disk, found.value, h, disk', r)
  {
    var found := DiscoverCells(listing, glob);
    if found.Err? {
      return disk, Err(found.error);
    }
    DiscoveredCellsAreTokens(listing, glob);
    disk', r := ProcessCells(p, disk, found.value, h);
  }

  /** The input directory of `HealthyZipProcessor.process`: `parentdir` if given, else `data/raw/<name>/`. */
  function HealthyZipInputDir(p: Preprocessor, parentDir: Option<string>): (r: string)
    ensures parentDir.Some? && parentDir.value != [] ==> r == parentDir.value
    ensures parentDir.None? || parentDir.value == [] ==> r == "data/raw/" + p.name + "/"
  {
    if parentDir.Some? && parentDir.value != [] then parentDir.value else "data/raw/" + p.name + "/"
  }

  // ---------------------------------------------------------------- properties of a run

  /**
    A cell skipped because its output was already there keeps that file untouched,
    whether the run completes or stops on an error.
  */
  lemma SkippedUntouched(p: Preprocessor, disk: Disk, disk': Disk, cells: set<string>, h: Hooks, s: set<string>, c: string)
    requires Valid(p) && forall d :: d in cells ==> '/' !in d
    requires s <= Processed(p, disk, cells, h) && Dumped(p, disk, disk', s, h)
    requires c in cells && CheckProcessedFile(p, disk, c)
    ensures Key(p, c) in disk && Key(p, c) in disk' && disk'[Key(p, c)] == disk[Key(p, c)]
  {
    CheckSeesDump(p, c);
    CheckUnaffected(p, disk, disk', s, h, c);
  }

  /**
    A cell whose extraction raises changes nothing but the skip count: the run over the
    cells behaves as the run without it.
  */
  lemma FailedExtractionOnlySkips(p: Preprocessor, disk: Disk, cells: set<string>, h: Hooks, c: string)
    requires c in cells && h.extract(c).Err?
    ensures Processed(p, disk, cells, h) == Processed(p, disk, cells - {c}, h)
    ensures Clean(p, disk, cells, h) <==> Clean(p, disk, cells - {c}, h)
  {
    assert Processed(p, disk, cells, h) == Processed(p, disk, cells - {c}, h);
  }

  /**
    Idempotence: after a complete run in which pickle always writes something, a second
    run over the same cells processes none of them (and so skips them all) and raises
    nothing.
  */
  lemma SecondRunSkipsAll(p: Preprocessor, disk: Disk, disk': Disk, cells: set<string>, h: Hooks)
    requires Valid(p) && forall c :: c in cells ==> '/' !in c
    requires Clean(p, disk, cells, h)
    requires Dumped(p, disk, disk', Processed(p, disk, cells, h), h)
    requires forall d :: h.pickleSize(d) > 0
    ensures Processed(p, disk', cells, h) == {}
    ensures Clean(p, disk', cells, h)
  {
    var good := Processed(p, disk, cells, h);
    forall c | c in cells
      ensures CheckProcessedFile(p, disk', c) || h.extract(c).Err?
    {
      CheckSeesDump(p, c);
      if c in good {
        assert disk'[Key(p, c)] == Written(h, c);
      } else if h.extract(c).Ok? {
        CheckUnaffected(p, disk, disk', good, h, c);
      }
    }
  }
}

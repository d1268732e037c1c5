/**
  The healthy-cell archive adapters of `preprocess_HealthyArchive.py`: one per source
  (CALCE, HNEI, Michigan, Oxford, SNL, UL-Purdue), sharing the extraction of the one
  channel of a cell's csv file and the record built from the per-source getters. The
  SNL adapter runs the driver once per cathode subdirectory and adds up the counts.

  Capacities are written as exact products of `real`s (`3.2 * 0.9`), not as the floats
  Python computes.
*/
module HealthyArchive {
  import opened Wrappers
  import opened Text
  import opened Table
  import opened Values
  import opened FileSystem
  import opened BatteryData
  import opened Base

  datatype Source = Calce | Hnei | Michigan | Oxford | Snl | UlPurdue

  /** The name each adapter passes to the base constructor; it is also the record's organisation. */
  function Name(s: Source): string {
    match s
    case Calce => "calce"
    case Hnei => "hnei"
    case Michigan => "michigan"
    case Oxford => "oxford"
    case Snl => "snl"
    case UlPurdue => "ul-purdue"
  }

  // ---------------------------------------------------------------- per-source getters

  /**
    `get_capacity(cell)`. The base getter has no `return`, so Michigan's capacity is
    `None`; SNL's plain NMC capacity is the integer 3, every other capacity a float.
  */
  function Capacity(s: Source, cell: string): (r: Value)
    ensures r == VNone <==> s == Michigan
    ensures r != VNone ==> r == VInt(3) || (r.VReal? && 0.0 < r.r <= 3.4)
  {
    match s
    case Calce => if Contains(Upper(cell), "CS") then VReal(1.1) else VReal(1.35)
    case Hnei => VReal(2.8)
    case Michigan => VNone
    case Oxford => VReal(0.72)
    case Snl =>
      if Contains(cell, "NMC") then (if Contains(cell, "15C") then VReal(3.0 * 0.9) else VInt(3))
      else if Contains(cell, "NCA") then
        (if Contains(cell, "20-80") then VReal(1.92) else if Contains(cell, "15C") then VReal(3.2 * 0.9) else VReal(3.2))
      else VReal(1.1)
    case UlPurdue => if Contains(cell, "2.5-96.5") then VReal(3.4 * 0.94) else VReal(3.4)
  }

  /** `get_form_factor(cell)`: `None` for Michigan, whose getter is the base one. */
  function FormFactor(s: Source): (r: Value)
    ensures r == VNone <==> s == Michigan
    ensures r != VNone ==> r.VStr? && r.s in {"prismatic", "cylindrical_18650", "pouch"}
  {
    match s
    case Calce => VStr("prismatic")
    case Hnei => VStr("cylindrical_18650")
    case Michigan => VNone
    case Oxford => VStr("pouch")
    case Snl => VStr("cylindrical_18650")
    case UlPurdue => VStr("cylindrical_18650")
  }

  /**
    `get_cathode(cell)`: 'LCO', except for SNL, where it is the third '_'-separated field
    of the id (`IndexError` when there is none).
  */
  function CathodeOf(s: Source, cell: string): (r: Result<Value, Exception>)
    ensures s != Snl ==> r == Ok(VStr("LCO"))
    ensures r.Err? ==> r.error == IndexError
    ensures r.Ok? ==> r.value.VStr?
    ensures s == Snl && r.Ok? ==> '_' !in r.value.s && Contains(cell, r.value.s)
  {
    if s != Snl then Ok(VStr("LCO"))
    else
      var fields := Split(cell, '_');
      if |fields| > 2 then
        SplitFieldsContained(cell, '_');
        assert fields[2] in fields;
        Ok(VStr(fields[2]))
      else Err(IndexError)
  }

  /** SNL's cathode lookup raises exactly when the id has fewer than two underscores. */
  lemma SnlCathodeFails(cell: string)
    ensures CathodeOf(Snl, cell).Err? <==> CountChar(cell, '_') < 2
    ensures CathodeOf(Snl, cell).Ok? ==> CathodeOf(Snl, cell).value.VStr? && '_' !in CathodeOf(Snl, cell).value.s
  {
    SplitCount(cell, '_');
    var fields := Split(cell, '_');
    if |fields| > 2 {
      assert fields[2] in fields;
    }
  }

  /**
    Every capacity is `None` or a positive amount of at most 3.4 Ah: the derated values
    (factors 0.9 and 0.94, and SNL's 1.92 Ah, 60% of 3.2 Ah) never exceed a nominal capacity.
  */
  lemma CapacityBounds(s: Source, cell: string)
    ensures var c := Capacity(s, cell);
      || c == VNone
      || (c.VReal? && 0.0 < c.r <= 3.4)
      || (c.VInt? && 0 < c.i <= 3)
    ensures Capacity(s, cell) == VNone <==> s == Michigan
  {
  }

  /**
    The fixed tables: CALCE cells are prismatic with 1.1 Ah exactly when "CS" occurs in
    the upper-cased id (else 1.35 Ah); HNEI cells are 2.8 Ah 18650 cylinders, Oxford
    cells 0.72 Ah pouches, UL-Purdue cells 18650 cylinders of 3.4 Ah derated by 0.94
    exactly when the id mentions the "2.5-96.5" window; Michigan has neither.
  */
  lemma SourceTables(cell: string)
    ensures Capacity(Calce, cell) == VReal(1.1) <==> Contains(Upper(cell), "CS")
    ensures Capacity(Calce, cell) != VReal(1.1) ==> Capacity(Calce, cell) == VReal(1.35)
    ensures FormFactor(Calce) == VStr("prismatic")
    ensures Capacity(Hnei, cell) == VReal(2.8) && FormFactor(Hnei) == VStr("cylindrical_18650")
    ensures Capacity(Oxford, cell) == VReal(0.72) && FormFactor(Oxford) == VStr("pouch")
    ensures Capacity(UlPurdue, cell) == VReal(3.4 * 0.94) <==> Contains(cell, "2.5-96.5")
    ensures Capacity(UlPurdue, cell) != VReal(3.4 * 0.94) ==> Capacity(UlPurdue, cell) == VReal(3.4)
    ensures FormFactor(UlPurdue) == VStr("cylindrical_18650") && FormFactor(Snl) == VStr("cylindrical_18650")
    ensures Capacity(Michigan, cell) == VNone && FormFactor(Michigan) == VNone
  {
  }

  /**
    SNL's capacity rule, in its order of tests: an 'NMC' id wins over an 'NCA' one, and
    for 'NCA' the 60% window '20-80' wins over the low-temperature '15C'.
  */
  lemma SnlCapacityPrecedence(cell: string)
    ensures Contains(cell, "NMC") ==> Capacity(Snl, cell) == (if Contains(cell, "15C") then VReal(3.0 * 0.9) else VInt(3))
    ensures !Contains(cell, "NMC") && Contains(cell, "NCA") && Contains(cell, "20-80") ==>
      Capacity(Snl, cell) == VReal(1.92)
    ensures !Contains(cell, "NMC") && Contains(cell, "NCA") && !Contains(cell, "20-80") ==>
      Capacity(Snl, cell) == (if Contains(cell, "15C") then VReal(3.2 * 0.9) else VReal(3.2))
    ensures !Contains(cell, "NMC") && !Contains(cell, "NCA") ==> Capacity(Snl, cell) == VReal(1.1)
  {
  }

  /** CALCE tells its two cell types apart by "CS" in the upper-cased id, so "cs" counts too. */
  lemma CalceCaseInsensitive(pre: string, post: string)
    ensures Capacity(Calce, pre + "cs" + post) == VReal(1.1)
    ensures Capacity(Calce, pre + "CS" + post) == VReal(1.1)
  {
    var lower := pre + "cs" + post;
    var upper := pre + "CS" + post;
    assert Upper(lower)[|pre|..|pre| + 2] == "CS";
    assert OccursAt(Upper(lower), "CS", |pre|);
    assert Upper(upper)[|pre|..|pre| + 2] == "CS";
    assert OccursAt(Upper(upper), "CS", |pre|);
  }

  // ---------------------------------------------------------------- extraction

  const TimeColumn := "Test_Time (s)"
  const TempColumn := "Cell_Temperature (C)"

  /**
    `get_timeseries_data(inputdir, cell)` on the frame read from `<cell>.csv`: drop every
    column holding a missing value, assert something is left, and build the one channel.
  */
  function Extract(frame: Result<Frame, Exception>): (r: Result<Value, Exception>)
    ensures r.Ok? <==>
      && frame.Ok? && Size(DropNaColumns(frame.value)) > 0
      && Has(DropNaColumns(frame.value), TimeColumn) && Has(DropNaColumns(frame.value), TempColumn)
    ensures frame.Ok? && Size(DropNaColumns(frame.value)) == 0 ==> r == Err(AssertionError)
    ensures r.Ok? ==> r.value.VList? && |r.value.items| == 1 && r.value.items[0].VTs?
  {
    if frame.Err? then Err(frame.error)
    else
      var df := DropNaColumns(frame.value);
      if Size(df) == 0 then Err(AssertionError)
      else
        match Get(df, TimeColumn)
        case Err(e) => Err(e)
        case Ok(time) =>
          match Get(df, TempColumn)
          case Err(e) => Err(e)
          case Ok(temp) => Ok(VList([VTs(Timeseries(VSeries(time), VSeries(temp), map[]))]))
  }

  /**
    A successful extraction read a non-empty frame whose time and temperature columns
    have no missing value, and its channel holds exactly those columns.
  */
  lemma ExtractNeedsCompleteColumns(f: Frame)
    requires Extract(Ok(f)).Ok?
    ensures f.rows > 0
    ensures exists c :: (c in f.columns && c.name == TimeColumn && NoMissing(c) &&
                         Extract(Ok(f)).value.items[0].ts.time == VSeries(c.cells))
    ensures exists c :: (c in f.columns && c.name == TempColumn && NoMissing(c) &&
                         Extract(Ok(f)).value.items[0].ts.temperature == VSeries(c.cells))
  {
    var df := DropNaColumns(f);
    assert df.rows == f.rows && |df.columns| > 0;
  }

  // ---------------------------------------------------------------- the record

  /** The arguments `get_cell_info` passes to `BatteryData`, once the cathode is known. */
  function CellParams(s: Source, cell: string, series: Value, cathode: Value): Params {
    Params(cell, VStr(Name(s)), series, VBool(true), VNone, VNone, VStr("graphite"), cathode,
           Capacity(s, cell), FormFactor(s))
  }

  /** `get_cell_info(cell, timeseries_data)`: what `get_cathode` raises propagates. */
  function CellInfo(s: Source, cell: string, series: Value): (r: Result<Battery, Exception>)
    ensures r.Err? <==> CathodeOf(s, cell).Err? || series.VSeries?
  {
    match CathodeOf(s, cell)
    case Err(e) => Err(e)
    case Ok(cathode) =>
      InitKwargsOk(CellParams(s, cell, series, cathode));
      Init(Kwargs(CellParams(s, cell, series, cathode)))
  }

  /**
    The record of an archive cell: healthy, organisation the adapter's name, graphite
    anode, the source's cathode, capacity and form factor, no state of charge or battery
    type, and the channels when given.
  */
  lemma CellInfoRecord(s: Source, cell: string, series: Value)
    requires CellInfo(s, cell, series).Ok?
    ensures var attrs := CellInfo(s, cell, series).value.attrs;
      && CellIdKey in attrs && OrgKey in attrs && HealthyKey in attrs && SocKey in attrs && TypeKey in attrs
      && AnodeKey in attrs && CathodeKey in attrs && CapacityKey in attrs && FormKey in attrs
      && attrs[CellIdKey] == VStr(cell)
      && attrs[OrgKey] == VStr(Name(s))
      && attrs[HealthyKey] == VBool(true)
      && attrs[AnodeKey] == VStr("graphite")
      && attrs[CathodeKey] == CathodeOf(s, cell).value
      && (s != Snl ==> attrs[CathodeKey] == VStr("LCO"))
      && attrs[CapacityKey] == Capacity(s, cell)
      && attrs[FormKey] == FormFactor(s)
      && attrs[SocKey] == VNone && attrs[TypeKey] == VNone
      && (SeriesKey in attrs <==> series != VNone)
      && Named <= attrs.Keys
  {
    var params := CellParams(s, cell, series, CathodeOf(s, cell).value);
    InitKwargsNamed(params);
    InitKwargsRest(params);
  }

  // ---------------------------------------------------------------- the adapters

  /** The driver hooks of an archive adapter, reading `<inputdir>/<cell>.csv` through `read`. */
  function AdapterHooks(s: Source, inputDir: string, read: string -> Result<Frame, Exception>,
                        pickleSize: map<string, Value> -> nat): Hooks {
    Hooks(
      cell => Extract(read(Join(inputDir, cell + ".csv"))),
      (cell, series) => CellInfo(s, cell, series),
      pickleSize)
  }

  /** Every record an archive adapter builds carries its cell as `cell_id`. */
  lemma AdapterKeepsId(s: Source, inputDir: string, read: string -> Result<Frame, Exception>,
                       pickleSize: map<string, Value> -> nat)
    ensures InfoKeepsId(AdapterHooks(s, inputDir, read, pickleSize))
  {
    var h := AdapterHooks(s, inputDir, read, pickleSize);
    forall c, v | h.info(c, v).Ok?
      ensures CellIdKey in h.info(c, v).value.attrs && h.info(c, v).value.attrs[CellIdKey] == VStr(c)
    {
      assert h.info(c, v) == CellInfo(s, c, v);
      InitKwargsNamed(CellParams(s, c, v, CathodeOf(s, c).value));
    }
  }

  /** The input directory: `parentdir` when given and not empty, else the archive's folder for the source. */
  function InputDir(s: Source, parentDir: Option<string>): (r: string)
    ensures parentDir.Some? && parentDir.value != [] ==> r == parentDir.value
    ensures parentDir.None? || parentDir.value == [] ==> r == "data/raw/healthy_archive_data/" + Name(s) + "/"
  {
    if parentDir.Some? && parentDir.value != [] then parentDir.value
    else "data/raw/healthy_archive_data/" + Name(s) + "/"
  }

  /**
    `HealthyArchivePreprocessor.process(parentdir)` for every source but SNL: discover the
    cells of the '*timeseries*' files and run the driver over them.
  */
  method Process(s: Source, p: Preprocessor, disk: Disk, parentDir: Option<string>, listing: seq<Entry>,
                 read: string -> Result<Frame, Exception>, pickleSize: map<string, Value> -> nat)
    returns (disk': Disk, r: Result<(nat, nat), Exception>)
    requires s != Snl
    requires Base.Valid(p)
    requires forall e :: e in listing ==> '/' !in e.name
    ensures var found := DiscoverCells(listing, GlobTimeseries);
      found.Err? ==> disk' == disk && r == Err(found.error)
    ensures var found := DiscoverCells(listing, GlobTimeseries);
      found.Ok? ==> Run(p, disk, found.value, AdapterHooks(s, InputDir(s, parentDir), read, pickleSize), disk', r)
  {
    var h := AdapterHooks(s, InputDir(s, parentDir), read, pickleSize);
    AdapterKeepsId(s, InputDir(s, parentDir), read, pickleSize);
    disk', r := HealthyZipProcess(p, disk, listing, GlobTimeseries, h);
  }

  // ---------------------------------------------------------------- SNL's three subdirectories

  const SnlCathodes: seq<string> := ["LFP", "NCA", "NMC"]

  /** SNL's parent directory: only a missing one (not an empty one) falls back to the default. */
  function SnlParentDir(parentDir: Option<string>): (r: string)
    ensures parentDir.Some? ==> r == parentDir.value
  {
    if parentDir.Some? then parentDir.value else "data/raw/healthy_archive_data/snl/"
  }

  /** The input directory of the `i`-th cathode subdirectory: `f'{parentdir}{cathode}/'`. */
  function SnlDir(parent: string, i: nat): string
    requires i < |SnlCathodes|
  {
    parent + SnlCathodes[i] + "/"
  }

  /**
    One stage of SNL's loop, from file system `before` to `after` with outcome `r`: the
    subdirectory's cells are discovered (a failed listing changes nothing) and the driver
    runs over them.
  */
  ghost predicate SnlStage(p: Preprocessor, parent: string, i: nat, listings: string -> seq<Entry>,
                           read: string -> Result<Frame, Exception>, pickleSize: map<string, Value> -> nat,
                           before: Disk, after: Disk, r: Result<(nat, nat), Exception>)
    requires i < |SnlCathodes|
  {
    var dir := SnlDir(parent, i);
    var found := DiscoverCells(listings(dir), GlobTimeseries);
    && (found.Err? ==> after == before && r == Err(found.error))
    && (found.Ok? ==> Run(p, before, found.value, AdapterHooks(Snl, dir, read, pickleSize), after, r))
  }

  /** The sum of the processed counts of the stages that completed. */
  function SumProcessed(stages: seq<Result<(nat, nat), Exception>>): nat {
    if stages == [] then 0
    else SumProcessed(stages[..|stages| - 1]) + (if stages[|stages| - 1].Ok? then stages[|stages| - 1].value.0 else 0)
  }

  /** The sum of the skipped counts of the stages that completed. */
  function SumSkipped(stages: seq<Result<(nat, nat), Exception>>): nat {
    if stages == [] then 0
    else SumSkipped(stages[..|stages| - 1]) + (if stages[|stages| - 1].Ok? then stages[|stages| - 1].value.1 else 0)
  }

  /** One stage of SNL's loop, run. */
  method SnlRunStage(p: Preprocessor, disk: Disk, parent: string, i: nat, listings: string -> seq<Entry>,
                     read: string -> Result<Frame, Exception>, pickleSize: map<string, Value> -> nat)
    returns (next: Disk, r: Result<(nat, nat), Exception>)
    requires Base.Valid(p) && i < |SnlCathodes|
    requires forall e :: e in listings(SnlDir(parent, i)) ==> '/' !in e.name
    ensures SnlStage(p, parent, i, listings, read, pickleSize, disk, next, r)
  {
    var dir := SnlDir(parent, i);
    AdapterKeepsId(Snl, dir, read, pickleSize);
    next, r := HealthyZipProcess(p, disk, listings(dir), GlobTimeseries, AdapterHooks(Snl, dir, read, pickleSize));
  }

  /**
    Every stage of the loop that ran is recorded: stage `j` took the file system from
    `trace[j]` to `trace[j + 1]` with outcome `stages[j]`.
  */
  ghost predicate SnlTrace(p: Preprocessor, parent: string, listings: string -> seq<Entry>,
                           read: string -> Result<Frame, Exception>, pickleSize: map<string, Value> -> nat,
                           trace: seq<Disk>, stages: seq<Result<(nat, nat), Exception>>)
    decreases |stages|
  {
    && |stages| <= |SnlCathodes| && |trace| == |stages| + 1
    && (stages != [] ==>
          var n := |stages| - 1;
          && SnlTrace(p, parent, listings, read, pickleSize, trace[..n + 1], stages[..n])
          && SnlStage(p, parent, n, listings, read, pickleSize, trace[n], trace[n + 1], stages[n]))
  }

  lemma SnlTraceExtend(p: Preprocessor, parent: string, listings: string -> seq<Entry>,
                       read: string -> Result<Frame, Exception>, pickleSize: map<string, Value> -> nat,
                       trace: seq<Disk>, stages: seq<Result<(nat, nat), Exception>>, next: Disk, stage: Result<(nat, nat), Exception>)
    requires SnlTrace(p, parent, listings, read, pickleSize, trace, stages) && |stages| < |SnlCathodes|
    requires SnlStage(p, parent, |stages|, listings, read, pickleSize, trace[|stages|], next, stage)
    ensures SnlTrace(p, parent, listings, read, pickleSize, trace + [next], stages + [stage])
  {
    var trace', stages' := trace + [next], stages + [stage];
    assert trace'[..|stages| + 1] == trace && stages'[..|stages|] == stages;
    assert trace'[|stages|] == trace[|stages|] && trace'[|stages| + 1] == next && stages'[|stages|] == stage;
  }

  /** A stage that completed adds its counts to the totals; one that raised adds nothing. */
  lemma SumsExtend(stages: seq<Result<(nat, nat), Exception>>, stage: Result<(nat, nat), Exception>)
    ensures SumProcessed(stages + [stage]) == SumProcessed(stages) + (if stage.Ok? then stage.value.0 else 0)
    ensures SumSkipped(stages + [stage]) == SumSkipped(stages) + (if stage.Ok? then stage.value.1 else 0)
  {
    assert (stages + [stage])[..|stages|] == stages;
  }

  /** One pass of SNL's loop body: run the next stage and add its counts to the running totals. */
  method SnlStep(p: Preprocessor, parent: string, listings: string -> seq<Entry>,
                 read: string -> Result<Frame, Exception>, pickleSize: map<string, Value> -> nat,
                 i: nat, disk: Disk, ghost trace: seq<Disk>, ghost stages: seq<Result<(nat, nat), Exception>>,
                 processed: nat, skipped: nat)
    returns (next: Disk, stage: Result<(nat, nat), Exception>,
             ghost trace': seq<Disk>, ghost stages': seq<Result<(nat, nat), Exception>>,
             processed': nat, skipped': nat)
    requires Base.Valid(p)
    requires forall dir, e :: e in listings(dir) ==> '/' !in e.name
    requires SnlTrace(p, parent, listings, read, pickleSize, trace, stages)
    requires i == |stages| < |SnlCathodes| && trace[i] == disk
    requires processed == SumProcessed(stages) && skipped == SumSkipped(stages)
    ensures SnlTrace(p, parent, listings, read, pickleSize, trace', stages')
    ensures trace' == trace + [next] && stages' == stages + [stage]
    ensures |stages'| == i + 1 && trace'[0] == trace[0] && trace'[i + 1] == next && stages'[i] == stage
    ensures forall j :: 0 <= j < i ==> stages'[j] == stages[j]
    ensures processed' == SumProcessed(stages') && skipped' == SumSkipped(stages')
  {
    next, stage := SnlRunStage(p, disk, parent, i, listings, read, pickleSize);
    SnlTraceExtend(p, parent, listings, read, pickleSize, trace, stages, next, stage);
    SumsExtend(stages, stage);
    trace', stages' := trace + [next], stages + [stage];
    processed', skipped' := processed, skipped;
    if stage.Ok? {
      processed', skipped' := processed + stage.value.0, skipped + stage.value.1;
    }
  }

  /**
    `SNLPreprocessor.process(parentdir)`: for LFP, NCA and NMC in that order, discover
    the cells of `<parentdir><cathode>/` and run the driver; the totals are the sums of
    the stages' counts, and the first stage that raises ends the run with its exception.
    `trace` holds the file system before each stage and after the last, `stages` each
    stage's outcome.
  */
  method SnlProcess(p: Preprocessor, disk: Disk, parentDir: Option<string>, listings: string -> seq<Entry>,
                    read: string -> Result<Frame, Exception>, pickleSize: map<string, Value> -> nat)
    returns (disk': Disk, r: Result<(nat, nat), Exception>,
             ghost trace: seq<Disk>, ghost stages: seq<Result<(nat, nat), Exception>>)
    requires Base.Valid(p)
    requires forall dir, e :: e in listings(dir) ==> '/' !in e.name
    ensures SnlTrace(p, SnlParentDir(parentDir), listings, read, pickleSize, trace, stages)
    ensures 1 <= |stages| && trace[0] == disk && trace[|stages|] == disk'
    ensures forall i :: 0 <= i < |stages| - 1 ==> stages[i].Ok?
    ensures r.Err? <==> stages[|stages| - 1].Err?
    ensures r.Err? ==> r == stages[|stages| - 1]
    ensures r.Ok? ==> |stages| == 3 && r.value == (SumProcessed(stages), SumSkipped(stages))
  {
    var parent := SnlParentDir(parentDir);
    var processed: nat, skipped: nat := 0, 0;
    disk' := disk;
    trace, stages := [disk], [];
    for i := 0 to 3
      invariant SnlTrace(p, parent, listings, read, pickleSize, trace, stages)
      invariant |stages| == i
      invariant trace[0] == disk
      invariant trace[i] == disk'
      invariant forall j :: 0 <= j < i ==> stages[j].Ok?
      invariant processed == SumProcessed(stages) && skipped == SumSkipped(stages)
    {
      var stage;
      disk', stage, trace, stages, processed, skipped :=
        SnlStep(p, parent, listings, read, pickleSize, i, disk', trace, stages, processed, skipped);
      if stage.Err? {
        return disk', stage, trace, stages;
      }
    }
    r := Ok((processed, skipped));
  }
}

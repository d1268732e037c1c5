/**
  The stand-alone Oxford adapter of `preprocess_OX.py`: its own copy of the driver loop
  over the cells of the '*timeseries*' files, a module-level extraction that reads the
  two columns of `<cell>.csv` as they are (no column is dropped), and a fixed record.
*/
module Oxford {
  import opened Wrappers
  import opened Text
  import opened Table
  import opened Values
  import opened FileSystem
  import opened BatteryData
  import opened Base

  const Name := "oxford"
  const DefaultOutputDir := "data/preprocessed/oxford/"
  const DefaultParentDir := "data/raw/oxford/"
  const TimeColumn := "Test_Time (s)"
  const TempColumn := "Cell_Temperature (C)"

  /**
    `OXPreprocessor(name='oxford', output_dir='data/preprocessed/oxford/', silent=True)`:
    the arguments go to the base constructor, so a given non-empty `output_dir` is kept
    and `None` or an empty one falls back to the processed-data root followed by the name.
  */
  function NewOxford(processedRoot: string, name: string := Name,
                     outputDir: Option<string> := Some(DefaultOutputDir), silent: bool := true): (p: Preprocessor)
    ensures Base.Valid(p) && p.name == name && p.silent == silent
    ensures outputDir.Some? && outputDir.value != [] ==> p.outputDir == outputDir.value
    ensures outputDir.None? || outputDir.value == [] ==> p.outputDir == processedRoot + name + "/"
  {
    NewPreprocessor(processedRoot, name, outputDir, silent)
  }

  /** Built with no arguments, the adapter is silent, named 'oxford' and writes to the Oxford folder. */
  lemma NewOxfordDefaults(processedRoot: string)
    ensures NewOxford(processedRoot) == NewOxford(processedRoot, "oxford", Some("data/preprocessed/oxford/"), true)
    ensures NewOxford(processedRoot).outputDir == "data/preprocessed/oxford/"
    ensures NewOxford(processedRoot).name == "oxford" && NewOxford(processedRoot).silent
  {
  }

  /**
    The module-level `get_timeseries_data(inputdir, cell)` on the frame read from
    `<cell>.csv`: one channel made of the two columns, `KeyError` when one is missing.
  */
  function Extract(frame: Result<Frame, Exception>): (r: Result<Value, Exception>)
    ensures r.Ok? <==> frame.Ok? && Has(frame.value, TimeColumn) && Has(frame.value, TempColumn)
    ensures frame.Ok? && !Has(frame.value, TimeColumn) ==> r == Err(KeyError(TimeColumn))
    ensures frame.Ok? && Has(frame.value, TimeColumn) && !Has(frame.value, TempColumn) ==> r == Err(KeyError(TempColumn))
    ensures r.Ok? ==> r.value.VList? && |r.value.items| == 1 && r.value.items[0].VTs?
  {
    if frame.Err? then Err(frame.error)
    else
      match Get(frame.value, TimeColumn)
      case Err(e) => Err(e)
      case Ok(time) =>
        match Get(frame.value, TempColumn)
        case Err(e) => Err(e)
        case Ok(temp) => Ok(VList([VTs(Timeseries(VSeries(time), VSeries(temp), map[]))]))
  }

  /**
    Unlike the archive adapters, the Oxford extraction keeps missing values: its channel
    holds the frame's own time and temperature columns, whatever they contain.
  */
  lemma ExtractKeepsColumns(f: Frame)
    requires Extract(Ok(f)).Ok?
    ensures exists c :: (c in f.columns && c.name == TimeColumn &&
                         Extract(Ok(f)).value.items[0].ts.time == VSeries(c.cells))
    ensures exists c :: (c in f.columns && c.name == TempColumn &&
                         Extract(Ok(f)).value.items[0].ts.temperature == VSeries(c.cells))
  {
  }

  /** The arguments of the module-level `get_cell_info`. */
  function CellParams(cell: string, series: Value): Params {
    Params(cell, VStr(Name), series, VBool(true), VNone, VStr("LCO"), VStr("graphite"), VStr("LCO"),
           VReal(0.72), VStr("pouch"))
  }

  /** The module-level `get_cell_info(cell, timeseries_data)`. */
  function CellInfo(cell: string, series: Value): (r: Result<Battery, Exception>)
    ensures r.Ok? <==> !series.VSeries?
  {
    InitKwargsOk(CellParams(cell, series));
    Init(Kwargs(CellParams(cell, series)))
  }

  /**
    The record of an Oxford cell: healthy LCO pouch cells of 0.72 Ah with a graphite
    anode, the battery type a plain string, no state of charge.
  */
  lemma CellInfoRecord(cell: string, series: Value)
    requires !series.VSeries?
    ensures var attrs := CellInfo(cell, series).value.attrs;
      && CellIdKey in attrs && OrgKey in attrs && HealthyKey in attrs && SocKey in attrs && TypeKey in attrs
      && AnodeKey in attrs && CathodeKey in attrs && CapacityKey in attrs && FormKey in attrs
      && attrs[CellIdKey] == VStr(cell)
      && attrs[OrgKey] == VStr("oxford")
      && attrs[HealthyKey] == VBool(true)
      && attrs[TypeKey] == VStr("LCO") && attrs[CathodeKey] == VStr("LCO")
      && attrs[AnodeKey] == VStr("graphite")
      && attrs[CapacityKey] == VReal(0.72)
      && attrs[FormKey] == VStr("pouch")
      && attrs[SocKey] == VNone
      && (SeriesKey in attrs <==> series != VNone)
      && Named <= attrs.Keys
  {
    InitKwargsNamed(CellParams(cell, series));
    InitKwargsRest(CellParams(cell, series));
  }

  /** The driver hooks of the loop in `process`, reading `<inputdir>/<cell>.csv` through `read`. */
  function AdapterHooks(inputDir: string, read: string -> Result<Frame, Exception>,
                        pickleSize: map<string, Value> -> nat): Hooks {
    Hooks(
      cell => Extract(read(Join(inputDir, cell + ".csv"))),
      (cell, series) => CellInfo(cell, series),
      pickleSize)
  }

  /** Every record the adapter builds carries its cell as `cell_id`. */
  lemma AdapterKeepsId(inputDir: string, read: string -> Result<Frame, Exception>,
                       pickleSize: map<string, Value> -> nat)
    ensures InfoKeepsId(AdapterHooks(inputDir, read, pickleSize))
  {
    var h := AdapterHooks(inputDir, read, pickleSize);
    forall c, v | h.info(c, v).Ok?
      ensures CellIdKey in h.info(c, v).value.attrs && h.info(c, v).value.attrs[CellIdKey] == VStr(c)
    {
      assert h.info(c, v) == CellInfo(c, v);
      InitKwargsNamed(CellParams(c, v));
    }
  }

  /**
    `OXPreprocessor.process(parentdir='data/raw/oxford/')`, `listing` being what the
    glob sees in `parentdir`: the cells are the first tokens of the stems of the '*timeseries*' files, and its loop
    is the driver's, step for step (skip a stored cell, skip a cell whose extraction
    raises, otherwise build, dump and count).
  */
  method Process(p: Preprocessor, disk: Disk, listing: seq<Entry>,
                 read: string -> Result<Frame, Exception>, pickleSize: map<string, Value> -> nat,
                 parentDir: string := DefaultParentDir)
    returns (disk': Disk, r: Result<(nat, nat), Exception>)
    requires Base.Valid(p)
    requires forall e :: e in listing ==> '/' !in e.name
    ensures var found := DiscoverCells(listing, GlobTimeseries);
      found.Err? ==> disk' == disk && r == Err(found.error)
    ensures var found := DiscoverCells(listing, GlobTimeseries);
      found.Ok? ==> Run(p, disk, found.value, AdapterHooks(parentDir, read, pickleSize), disk', r)
  {
    AdapterKeepsId(parentDir, read, pickleSize);
    disk', r := HealthyZipProcess(p, disk, listing, GlobTimeseries, AdapterHooks(parentDir, read, pickleSize));
  }
}

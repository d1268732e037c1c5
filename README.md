# Thermal-runaway preprocessing pipeline, modelled in Dafny

This project models the preprocessing side of a battery thermal-runaway study. That side has six parts:

- **Record model.** `TimeseriesData` is one sensor channel. `BatteryData` is one cell with its metadata. Each has a `to_dict` serialiser and a `load` rebuilder.
- **Batch driver.** It walks a set of cell ids and skips a cell whose `.pkl` output is already there and non-empty. It also skips a cell whose extraction raises. Every other cell gets a record, the record is dumped, and the cell is counted.
- **Per-source adapters.**
  - The Oak Ridge adapter picks channel columns by cell id and column names. It also reads state of charge, capacity, cathode and battery type off the id.
  - The healthy-archive adapters cover CALCE, HNEI, Michigan, Oxford, SNL and UL-Purdue, each with its own capacity, form-factor and cathode table.
  - The stand-alone Oxford adapter has its own copy of the driver loop.
- **Generic organisation pipeline.**
  - A column filter and an extension dispatch.
  - A loop that writes one `.pkl` per usable file.
  - Per-file information for Oak Ridge.
- **Training-data loader.** It cuts fixed-size sliding windows out of clean CSV files and labels each window by its directory.
- **Two pieces of bookkeeping.**
  - The parameter routing of the Keras classifier wrapper.
  - The top-level `preprocess` loop over the supported datasets.

There is one Dafny module per source file. Shared modules model the Python and library operations the code relies on:

| module | models |
|---|---|
| `Wrappers` | `Option`, `Result` and the exception kinds |
| `Text` | `in` on strings, `lower`/`upper`, `split`, `os.path.splitext`/`basename`/`join`, and path resolution |
| `DigitPattern` | leftmost `re.search` for `(\d+)` followed by fixed character classes |
| `Table` | a data frame as named columns of cells |
| `Values` | the Python values the records hold |
| `FileSystem` | a map from resolved path to file size and content |

Reading files, pickling and listing directories are parameters:

- A reader is a function from path to `Result<Frame, Exception>`.
- Pickle is the identity on dictionaries, plus a byte count `pickleSize`.
- A directory listing is a sequence of entries.

The file system is a value threaded through the loops.

### Where the model follows the code rather than the description

- **`_process_cells` does not exist.** It is called by the Oak Ridge and archive adapters but is defined nowhere in `base.py`. The model gives it the loop of `HealthyZipProcessor.process` (`src/preprocessing/base.py:74-104`).
- **SNL capacity tests NMC before NCA, and "20-80" before "15C".**
- **SNL's `parentdir` default.** It is replaced only when it `is None`, so an empty string is kept. The other archive adapters test for falsiness.
- **Michigan inherits the base getters.** Those getters have no `return`, so its capacity and form factor are `None`.
- **The two output paths.** `check_processed_file` uses `os.path.join` and `dump_single_file` uses an f-string with an extra '/'. The model resolves both by collapsing runs of '/' and proves they name the same file.
- **`Organization.__init__` lists its `input_dir` argument, not the defaulted field.** With no argument, Python lists the current directory, and joining `None` with a name raises `TypeError`. The model keeps both behaviours.
- **`BatteryData.dump` truncates before serialising.** It opens the file before `to_dict` runs, so a failing `to_dict` leaves an empty file. The next run then reprocesses that cell.
- **`cycle_data` and "protocol" keys break the round trip.** A record with such a key does not come back from `to_dict`/`load`: its elements become dictionaries, which have no `to_dict`.

## Model

| member | source | states |
|---|---|---|
| Base.NewPreprocessor | src/preprocessing/base.py:21-27 | a missing or empty `output_dir` falls back to the processed root + name + "/", otherwise the given directory is kept; name and `silent` are stored |
| Base.CheckProcessedFile | src/preprocessing/base.py:41-51 | true exactly when `<output_dir>/<cell>.pkl` exists with size > 0; an absent or empty file gives false; the disk is an input only |
| Base.CheckSeesDump | src/preprocessing/base.py:41-55 | the joined path of the skip test and the f-string path of the dump resolve to the same file |
| Base.KeyInjective | src/preprocessing/base.py:54-55 | distinct cells (tokens free of '/') are dumped to distinct files |
| Base.DumpSingleFile | src/preprocessing/base.py:54-55 | the disk changes only at `<output_dir>/<cell_id>.pkl`, which holds the pickled `to_dict` result, or an empty file when `to_dict` raised |
| Base.DumpThenCheck | src/preprocessing/base.py:41-55 | after dumping a cell, the skip test holds for it exactly when `to_dict` succeeded and pickle wrote at least one byte |
| Base.DiscoverCells | src/preprocessing/base.py:67-71 | the cells are exactly the first tokens of the stems of the regular files matching the glob; `IndexError` exactly when such a stem is blank |
| Base.DiscoveredCellsAreTokens | src/preprocessing/base.py:67-71 | every discovered cell is non-empty, has no whitespace and no '/' |
| Base.CheckUnaffected | src/preprocessing/base.py:41-51 | a cell whose file the driver did not write answers the skip test as before, and its file is unchanged |
| Base.ProcessCell | src/preprocessing/base.py:78-97 | one loop body: skipped (disk unchanged) exactly when the output is there or extraction raises; otherwise the cell's file is written; what `get_cell_info` or the dump raises is returned |
| Base.VisitSkipped | src/preprocessing/base.py:78-91 | a skipped cell adds one to the skip count and writes nothing |
| Base.VisitProcessed | src/preprocessing/base.py:94-97 | a processed cell adds one to the processed count and writes exactly its own file |
| Base.VisitRaising | src/preprocessing/base.py:95-96 | a cell whose record or dump raises makes the run unclean; the disk holds the writes of processed cells only |
| Base.Visit | src/preprocessing/base.py:76-97 | a loop body's outcome moves the loop invariant forward, or establishes the promises of an aborted run |
| Base.VisitCell | src/preprocessing/base.py:76-97 | the loop body as a method: counters and disk keep the loop invariant, or the exception it returns belongs to a processed cell |
| Base.ProcessCells | src/preprocessing/base.py:74-104 | completes exactly when no processed cell's `get_cell_info`/`to_dict` raises; processed = number of cells not done whose extraction succeeds; processed + skipped = number of cells; exactly those files are written and nothing else changes; otherwise the error comes from a processed cell and only processed cells' files were written |
| Base.HealthyZipProcess | src/preprocessing/base.py:65-104 | discovery failure changes nothing and returns `IndexError`; otherwise the driver's promises hold over the discovered cells |
| Base.HealthyZipInputDir | src/preprocessing/base.py:66 | `parentdir` when given and non-empty, else `data/raw/<name>/` |
| Base.SkippedUntouched | src/preprocessing/base.py:78-81 | a cell skipped because of an existing non-empty output keeps that file unchanged, whether the run completes or not |
| Base.FailedExtractionOnlySkips | src/preprocessing/base.py:85-91 | a cell whose extraction raises changes neither the processed set nor whether the run completes |
| Base.SecondRunSkipsAll | src/preprocessing/base.py:78-97 | after a complete run in which pickle always writes bytes, a second run processes no cell and completes |
| BatteryData.TimeseriesFromKwargs | src/preprocessing/battery_data.py:8-18 | `time_in_s` is required (`TypeError`); `temperature_in_C` defaults to `None`; other keywords go to `additional_data`, which never holds the two named keys |
| BatteryData.TimeseriesLoad | src/preprocessing/battery_data.py:33-35 | `TimeseriesData(**obj)`: succeeds exactly when `time_in_s` is a key; time and temperature (default `None`) are the dictionary's, every other key lands in `additional_data` with its value |
| BatteryData.NewTimeseries | src/preprocessing/battery_data.py:8-18 | the constructor's copy loop builds the same channel as `TimeseriesFromKwargs` |
| BatteryData.TimeseriesToDict | src/preprocessing/battery_data.py:20-25 | the keys are exactly the two named ones plus the extra keys; named values and extra values are those of the channel |
| BatteryData.TimeseriesRoundTrip | src/preprocessing/battery_data.py:20-35 | `load(t.to_dict())` gives `t` back |
| BatteryData.TimeseriesDictRoundTrip | src/preprocessing/battery_data.py:8-35 | `to_dict` of a loaded channel gives its keywords back, with `temperature_in_C: None` added when omitted |
| BatteryData.Init | src/preprocessing/battery_data.py:40-77 | succeeds exactly when `cell_id` is given and `timeseries_data` is not a bare Series; named fields take their argument or default; every extra keyword becomes an attribute; `timeseries_data` exists exactly when given non-`None` or `time_in_s` is an extra |
| BatteryData.New | src/preprocessing/battery_data.py:40-77 | the constructor's `setattr` loop builds the same attributes as `Init` |
| BatteryData.InitKwargsNamed | src/preprocessing/battery_data.py:55-74 | a record built from the adapters' keywords has each named attribute equal to the keyword of its name |
| BatteryData.InitKwargsRest | src/preprocessing/battery_data.py:58-77 | such a record has `electrolyte_material` and `description` `None`, channels exactly when given, and no attribute outside the parameters |
| BatteryData.EachToDict | src/preprocessing/battery_data.py:83-84 | the element-wise `to_dict` succeeds exactly when every element has a `to_dict` (a channel or a pandas Series), and gives, in order, each channel's dictionary and each Series' row dictionary; otherwise `AttributeError` |
| BatteryData.ExpandEach | src/preprocessing/battery_data.py:83-84 | the list comprehension over a list or tuple is `EachToDict` of its elements; over a string, Series, dict or row dict it gives `[]` exactly when that value is empty (else `AttributeError`); any other value is not iterable (`TypeError`) |
| BatteryData.Serialize | src/preprocessing/battery_data.py:79-89 | succeeds exactly when every kept value serialises; keys are exactly those not starting with '_' whose value is not callable; under `cycle_data`/"protocol" keys a list or tuple becomes the list of its elements' `to_dict`, an empty iterable `[]`; elsewhere channels become dictionaries, Series row dictionaries, and other values are copied |
| BatteryData.ToDict | src/preprocessing/battery_data.py:79-89 | the `result`-building loop returns `Serialize` of the attributes |
| BatteryData.Dump | src/preprocessing/battery_data.py:94-96 | writes the serialised dictionary at `path`, or an empty file when `to_dict` raises |
| BatteryData.Load | src/preprocessing/battery_data.py:106-110 | `BatteryData(**obj)`: succeeds exactly when `cell_id` is a key and `timeseries_data` is not a bare Series; every key other than `timeseries_data` becomes an attribute with its value; a non-`None` `timeseries_data` is kept as given |
| BatteryData.LoadFile | src/preprocessing/battery_data.py:106-110 | a missing file is an error; a pickled dictionary is rebuilt by `BatteryData(**obj)` |
| BatteryData.SettledIsFixed | src/preprocessing/battery_data.py:79-89 | a dictionary of plain kept values serialises to itself |
| BatteryData.SerializeSettles | src/preprocessing/battery_data.py:79-89 | without `cycle_data`/"protocol" keys, `to_dict` succeeds and its result is such a dictionary |
| BatteryData.RebuildExact | src/preprocessing/battery_data.py:106-110 | a dictionary holding all named fields, with consistent channels, is rebuilt by `load` into a record with exactly those attributes |
| BatteryData.SerializeRebuildSerialize | src/preprocessing/battery_data.py:79-110 | without `cycle_data`/"protocol" keys and callable named fields, serialise, rebuild, serialise gives the first serialisation; cell id, organisation, health and metadata are preserved |
| BatteryData.SerializeCycleData | src/preprocessing/battery_data.py:83-84 | a one-channel `cycle_data` list serialises to the list of that channel's dictionary |
| BatteryData.CycleDataBreaksRebuild | src/preprocessing/battery_data.py:83-84 | with `cycle_data`, the rebuilt record's `to_dict` raises: not a fixed point |
| BatteryData.DumpLoadRoundTrip | src/preprocessing/battery_data.py:94-110 | after a successful `dump`, `load` of the same path rebuilds the serialised dictionary |
| Ornl.Plan | src/preprocessing/preprocess_ORNL.py:22-71 | the column pairs chosen by the rules in order; it fails only with `StopIteration` of the fallback, and only for a non-SNL id without a 'TC1 (°C)' column; a success names at least one pair |
| Ornl.FirstWhere | src/preprocessing/preprocess_ORNL.py:66-67 | the first index whose column passes the test, or none exactly when no column does |
| Ornl.Fallback | src/preprocessing/preprocess_ORNL.py:64-71 | fails with `StopIteration` exactly when no time-like or no temperature-like column exists; otherwise one pair of such columns |
| Ornl.Channels | src/preprocessing/preprocess_ORNL.py:106-113 | one channel per pair, in order, exactly when every named column exists; otherwise the first missing column's `KeyError` |
| Ornl.Extract | src/preprocessing/preprocess_ORNL.py:22-71 | succeeds exactly when the read succeeds, a rule applies and its columns exist; one channel per chosen pair |
| Ornl.ExtractChannels | src/preprocessing/preprocess_ORNL.py:22-71 | each extracted channel is built from the chosen pair at its position |
| Ornl.MaxCNotFn2 | src/preprocessing/preprocess_ORNL.py:133-134 | the `MAX [C]` and `Function 2 [C]` tables share no file |
| Ornl.MaxCNotFn3 | src/preprocessing/preprocess_ORNL.py:133-135 | the `MAX [C]` and `Function 3 [C]` tables share no file |
| Ornl.Fn2NotFn3 | src/preprocessing/preprocess_ORNL.py:134-135 | the `Function 2 [C]` and `Function 3 [C]` tables share no file |
| Ornl.SnlRuleFirst | src/preprocessing/preprocess_ORNL.py:30-31 | an id starting "SNL_" gets six channels sharing 'Test Time [s]' against TC1..TC6 in order, whatever the columns |
| Ornl.TcnRuleSecond | src/preprocessing/preprocess_ORNL.py:33-34 | otherwise a 'TC1 (°C)' column gives four channels sharing 'Time (sec) ' against TC1..TC4 |
| Ornl.TabledMaxC | src/preprocessing/preprocess_ORNL.py:36-37 | a file in the first table gives the one channel `reltime`/`MAX [C]` |
| Ornl.TabledFn2 | src/preprocessing/preprocess_ORNL.py:39-40 | a file in the second table gives `reltime`/`Function 2 [C]` |
| Ornl.TabledFn3 | src/preprocessing/preprocess_ORNL.py:42-43 | a file in the third table gives `reltime`/`Function 3 [C]` |
| Ornl.ThreeChannelCell | src/preprocessing/preprocess_ORNL.py:48-53 | 'LCO_4Ah_30SOC_cell1_MAX' gets three channels, the third timed by 'reltime.1' |
| Ornl.ThreeChannelFileUntabled | src/preprocessing/preprocess_ORNL.py:133-135 | that cell's workbook is in none of the tables |
| Ornl.FallbackRule | src/preprocessing/preprocess_ORNL.py:64-71 | an unnamed cell fails exactly when a column kind is missing; otherwise it pairs the first time-like column with the first temperature-like column |
| Ornl.Organization | src/preprocessing/preprocess_ORNL.py:74 | 'snl' exactly when "SNL_" occurs anywhere in the id, else 'oakridge' |
| Ornl.StateOfCharge | src/preprocessing/preprocess_ORNL.py:75 | `None` exactly when no digit run precedes "SOC"/"S0C"; otherwise the integer value of the leftmost such run, taken whole |
| Ornl.Capacity | src/preprocessing/preprocess_ORNL.py:76 | `None` exactly when neither "<N>Ah" nor "<N>mAh" occurs; the value of the leftmost "<N>Ah" run when there is one, else that of the leftmost "<N>mAh" run divided by 1000 |
| Ornl.Cathode | src/preprocessing/preprocess_ORNL.py:77 | the first of `CATHODES` in list order that occurs in the id, `None` exactly when none occurs |
| Ornl.NmcLcoShadowed | src/preprocessing/preprocess_ORNL.py:77 | the cathode is never 'NMC-LCO': an id containing it reports 'LCO' |
| Ornl.BatteryType | src/preprocessing/preprocess_ORNL.py:78 | a one-element tuple (the trailing comma): ('NFP',) when 'NFP' occurs, else ('LCO',) when 'LCO' occurs, else (None,) |
| Ornl.CellInfo | src/preprocessing/preprocess_ORNL.py:73-91 | the record exists exactly when the channels are not a bare Series |
| Ornl.CellInfoRecord | src/preprocessing/preprocess_ORNL.py:73-91 | the record carries the id, the derived organisation, soc, capacity, cathode and one-element battery-type tuple derived above, `is_healthy` false, graphite, 'cylindrical_18650', and channels when given |
| Ornl.AdapterKeepsId | src/preprocessing/preprocess_ORNL.py:80-82 | every record the adapter builds has its cell as `cell_id` |
| Ornl.Process | src/preprocessing/preprocess_ORNL.py:19-20 | the driver's promises hold over the stems of the workbooks; `parentdir` defaults to 'data/raw/oakridge/excel/' |
| HealthyArchive.Capacity | src/preprocessing/preprocess_HealthyArchive.py:55-150 | `get_capacity` per source: `None` exactly for Michigan, whose getter returns nothing; otherwise 3 or a positive amount of at most 3.4 Ah |
| HealthyArchive.FormFactor | src/preprocessing/preprocess_HealthyArchive.py:56-153 | `get_form_factor` per source: `None` exactly for Michigan; otherwise 'prismatic', 'cylindrical_18650' or 'pouch' |
| HealthyArchive.CathodeOf | src/preprocessing/preprocess_HealthyArchive.py:121-122 | 'LCO' for every source but SNL; for SNL the third '_' field, a string without '_' that occurs in the id, or `IndexError` |
| HealthyArchive.SnlCathodeFails | src/preprocessing/preprocess_HealthyArchive.py:121-122 | SNL's cathode lookup raises exactly when the id has fewer than two '_'; otherwise it is a field without '_' |
| HealthyArchive.CapacityBounds | src/preprocessing/preprocess_HealthyArchive.py:55-150 | every capacity is `None` (only Michigan) or positive and at most 3.4 Ah |
| HealthyArchive.SourceTables | src/preprocessing/preprocess_HealthyArchive.py:63-153 | CALCE 1.1 exactly when "CS" is in the upper-cased id (else 1.35) and prismatic; HNEI 2.8 and 18650; Oxford 0.72 and pouch; UL-Purdue 3.4 × 0.94 exactly when "2.5-96.5" occurs (else 3.4); Michigan `None` |
| HealthyArchive.SnlCapacityPrecedence | src/preprocessing/preprocess_HealthyArchive.py:124-135 | NMC: 3 × 0.9 with "15C", else 3; else NCA: 1.92 with "20-80", else 3.2 × 0.9 with "15C", else 3.2; else 1.1 |
| HealthyArchive.CalceCaseInsensitive | src/preprocessing/preprocess_HealthyArchive.py:63-64 | "cs" in any case gives CALCE's 1.1 Ah |
| HealthyArchive.Extract | src/preprocessing/preprocess_HealthyArchive.py:24-37 | drops columns with missing cells; `AssertionError` when nothing is left; otherwise one channel exactly when both columns survive |
| HealthyArchive.ExtractNeedsCompleteColumns | src/preprocessing/preprocess_HealthyArchive.py:30-37 | a successful extraction had rows and complete time and temperature columns, and its channel holds them |
| HealthyArchive.CellInfo | src/preprocessing/preprocess_HealthyArchive.py:39-51 | the record fails exactly when the cathode lookup raises or the channels are a bare Series |
| HealthyArchive.CellInfoRecord | src/preprocessing/preprocess_HealthyArchive.py:39-56 | healthy, organisation = adapter name, graphite, the source's cathode ('LCO' except SNL), capacity and form factor, no soc or battery type |
| HealthyArchive.AdapterKeepsId | src/preprocessing/preprocess_HealthyArchive.py:41-42 | every record an archive adapter builds has its cell as `cell_id` |
| HealthyArchive.InputDir | src/preprocessing/preprocess_HealthyArchive.py:16 | `parentdir` when non-empty, else the archive folder of the source |
| HealthyArchive.Process | src/preprocessing/preprocess_HealthyArchive.py:15-22 | the driver's promises hold over the cells of the '*timeseries*' files |
| HealthyArchive.SnlParentDir | src/preprocessing/preprocess_HealthyArchive.py:102 | only a missing `parentdir` is replaced |
| HealthyArchive.SnlRunStage | src/preprocessing/preprocess_HealthyArchive.py:108-115 | one cathode subdirectory: discovery, then the driver over its cells |
| HealthyArchive.SumsExtend | src/preprocessing/preprocess_HealthyArchive.py:115-117 | a completed stage adds its counts to the totals |
| HealthyArchive.SnlStep | src/preprocessing/preprocess_HealthyArchive.py:107-117 | one pass of the loop extends the trace of stages and keeps the totals equal to their sums |
| HealthyArchive.SnlProcess | src/preprocessing/preprocess_HealthyArchive.py:101-119 | LFP, NCA, NMC in order; totals are the sums of the stages' counts; the first stage that raises ends the run with its exception |
| Oxford.NewOxford | src/preprocessing/preprocess_OX.py:14-18 | name and `silent` stored as given; a given non-empty directory is kept; a missing or empty one falls back to the processed root + name + "/" |
| Oxford.NewOxfordDefaults | src/preprocessing/preprocess_OX.py:14-18 | the defaults: name 'oxford', directory 'data/preprocessed/oxford/', silent |
| Oxford.Extract | src/preprocessing/preprocess_OX.py:62-74 | one channel exactly when both columns exist, else the missing one's `KeyError`; no column dropped |
| Oxford.ExtractKeepsColumns | src/preprocessing/preprocess_OX.py:71-74 | the channel holds the frame's own columns, missing values included |
| Oxford.CellInfo | src/preprocessing/preprocess_OX.py:77-89 | the record exists exactly when the channels are not a bare Series |
| Oxford.CellInfoRecord | src/preprocessing/preprocess_OX.py:77-89 | 'oxford', healthy, 'LCO' type and cathode, graphite, 0.72 Ah, pouch, no soc |
| Oxford.AdapterKeepsId | src/preprocessing/preprocess_OX.py:79-80 | every record has its cell as `cell_id` |
| Oxford.Process | src/preprocessing/preprocess_OX.py:21-60 | the driver's promises over the '*timeseries*' cells: processed + skipped = cells, only processed cells written |
| Preprocess.FilterKeepsTwo | src/preprocessing/preprocess.py:19-21 | at least two columns survive exactly when two positions pass the filter |
| Preprocess.FilterKeepsOne | src/preprocessing/preprocess.py:19 | a column survives exactly when one passes |
| Preprocess.Standardize | src/preprocessing/preprocess.py:15-21 | `None` exactly when at most one column contains 'Time', 'Â°C' or '[C]'; otherwise exactly those columns in original order, rows unchanged |
| Preprocess.ReaderFor | src/preprocessing/preprocess.py:23-34 | no reader exactly when the `splitext` suffix is none of the five extensions |
| Preprocess.ReaderChoice | src/preprocessing/preprocess.py:26-31 | CSV for '.csv'/'.txt', Excel for '.xls'/'.xlsx', JSON for '.json', each in both directions |
| Preprocess.ReaderCaseSensitive | src/preprocessing/preprocess.py:26-31 | upper-case extensions get no reader |
| Preprocess.Load | src/preprocessing/preprocess.py:23-39 | `None` without a reader or when the read raises; otherwise the standardised frame |
| Preprocess.OutputPath | src/preprocessing/preprocess.py:50-51 | the output path starts with the output directory and ends with `<stem>.pkl` |
| Preprocess.OutputPathUnder | src/preprocessing/preprocess.py:50-51 | the output is `<stem>.pkl` directly inside the output directory |
| Preprocess.DistinctStemsDistinctOutputs | src/preprocessing/preprocess.py:50-51 | different stems give different output files |
| Preprocess.Saves | src/preprocessing/preprocess.py:47-51 | one save per input file whose load is not `None`, at its output path, and no other |
| Preprocess.SavesCount | src/preprocessing/preprocess.py:47-51 | the number of saves is the number of input positions whose load succeeds |
| Preprocess.WriteAll | src/preprocessing/preprocess.py:41-51 | the files are the old ones plus the saved paths; any other file is unchanged |
| Preprocess.WriteAllLast | src/preprocessing/preprocess.py:47-51 | a saved path holds the last frame saved there |
| Preprocess.ProcessOrgData | src/preprocessing/preprocess.py:44-51 | the loop leaves the disk with exactly the saves of the loadable files written in order |
| Organizations.FileStems | src/preprocessing/organizations.py:12 | the extension-stripped names of the regular files, in listing order, and nothing else |
| Organizations.NewOrganization | src/preprocessing/organizations.py:7-12 | directory defaults (root + name + "/"), `files` from listing the argument, a listing error propagates, `TypeError` when the argument is missing and the listing non-empty |
| Organizations.Soc | src/preprocessing/organizations.py:28 | `None` exactly when no digit run precedes "SOC"/"0OC"; otherwise the integer value of the leftmost such run |
| Organizations.Info | src/preprocessing/organizations.py:27-30 | soc as above; battery type `None` exactly when neither 'NFP' nor 'LCO' occurs, 'NFP' when it occurs, else 'LCO' when that occurs; a plain string, not a tuple |
| Organizations.SocNeedsO | src/preprocessing/organizations.py:28 | a match has 'S' or '0' then "OC" after the digits |
| Organizations.S0cOnlyInCellIds | src/preprocessing/organizations.py:28 | "25S0C" has no soc here but soc 25 as an Oak Ridge cell id |
| Organizations.ProcessFileInfo | src/preprocessing/organizations.py:21-31 | exactly one entry per file name, each that file's `Info` |
| Data.Label | src/data.py:14 | 0 exactly when the lower-cased directory contains "healthy", else 1 |
| Data.Windows | src/data.py:21-22 | none when rows < W; otherwise (n − W) div S + 1 windows, window k = rows[kS..kS+W), and no further start fits |
| Data.WindowsHaveSize | src/data.py:21-22 | every window has W rows |
| Data.FileWindows | src/data.py:18-23 | no windows from a file with a missing cell or fewer than W rows; otherwise the window count above |
| Data.DirWindows | src/data.py:15-23 | non-CSV names contribute nothing; an error comes from reading some CSV file |
| Data.DirWindowSize | src/data.py:15-23 | every window of a directory has W rows |
| Data.Dataset | src/data.py:11-27 | X and y have equal length; labels are 0 or 1; all-healthy directories give all 0, none-healthy all 1 |
| Data.DatasetSnoc | src/data.py:13-23 | one more directory of the walk appends its windows to X and its label, once per window, to y; an error of either part stops the walk |
| Data.DatasetOrigin | src/data.py:13-23 | window k of the dataset comes from some directory d of the walk, which loaded, holds that window, and gives its label |
| Data.DatasetLabels | src/data.py:14-23 | every window of X is one of some directory's windows, and its y entry is that directory's label |
| Data.DatasetWindowSize | src/data.py:11-27 | every window of the dataset has W rows |
| Data.SlideWindows | src/data.py:21-23 | the strided loop produces `Windows` |
| Data.LoadDir | src/data.py:15-23 | the file loop produces `DirWindows` |
| Data.LoadAllData | src/data.py:11-27 | the walk loop produces `Dataset` |
| Keras.KerasClassifier.constructor | src/classifiers/keras.py:6-12 | the four wrapper values stored (defaults 32, 10, 0), `model_` `None`, `_build_params` empty |
| Keras.KerasClassifier.SetAttr | src/classifiers/keras.py:20 | sets one wrapper attribute, the others and the builder parameters unchanged |
| Keras.KerasClassifier.GetParams | src/classifiers/keras.py:23-30 | keys are the four wrapper keys plus the builder's; builder entries as stored; wrapper entries are the attributes |
| Keras.KerasClassifier.MoveBuildParams | src/classifiers/keras.py:16-18 | every non-wrapper key moves into `_build_params`, overwriting; the wrapper keys remain; attributes unchanged |
| Keras.KerasClassifier.AssignWrappers | src/classifiers/keras.py:19-20 | each wrapper attribute takes the given value or keeps its own |
| Keras.KerasClassifier.SetParams | src/classifiers/keras.py:14-21 | returns itself; `_build_params` gains the non-wrapper keys; wrapper attributes take given values; `get_params()` afterwards is the previous `get_params()` overlaid with the arguments |
| Keras.SetThenGet | src/classifiers/keras.py:14-30 | routing keys to wrappers and builder, then merging, equals overlaying the arguments |
| Keras.AttrsOverlay | src/classifiers/keras.py:19-30 | assigning `params.get(k, old)` to each wrapper overlays the wrapper dictionary with the arguments |
| Runner.RegistryKey | src/runner.py:7-9 | the dataset name followed by "Preprocessor" |
| Runner.RegistryKeyInjective | src/runner.py:7-10 | different datasets request different adapters |
| Runner.Kept | src/runner.py:5-6 | the unskipped datasets, never more than listed |
| Runner.KeptMembers | src/runner.py:5-6 | a dataset is run exactly when listed and not skipped |
| Runner.KeptNothingSkipped | src/runner.py:4-6 | with the default empty skip list every dataset runs, in list order |
| Runner.KeptPrefix | src/runner.py:5-11 | the datasets run before a stop are a prefix of the full run order |
| Runner.RunAll | src/runner.py:5-12 | adapters are requested in list order for exactly the unskipped datasets; the first that raises stops the loop; a count line per completed run exactly when not silent |
| Runner.Preprocess | src/runner.py:4-12 | the same over `['CALCE', 'HNEI', 'OX', 'ORNL', 'SNL', 'ULPurdue']` |
| Runner.PreprocessDefaults | src/runner.py:4-12 | `preprocess()` with its defaults (`orgs_to_skip=[]`, `silent=False`) requests every dataset in list order and, when it completes, reports one count line per dataset |
| Text.FirstToken | src/preprocessing/base.py:68 | `split()[0]`: the first maximal run of non-whitespace (Python's `str.isspace` set), or none exactly when the string is blank |
| Text.SplitExt | src/preprocessing/preprocess.py:24 | `os.path.splitext`: the parts concatenate to the path; a suffix starts at the last '.' of the last component, has no other '.' or '/', and leaves a stem with a non-'.' character in that component; no suffix only when every '.' of the last component is in its leading run of dots |
| Text.Basename | src/preprocessing/preprocess.py:50 | a '/'-free suffix of the path that is the whole path or follows a '/' |
| Text.SplitCount | src/preprocessing/preprocess_HealthyArchive.py:122 | `split('_')` has one more field than '_' characters |
| Text.SplitFieldsContained | src/preprocessing/preprocess_HealthyArchive.py:122 | every field of `split(sep)` occurs in the string |
| Text.SplitJoin | src/preprocessing/preprocess_HealthyArchive.py:122 | joining the fields with the separator gives the string back |
| Text.FirstContained | src/preprocessing/preprocess_ORNL.py:77-78 | the first candidate in list order occurring in the string, none exactly when none occurs |
| Text.JoinResolvesLikeSlash | src/preprocessing/base.py:42-43 | `os.path.join(dir, name)` resolves like `dir + "/" + name` |
| DigitPattern.Search | src/preprocessing/preprocess_ORNL.py:75 | `re.search` for digits then the tail: none exactly when there is no match; otherwise the leftmost start with the longest digit run |
| Table.DropNaColumns | src/preprocessing/preprocess_HealthyArchive.py:31 | exactly the columns with no missing cell survive; rows unchanged |
| Table.Get | src/preprocessing/preprocess_HealthyArchive.py:35-36 | the named column's cells, or `KeyError` exactly when there is none |
| Table.FilterColumns | src/preprocessing/preprocess.py:19 | exactly the columns passing the test, in order |
| FileSystem.Write | src/preprocessing/battery_data.py:95-96 | the path holds the new file; every other file is unchanged |

## Left out

- Reading Excel, CSV and JSON, pickling, joblib compression and directory listing are not modelled. Readers are function parameters, pickle is the identity on dictionaries with a byte-count parameter, and listings and `os.walk` are given sequences.
- `glob` in `process_org_data` is a given path list. Its order is the order of that list.
- Python's iteration order over sets and dictionaries is not modelled. The driver's loop visits the cells in an arbitrary order, and its promises hold for every order.
- BatteryData.Serialize: which exception `to_dict` raises is collapsed to one kind, because it depends on dictionary order.
- Floating point is not modelled. Capacities are exact `real` products (`3.2 * 0.9`), and the `float32` cast in `load_all_data` is not modelled.
- Data.FileWindows: cells are not typed, so a window is cut from any complete file. In `load_all_data` the `float32` conversion raises `ValueError` on a non-numeric (text) cell, which ends the whole load; the model does not capture that error.
- BatteryData.Dump: the output directory is taken to exist, so opening the file for writing never fails. In Python, `open(path, 'wb')` raises `FileNotFoundError` when the directory is missing, and nothing on the adapters' path creates it (only `process_org_data` calls `os.makedirs`).
- Base.DumpSingleFile: the same assumption; the write at `<output_dir>/<cell>.pkl` always succeeds.
- Base.ProcessCells: the same assumption. "Completes exactly when no processed cell's `get_cell_info`/`to_dict` raises" holds only when the output directory exists; without it, Python's run ends with `FileNotFoundError` at the first processed cell, since the dump is outside the `try`.
- `os.makedirs`, `tqdm`, `logging` and every `print` are not modelled. Runner.RunAll returns the (processed, skipped) pairs it would print, not the printed text.
- The `src.config` roots, `WINDOW_SIZE`, `STRIDE` and the `PREPROCESSORS` registry are not modelled; they are parameters. Running an adapter is the function `run` from registry key to its counts or exception.
- `OakRidge.__init__` reads `main.xlsx` and then discards it; that read is not modelled.
- `_time_substrings` and `_temp_substrings` take no `self` and are never called, so they are not modelled.
- `BasePreprocessor.__call__`, `summary`, `print_description`, `display` and `to_df` only print or build DataFrames, and are not modelled.
- The `display_name` keyword: `BasePreprocessor.__init__` (src/preprocessing/base.py:21-27) takes no such parameter, so as written every adapter constructor that passes it raises `TypeError`. The model instead gives the base constructor a `display_name` parameter that it drops.
- The import `src.data.battery_data` of src/preprocessing/preprocess_HealthyArchive.py:12 names no module here; the model uses `src/preprocessing/battery_data.py` for it.
- DigitPattern.Search: `\d` matches only the ASCII digits '0'..'9'; Python's `\d` also matches other Unicode decimal digits, which `int` converts.
- Text.Lower and Text.Upper: case mapping covers ASCII letters only; Python's `lower`/`upper` map every cased Unicode letter, and some change the length ('ß'.upper() is 'SS'), so CALCE's "CS" test can differ for such ids.
- `scale_X` and `process_data` in `src/data.py` are library numerics, and are not modelled.
- `fit`, `predict` and `predict_proba` of the Keras wrapper are not modelled, nor are `src/classifiers/classical.py`, `src/classifiers/ensemble.py` and `src/plotting.py`. They are model training and plotting.
- Concurrency is not modelled; the code is single-threaded.
- Keras.KerasClassifier.GetParams: `getattr(self, k, None)` in `set_params` always finds the attribute, because `__init__` sets all four. The `None` default is therefore not modelled.

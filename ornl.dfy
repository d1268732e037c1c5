/**
  The Oak Ridge adapter of `preprocess_ORNL.py`: which (time, temperature) column pairs
  of a cell's workbook become channels, and the record built from the cell id.

  The workbook is given as a frame by `read` (the reader itself is not modelled).
  Choosing the channels is a function of the cell id and the column names alone
  (`Plan`); looking the chosen columns up in the frame (`Channels`) is what can then
  raise `KeyError`.
*/
module Ornl {
  import opened Wrappers
  import opened Text
  import opened DigitPattern
  import opened Table
  import opened Values
  import opened FileSystem
  import opened BatteryData
  import opened Base

  // ---------------------------------------------------------------- file tables

  /** Workbooks whose channel is `reltime` against `MAX [C]`. */
  const ReltimeMaxC: seq<string> := [
    "LCO_4000mAh-10SOC_cell2_MAX.xlsx", "NMC_10000mAh-30SOC_cell1_MAX.xlsx", "LCO_4000mAh-40SOC_cell2_MAX.xlsx",
    "NMC_10000mAh-60SOC_cell1_MAX.xlsx", "NMC_10000mAh-10SOC_cell1MAX.xlsx", "NMC_10000mAh-90SOC_cell1_MAX.xlsx",
    "NMC_10000mAh-40SOC_cell1_MAX.xlsx", "LCO_4000mAh-50SOC_cell2_MAX.xlsx", "LCO_4000mAh-0SOC_cell2_MAX.xlsx",
    "NMC_10000mAh-70SOC_cell1_MAX.xlsx", "NMC_10000mAh-50SOC_cell2_MAX.xlsx", "LFP_15000mAh_10SOC_max.xlsx",
    "NMC_10000mAh-20SOC_cell1_MAX.xlsx"]

  /** Workbooks whose channel is `reltime` against `Function 2 [C]`. */
  const ReltimeFn2: seq<string> := [
    "LCO_4000mAh-50SOC_cell1_MAX.xlsx", "NMC_10000mAh-0SOC_cell1_MAX.xlsx", "LFP_15Ah_0SOC_MAX.xlsx",
    "LFP_15Ah_100SOC_MAX.xlsx", "LCO_4Ah_60SOC_cell1_MAX.xlsx", "NMC_10000mAh-50SOC_cell1_MAX.xlsx",
    "LFP_15Ah_100SOC_cell2_MAX.xlsx", "LFP_15Ah_20SOC_cell1_MAX.xlsx", "LCO_4Ah_20SOC_cell2_MAX.xlsx",
    "LFP_15Ah_80SOC__cell2_MAX_2.xlsx", "LCO_4Ah_70SOC_cell1_MAX.xlsx", "LCO_4Ah_20SOC_cell1_MAX.xlsx",
    "LCO_4Ah_60SOC_cell2_MAX.xlsx", "LFP_15Ah_50SOC_cell1_MAX.xlsx", "LCO_4Ah_10SOC_cell1_MAX.xlsx",
    "LCO_4000mAh-40SOC_cell1_MAX.xlsx", "NMC_10000mAh-80SOC_cell1_MAX.xlsx", "LCO_4Ah_100SOC_cell1_MAX.xlsx",
    "NMC_10000mAh-100SOC_cell1_MAX.xlsx", "LFP_15Ah_60SOC_cell1_MAX.xlsx"]

  /** Workbooks whose channel is `reltime` against `Function 3 [C]`. */
  const ReltimeFn3: seq<string> := [
    "LFP_15Ah_40SOC_cell1_MAX.xlsx", "LFP_15Ah_60SOC_cell2_MAX.xlsx", "LFP_15Ah_80SOC__cell1_MAX_2.xlsx",
    "LCO_4Ah_30SOC_cell2_MAX.xlsx", "LFP_15Ah_40SOC_cell2_MAX.xlsx"]

  /** The thermocouple columns of the Sandia workbooks, in channel order. */
  const SnlTemps: seq<string> := [
    "TC1 near positive terminal [C]", "TC2 near negative terminal [C]", "TC3 bottom - bottom [C]",
    "TC4 bottom - top [C]", "TC5 above punch [C]", "TC6 below punch [C]"]

  /** The thermocouple columns of the four-channel workbooks, in channel order. */
  const TcnTemps: seq<string> := ["TC1 (°C)", "TC2 (°C)", "TC3 (°C)", "TC4 (°C)"]

  // ---------------------------------------------------------------- channel choice

  /** A channel to build: (time column, temperature column). */
  type Pair = (string, string)

  /** Every temperature column of `temps` against the one time column `time`. */
  function SharedTime(time: string, temps: seq<string>): (r: seq<Pair>)
    ensures |r| == |temps|
    ensures forall i :: 0 <= i < |r| ==> r[i] == (time, temps[i])
  {
    seq(|temps|, i requires 0 <= i < |temps| => (time, temps[i]))
  }

  /** The fallback's time column test: `'time' in str(col).lower()`. */
  predicate IsTimeName(col: string) {
    Contains(Lower(col), "time")
  }

  /** The fallback's temperature column test: one of '°C', '[C]', 'temp', case-sensitive. */
  predicate IsTempName(col: string) {
    Contains(col, "°C") || Contains(col, "[C]") || Contains(col, "temp")
  }

  /** `next(col for col in cols if keep(col))`: `None` stands for `StopIteration`. */
  function FirstWhere(cols: seq<string>, keep: string -> bool): (r: Option<nat>)
    ensures r.Some? ==> r.value < |cols| && keep(cols[r.value])
    ensures r.Some? ==> forall j :: 0 <= j < r.value ==> !keep(cols[j])
    ensures r.None? <==> forall j :: 0 <= j < |cols| ==> !keep(cols[j])
  {
    if cols == [] then None
    else if keep(cols[0]) then Some(0)
    else
      match FirstWhere(cols[1..], keep)
      case None => None
      case Some(i) => Some(i + 1)
  }

  /** The channels of a workbook that no rule names: the first time-like and temperature-like columns. */
  function Fallback(cols: seq<string>): (r: Result<seq<Pair>, Exception>)
    ensures r.Err? <==> FirstWhere(cols, IsTimeName).None? || FirstWhere(cols, IsTempName).None?
    ensures r.Err? ==> r.error == StopIteration
    ensures r.Ok? ==> |r.value| == 1 && r.value[0].0 in cols && r.value[0].1 in cols
    ensures r.Ok? ==> IsTimeName(r.value[0].0) && IsTempName(r.value[0].1)
  {
    match FirstWhere(cols, IsTimeName)
    case None => Err(StopIteration)
    case Some(t) =>
      match FirstWhere(cols, IsTempName)
      case None => Err(StopIteration)
      case Some(c) => Ok([(cols[t], cols[c])])
  }

  /**
    The column pairs `get_timeseries_data` turns into channels, from the cell id and the
    workbook's column names, rule by rule in the order of the `if`/`elif` chain.
  */
  function Plan(cell: string, cols: seq<string>): (r: Result<seq<Pair>, Exception>)
    ensures r.Err? ==> !StartsWith(cell, "SNL_") && "TC1 (°C)" !in cols && r.error == StopIteration
    ensures r.Ok? ==> r.value != []
  {
    var file := cell + ".xlsx";
    if StartsWith(cell, "SNL_") then Ok(SharedTime("Test Time [s]", SnlTemps))
    else if "TC1 (°C)" in cols then Ok(SharedTime("Time (sec) ", TcnTemps))
    else if file in ReltimeMaxC then Ok([("reltime", "MAX [C]")])
    else if file in ReltimeFn2 then Ok([("reltime", "Function 2 [C]")])
    else if file in ReltimeFn3 then Ok([("reltime", "Function 3 [C]")])
    else if cell == "LCO4000mAh-0SOC-cell1" then Ok([("reltime", "Max temp (C) ")])
    else if cell == "LCO_4Ah_30SOC_cell1_MAX" then
      Ok([("reltime", "3x3 temp (C)"), ("reltime", "Max temp (C) "), ("reltime.1", "Function 2 [C]")])
    else if cell == "NMC_10Ah_70SOC_cell2_MAX" then Ok([("reltime (s)", "Temperature [C]")])
    else if cell == "LCO6400mAh-40SOC-cell1-Load-Voltage" then Ok([("reltime", "Temp (C)")])
    else if cell == "LFP_15Ah_50SOC_cell2" then Ok([("Reltime", "c")])
    else Fallback(cols)
  }

  function ColumnNames(f: Frame): (r: seq<string>)
    ensures |r| == |f.columns|
    ensures forall i :: 0 <= i < |r| ==> r[i] == f.columns[i].name
  {
    seq(|f.columns|, i requires 0 <= i < |f.columns| => f.columns[i].name)
  }

  /** The channel built from one pair: `TimeseriesData(time_in_s=df[t], temperature_in_C=df[c])`. */
  function Channel(f: Frame, pair: Pair): (r: Result<Timeseries, Exception>)
    ensures r.Ok? <==> Has(f, pair.0) && Has(f, pair.1)
  {
    match Get(f, pair.0)
    case Err(e) => Err(e)
    case Ok(time) =>
      match Get(f, pair.1)
      case Err(e) => Err(e)
      case Ok(temp) => Ok(Timeseries(VSeries(time), VSeries(temp), map[]))
  }

  /**
    The channels of the pairs, in order; the first column missing from the frame raises
    its `KeyError`.
  */
  function Channels(f: Frame, pairs: seq<Pair>): (r: Result<seq<Timeseries>, Exception>)
    ensures r.Ok? <==> forall i :: 0 <= i < |pairs| ==> Has(f, pairs[i].0) && Has(f, pairs[i].1)
    ensures r.Ok? ==> |r.value| == |pairs|
    ensures r.Ok? ==> forall i :: 0 <= i < |pairs| ==> Channel(f, pairs[i]) == Ok(r.value[i])
    ensures r.Err? ==> exists i :: 0 <= i < |pairs| && Channel(f, pairs[i]) == Err(r.error) &&
                         forall j :: 0 <= j < i ==> Channel(f, pairs[j]).Ok?
  {
    if pairs == [] then Ok([])
    else
      match Channel(f, pairs[0])
      case Err(e) => Err(e)
      case Ok(c) =>
        match Channels(f, pairs[1..])
        case Err(e) =>
          FirstErrShift(f, pairs, e);
          Err(e)
        case Ok(rest) =>
          ChannelsCons(f, pairs, c, rest);
          Ok([c] + rest)
  }

  /** A first failing pair of the tail, after a pair that succeeds, is the first failing pair of the whole. */
  lemma FirstErrShift(f: Frame, pairs: seq<Pair>, e: Exception)
    requires pairs != [] && Channel(f, pairs[0]).Ok?
    requires exists i :: 0 <= i < |pairs[1..]| && Channel(f, pairs[1..][i]) == Err(e) &&
                         forall j :: 0 <= j < i ==> Channel(f, pairs[1..][j]).Ok?
    ensures exists i :: 0 <= i < |pairs| && Channel(f, pairs[i]) == Err(e) &&
                        forall j :: 0 <= j < i ==> Channel(f, pairs[j]).Ok?
  {
    var i :| 0 <= i < |pairs[1..]| && Channel(f, pairs[1..][i]) == Err(e) &&
             forall j :: 0 <= j < i ==> Channel(f, pairs[1..][j]).Ok?;
    assert Channel(f, pairs[i + 1]) == Err(e);
    assert forall j :: 0 < j < i + 1 ==> pairs[j] == pairs[1..][j - 1];
  }

  /** The channels of a successful tail, after the head's channel, are those of the whole list. */
  lemma ChannelsCons(f: Frame, pairs: seq<Pair>, c: Timeseries, rest: seq<Timeseries>)
    requires pairs != [] && Channel(f, pairs[0]) == Ok(c) && |rest| == |pairs| - 1
    requires forall i :: 0 <= i < |pairs[1..]| ==> Channel(f, pairs[1..][i]) == Ok(rest[i])
    ensures forall i :: 0 <= i < |pairs| ==> Channel(f, pairs[i]) == Ok(([c] + rest)[i])
  {
    assert forall i :: 0 < i < |pairs| ==> pairs[i] == pairs[1..][i - 1];
  }

  /** A list of channels, as the value handed to `get_cell_info`. */
  function ChannelList(chans: seq<Timeseries>): (r: Value)
    ensures r.VList? && |r.items| == |chans|
    ensures forall i :: 0 <= i < |chans| ==> r.items[i] == VTs(chans[i])
  {
    VList(seq(|chans|, i requires 0 <= i < |chans| => VTs(chans[i])))
  }

  /** `get_timeseries_data(inputdir, cell)` on the frame read from `<cell>.xlsx`. */
  function Extract(cell: string, frame: Result<Frame, Exception>): (r: Result<Value, Exception>)
    ensures r.Ok? <==> frame.Ok? && Plan(cell, ColumnNames(frame.value)).Ok? &&
                       Channels(frame.value, Plan(cell, ColumnNames(frame.value)).value).Ok?
    ensures r.Ok? ==> r.value.VList? && |r.value.items| == |Plan(cell, ColumnNames(frame.value)).value|
  {
    if frame.Err? then Err(frame.error)
    else
      match Plan(cell, ColumnNames(frame.value))
      case Err(e) => Err(e)
      case Ok(pairs) =>
        match Channels(frame.value, pairs)
        case Err(e) => Err(e)
        case Ok(chans) => Ok(ChannelList(chans))
  }

  // ---------------------------------------------------------------- properties of the choice

  /** The three file tables are pairwise disjoint (first: `MAX [C]` against `Function 2 [C]`). */
  lemma MaxCNotFn2()
    ensures forall x :: x in ReltimeMaxC ==> x !in ReltimeFn2
  {
  }

  lemma MaxCNotFn3()
    ensures forall x :: x in ReltimeMaxC ==> x !in ReltimeFn3
  {
  }

  lemma Fn2NotFn3()
    ensures forall x :: x in ReltimeFn2 ==> x !in ReltimeFn3
  {
  }

  /** No tabled workbook belongs to a Sandia cell: no name starts with 'S'. */
  lemma MaxCInitial(file: string)
    requires file in ReltimeMaxC
    ensures file[0] != 'S'
  {
  }

  lemma Fn2Initial(file: string)
    requires file in ReltimeFn2
    ensures file[0] != 'S'
  {
  }

  lemma Fn3Initial(file: string)
    requires file in ReltimeFn3
    ensures file[0] != 'S'
  {
  }

  /** A cell whose workbook name does not start with 'S' is not a Sandia cell. */
  lemma NotSnlCell(cell: string)
    requires (cell + ".xlsx")[0] != 'S'
    ensures !StartsWith(cell, "SNL_")
  {
    assert |cell| > 0 ==> (cell + ".xlsx")[0] == cell[0];
  }

  /**
    A Sandia cell (id starting with "SNL_") has six channels sharing 'Test Time [s]',
    against TC1..TC6 in order, whatever columns its workbook has: the rule comes first.
  */
  lemma SnlRuleFirst(cell: string, cols: seq<string>)
    requires StartsWith(cell, "SNL_")
    ensures Plan(cell, cols).Ok? && |Plan(cell, cols).value| == 6
    ensures forall i :: 0 <= i < 6 ==> Plan(cell, cols).value[i] == ("Test Time [s]", SnlTemps[i])
  {
  }

  /**
    Any other workbook with a 'TC1 (°C)' column has four channels sharing 'Time (sec) ',
    against TC1..TC4 in order.
  */
  lemma TcnRuleSecond(cell: string, cols: seq<string>)
    requires !StartsWith(cell, "SNL_") && "TC1 (°C)" in cols
    ensures Plan(cell, cols).Ok? && |Plan(cell, cols).value| == 4
    ensures forall i :: 0 <= i < 4 ==> Plan(cell, cols).value[i] == ("Time (sec) ", TcnTemps[i])
  {
  }

  /**
    A workbook of the `MAX [C]` table (without a 'TC1 (°C)' column) has the one channel
    `reltime` against `MAX [C]`.
  */
  lemma TabledMaxC(cell: string, cols: seq<string>)
    requires "TC1 (°C)" !in cols && cell + ".xlsx" in ReltimeMaxC
    ensures Plan(cell, cols) == Ok([("reltime", "MAX [C]")])
  {
    MaxCInitial(cell + ".xlsx");
    NotSnlCell(cell);
  }

  /** Likewise `reltime` against `Function 2 [C]`: the table shares no name with the one before it. */
  lemma TabledFn2(cell: string, cols: seq<string>)
    requires "TC1 (°C)" !in cols && cell + ".xlsx" in ReltimeFn2
    ensures Plan(cell, cols) == Ok([("reltime", "Function 2 [C]")])
  {
    Fn2Initial(cell + ".xlsx");
    NotSnlCell(cell);
    MaxCNotFn2();
  }

  /** Likewise `reltime` against `Function 3 [C]`. */
  lemma TabledFn3(cell: string, cols: seq<string>)
    requires "TC1 (°C)" !in cols && cell + ".xlsx" in ReltimeFn3
    ensures Plan(cell, cols) == Ok([("reltime", "Function 3 [C]")])
  {
    Fn3Initial(cell + ".xlsx");
    NotSnlCell(cell);
    MaxCNotFn3();
    Fn2NotFn3();
  }

  /**
    'LCO_4Ah_30SOC_cell1_MAX' (without a 'TC1 (°C)' column) has three channels; the
    third one reads its time from 'reltime.1'.
  */
  lemma ThreeChannelCell(cols: seq<string>)
    requires "TC1 (°C)" !in cols
    ensures var r := Plan("LCO_4Ah_30SOC_cell1_MAX", cols);
      && r.Ok? && |r.value| == 3
      && r.value[0].0 == "reltime" && r.value[1].0 == "reltime" && r.value[2] == ("reltime.1", "Function 2 [C]")
  {
    var cell := "LCO_4Ah_30SOC_cell1_MAX";
    assert cell + ".xlsx" == "LCO_4Ah_30SOC_cell1_MAX.xlsx";
    ThreeChannelFileUntabled();
    assert !StartsWith(cell, "SNL_") by { assert cell[0] == 'L'; }
  }

  /** The three-channel workbook is in none of the tables. */
  lemma ThreeChannelFileUntabled()
    ensures "LCO_4Ah_30SOC_cell1_MAX.xlsx" !in ReltimeMaxC
    ensures "LCO_4Ah_30SOC_cell1_MAX.xlsx" !in ReltimeFn2
    ensures "LCO_4Ah_30SOC_cell1_MAX.xlsx" !in ReltimeFn3
  {
  }

  /** A cell no rule names gets the fallback, which raises `StopIteration` when a column kind is missing. */
  predicate Unnamed(cell: string, cols: seq<string>) {
    && !StartsWith(cell, "SNL_") && "TC1 (°C)" !in cols
    && cell + ".xlsx" !in ReltimeMaxC && cell + ".xlsx" !in ReltimeFn2 && cell + ".xlsx" !in ReltimeFn3
    && cell !in {"LCO4000mAh-0SOC-cell1", "LCO_4Ah_30SOC_cell1_MAX", "NMC_10Ah_70SOC_cell2_MAX",
                 "LCO6400mAh-40SOC-cell1-Load-Voltage", "LFP_15Ah_50SOC_cell2"}
  }

  lemma FallbackRule(cell: string, cols: seq<string>)
    requires Unnamed(cell, cols)
    ensures Plan(cell, cols) == Fallback(cols)
    ensures Plan(cell, cols).Err? <==> (forall j :: 0 <= j < |cols| ==> !IsTimeName(cols[j])) ||
                                       (forall j :: 0 <= j < |cols| ==> !IsTempName(cols[j]))
    ensures Plan(cell, cols).Ok? ==> exists t, c ::
      && 0 <= t < |cols| && 0 <= c < |cols| && Plan(cell, cols).value == [(cols[t], cols[c])]
      && IsTimeName(cols[t]) && (forall j :: 0 <= j < t ==> !IsTimeName(cols[j]))
      && IsTempName(cols[c]) && (forall j :: 0 <= j < c ==> !IsTempName(cols[j]))
  {
    if Fallback(cols).Ok? {
      var t := FirstWhere(cols, IsTimeName).value;
      var c := FirstWhere(cols, IsTempName).value;
      assert Plan(cell, cols).value == [(cols[t], cols[c])];
    }
  }

  /**
    Extraction fails exactly when the read fails, no channel can be chosen, or a chosen
    column is missing; otherwise it yields one channel per chosen pair, in order.
  */
  lemma ExtractChannels(cell: string, f: Frame)
    ensures var plan := Plan(cell, ColumnNames(f));
      Extract(cell, Ok(f)).Ok? <==>
        plan.Ok? && forall i :: 0 <= i < |plan.value| ==> Has(f, plan.value[i].0) && Has(f, plan.value[i].1)
    ensures var plan := Plan(cell, ColumnNames(f));
      Extract(cell, Ok(f)).Ok? ==> forall i :: 0 <= i < |plan.value| ==>
        exists t :: Channel(f, plan.value[i]) == Ok(t) && Extract(cell, Ok(f)).value.items[i] == VTs(t)
  {
    var plan := Plan(cell, ColumnNames(f));
    if Extract(cell, Ok(f)).Ok? {
      var chans := Channels(f, plan.value).value;
      forall i | 0 <= i < |plan.value|
        ensures exists t :: Channel(f, plan.value[i]) == Ok(t) && Extract(cell, Ok(f)).value.items[i] == VTs(t)
      {
        assert Channel(f, plan.value[i]) == Ok(chans[i]);
      }
    }
  }

  // ---------------------------------------------------------------- the record

  /** The state-of-charge pattern `(\d+)S[O0]C`. */
  /** The default `parentdir` of `process`. */
  const DefaultParentDir := "data/raw/oakridge/excel/"

  const SocTail: Tail := [{'S'}, {'O', '0'}, {'C'}]
  const AhTail: Tail := [{'A'}, {'h'}]
  const MilliAhTail: Tail := [{'m'}, {'A'}, {'h'}]

  /** `org`: 'snl' when "SNL_" occurs anywhere in the id. */
  function Organization(cell: string): (r: string)
    ensures r == "snl" <==> Contains(cell, "SNL_")
    ensures r != "snl" ==> r == "oakridge"
  {
    if Contains(cell, "SNL_") then "snl" else "oakridge"
  }

  /**
    `soc`: `int` of the group of the leftmost `(\d+)S[O0]C` match, the longest digit run
    at that start; `None` when nothing matches.
  */
  function StateOfCharge(cell: string): (r: Value)
    ensures r == VNone <==> forall a, b :: !GroupAt(cell, SocTail, a, b)
    ensures r != VNone ==> r.VInt? && r.i >= 0
    ensures r != VNone ==> exists a, b :: LeftmostGroup(cell, SocTail, a, b)
    ensures forall a, b :: LeftmostGroup(cell, SocTail, a, b) ==> r == VInt(GroupValue(cell, a, b))
  {
    match Search(cell, SocTail)
    case None => VNone
    case Some(d) =>
      SearchDigits(cell, SocTail);
      VInt(DigitsValue(d))
  }

  /**
    `ah`: N for the leftmost "<N>Ah", else N/1000 for the leftmost "<N>mAh", else `None`.
  */
  function Capacity(cell: string): (r: Value)
    ensures r == VNone <==> (forall a, b :: !GroupAt(cell, AhTail, a, b)) && (forall a, b :: !GroupAt(cell, MilliAhTail, a, b))
    ensures forall a, b :: LeftmostGroup(cell, AhTail, a, b) ==> r == VReal(GroupValue(cell, a, b) as real)
    ensures (forall a, b :: !GroupAt(cell, AhTail, a, b)) ==>
      forall a, b :: LeftmostGroup(cell, MilliAhTail, a, b) ==> r == VReal(GroupValue(cell, a, b) as real / 1000.0)
    ensures r != VNone ==> r.VReal? && r.r >= 0.0
    ensures Search(cell, AhTail).Some? ==> r.VReal? && r.r == r.r.Floor as real
    ensures Search(cell, AhTail).None? && r != VNone ==> r.r * 1000.0 == (r.r * 1000.0).Floor as real
  {
    match Search(cell, AhTail)
    case Some(d) =>
      SearchDigits(cell, AhTail);
      VReal(DigitsValue(d) as real)
    case None =>
      match Search(cell, MilliAhTail)
      case Some(d) =>
        SearchDigits(cell, MilliAhTail);
        VReal(DigitsValue(d) as real / 1000.0)
      case None => VNone
  }

  function OptionalStr(o: Option<string>): Value {
    if o.Some? then VStr(o.value) else VNone
  }

  /** `cathode`: the first entry of the cathode list, in list order, occurring in the id. */
  function Cathode(cell: string): (r: Value)
    ensures r == VNone <==> forall x :: x in Cathodes ==> !Contains(cell, x)
    ensures r != VNone ==> exists i :: 0 <= i < |Cathodes| && r == VStr(Cathodes[i]) && Contains(cell, Cathodes[i]) &&
                                       forall j :: 0 <= j < i ==> !Contains(cell, Cathodes[j])
  {
    OptionalStr(FirstContained(Cathodes, cell))
  }

  /**
    'NMC-LCO' can never be reported: every id containing it contains 'LCO', which comes
    first in the list.
  */
  lemma NmcLcoShadowed(cell: string)
    ensures Cathode(cell) != VStr("NMC-LCO")
    ensures Contains(cell, "NMC-LCO") ==> Cathode(cell) == VStr("LCO")
  {
    if Contains(cell, "NMC-LCO") {
      var i :| 0 <= i <= |cell| - 7 && OccursAt(cell, "NMC-LCO", i);
      assert cell[i + 4..i + 7] == "NMC-LCO"[4..] == "LCO";
      assert OccursAt(cell, "LCO", i + 4);
    }
  }

  /** `battery_type`: a one-element tuple (the trailing comma) of the first listed type in the id. */
  function BatteryType(cell: string): (r: Value)
    ensures r.VTuple? && |r.items| == 1
    ensures Contains(cell, "NFP") ==> r == VTuple([VStr("NFP")])
    ensures !Contains(cell, "NFP") && Contains(cell, "LCO") ==> r == VTuple([VStr("LCO")])
    ensures !Contains(cell, "NFP") && !Contains(cell, "LCO") ==> r == VTuple([VNone])
  {
    assert forall x :: x in BatteryTypes ==> x == "NFP" || x == "LCO";
    assert BatteryTypes[0] == "NFP";
    VTuple([OptionalStr(FirstContained(BatteryTypes, cell))])
  }

  /** The arguments `get_cell_info` passes to `BatteryData`. */
  function CellParams(cell: string, series: Value): Params {
    Params(cell, VStr(Organization(cell)), series, VBool(false), StateOfCharge(cell), BatteryType(cell),
           VStr("graphite"), Cathode(cell), Capacity(cell), VStr("cylindrical_18650"))
  }

  /** `get_cell_info(cell, timeseries_data)`. */
  function CellInfo(cell: string, series: Value): (r: Result<Battery, Exception>)
    ensures r.Ok? <==> !series.VSeries?
  {
    InitKwargsOk(CellParams(cell, series));
    Init(Kwargs(CellParams(cell, series)))
  }

  /**
    The record of an Oak Ridge cell: its id, the organisation derived from it, never
    healthy, the derived state of charge, capacity and cathode, graphite anode, 18650
    cylinder, the battery type as a one-element tuple, and the channels when given.
  */
  lemma CellInfoRecord(cell: string, series: Value)
    requires !series.VSeries?
    ensures var attrs := CellInfo(cell, series).value.attrs;
      && CellIdKey in attrs && OrgKey in attrs && HealthyKey in attrs && SocKey in attrs && TypeKey in attrs
      && AnodeKey in attrs && CathodeKey in attrs && CapacityKey in attrs && FormKey in attrs
      && attrs[CellIdKey] == VStr(cell)
      && (attrs[OrgKey] == VStr("snl") <==> Contains(cell, "SNL_"))
      && (attrs[OrgKey] != VStr("snl") ==> attrs[OrgKey] == VStr("oakridge"))
      && attrs[HealthyKey] == VBool(false)
      && attrs[SocKey] == StateOfCharge(cell)
      && attrs[CapacityKey] == Capacity(cell)
      && attrs[CathodeKey] == Cathode(cell)
      && attrs[AnodeKey] == VStr("graphite")
      && attrs[FormKey] == VStr("cylindrical_18650")
      && attrs[TypeKey] == BatteryType(cell)
      && attrs[TypeKey].VTuple? && |attrs[TypeKey].items| == 1
      && (SeriesKey in attrs <==> series != VNone)
      && Named <= attrs.Keys
  {
    InitKwargsNamed(CellParams(cell, series));
    InitKwargsRest(CellParams(cell, series));
  }

  // ---------------------------------------------------------------- the adapter

  /** The driver hooks of the adapter, reading `<inputdir>/<cell>.xlsx` through `read`. */
  function AdapterHooks(inputDir: string, read: string -> Result<Frame, Exception>, pickleSize: map<string, Value> -> nat): Hooks {
    Hooks(
      cell => Extract(cell, read(Join(inputDir, cell + ".xlsx"))),
      (cell, series) => CellInfo(cell, series),
      pickleSize)
  }

  /** Every record the adapter builds carries its cell as `cell_id`. */
  lemma AdapterKeepsId(inputDir: string, read: string -> Result<Frame, Exception>, pickleSize: map<string, Value> -> nat)
    ensures InfoKeepsId(AdapterHooks(inputDir, read, pickleSize))
  {
    var h := AdapterHooks(inputDir, read, pickleSize);
    forall c, v | h.info(c, v).Ok?
      ensures CellIdKey in h.info(c, v).value.attrs && h.info(c, v).value.attrs[CellIdKey] == VStr(c)
    {
      assert h.info(c, v) == CellInfo(c, v);
      InitKwargsNamed(CellParams(c, v));
    }
  }

  /**
    `ORNLPreprocessor.process(parentdir='data/raw/oakridge/excel/')`: the cells are the
    stems of the files listed in `parentdir`, and the driver runs over them.
  */
  method Process(p: Preprocessor, disk: Disk, listing: seq<Entry>, read: string -> Result<Frame, Exception>,
                 pickleSize: map<string, Value> -> nat, parentDir: string := DefaultParentDir)
    returns (disk': Disk, r: Result<(nat, nat), Exception>)
    requires Base.Valid(p)
    requires forall e :: e in listing ==> '/' !in e.name
    ensures var found := DiscoverCells(listing, GlobAll);
      found.Err? ==> disk' == disk && r == Err(found.error)
    ensures var found := DiscoverCells(listing, GlobAll);
      found.Ok? ==> Run(p, disk, found.value, AdapterHooks(parentDir, read, pickleSize), disk', r)
  {
    var found := DiscoverCells(listing, GlobAll);
    if found.Err? {
      return disk, Err(found.error);
    }
    DiscoveredCellsAreTokens(listing, GlobAll);
    AdapterKeepsId(parentDir, read, pickleSize);
    disk', r := ProcessCells(p, disk, found.value, AdapterHooks(parentDir, read, pickleSize));
  }
}

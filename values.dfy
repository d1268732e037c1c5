/**
  The Python values that flow through the record model: the keyword arguments of the
  record constructors, the attributes of a record and the entries of its serialised
  dictionary. `VTs` is a `TimeseriesData` object, the only kind of value that has a
  `to_dict` method; `VCallable` stands for any callable.
*/
module Values {
  import opened Table

  datatype Value =
    | VNone
    | VBool(b: bool)
    | VInt(i: int)
    | VReal(r: real)
    | VStr(s: string)
    | VTuple(items: seq<Value>)
    | VList(items: seq<Value>)
    | VDict(entries: map<string, Value>)
    | VSeries(cells: seq<Cell>)
    | VRowDict(cells: seq<Cell>)    // `Series.to_dict()`: {0: cells[0], 1: cells[1], ...}
    | VTs(ts: Timeseries)
    | VCallable(name: string)

  /**
    The state of a `TimeseriesData` object: `time_in_s`, `temperature_in_C` and the
    `additional_data` dictionary.
  */
  datatype Timeseries = Timeseries(time: Value, temperature: Value, additional: map<string, Value>)
}

/**
  The record model of `battery_data.py`: `TimeseriesData` (one sensor channel) and
  `BatteryData` (one cell), their constructors, their `to_dict` serialisers and their
  `load` rebuilders, and `dump`, which pickles a record to a file.

  A `BatteryData` object is modelled by its attribute dictionary (`__dict__`), since that
  is what `to_dict` walks. Pickling is modelled as the identity on dictionaries.
*/
module BatteryData {
  import opened Wrappers
  import opened Text
  import opened Values
  import opened FileSystem

  // ================================================================ TimeseriesData

  const TimeKey := "time_in_s"
  const TempKey := "temperature_in_C"

  /** The extension map never shadows the two named fields. */
  predicate TimeseriesValid(t: Timeseries) {
    TimeKey !in t.additional && TempKey !in t.additional
  }

  /**
    `TimeseriesData(**kwargs)`: `time_in_s` is required, `temperature_in_C` defaults to
    `None`, every other keyword lands in `additional_data`.
  */
  function TimeseriesFromKwargs(kwargs: map<string, Value>): (r: Result<Timeseries, Exception>)
    ensures r.Ok? <==> TimeKey in kwargs
    ensures r.Err? ==> r.error == TypeError
    ensures r.Ok? ==> TimeseriesValid(r.value)
    ensures r.Ok? && TempKey !in kwargs ==> r.value.temperature == VNone
  {
    if TimeKey !in kwargs then Err(TypeError)
    else
      var temp := if TempKey in kwargs then kwargs[TempKey] else VNone;
      Ok(Timeseries(kwargs[TimeKey], temp, kwargs - {TimeKey, TempKey}))
  }

  /** The constructor as written: bind the named parameters, then copy each extra keyword. */
  method NewTimeseries(kwargs: map<string, Value>) returns (r: Result<Timeseries, Exception>)
    ensures r == TimeseriesFromKwargs(kwargs)
  {
    if TimeKey !in kwargs {
      return Err(TypeError);
    }
    var temp := if TempKey in kwargs then kwargs[TempKey] else VNone;
    var extra := kwargs - {TimeKey, TempKey};
    var additional: map<string, Value> := map[];
    var todo := extra.Keys;
    while todo != {}
      invariant todo <= extra.Keys
      invariant additional == map k | k in extra.Keys - todo :: extra[k]
      decreases todo
    {
      var key :| key in todo;
      additional := additional[key := extra[key]];
      todo := todo - {key};
    }
    assert additional == extra;
    r := Ok(Timeseries(kwargs[TimeKey], temp, additional));
  }

  /** `TimeseriesData.to_dict()`: the two named fields, then the extension map. */
  function TimeseriesToDict(t: Timeseries): (r: map<string, Value>)
    ensures r.Keys == {TimeKey, TempKey} + t.additional.Keys
    ensures TimeseriesValid(t) ==> r[TimeKey] == t.time && r[TempKey] == t.temperature
    ensures forall k :: k in t.additional ==> r[k] == t.additional[k]
  {
    map[TimeKey := t.time, TempKey := t.temperature] + t.additional
  }

  /** `TimeseriesData.load(obj)`: `cls(**obj)`. */
  function TimeseriesLoad(obj: map<string, Value>): (r: Result<Timeseries, Exception>)
    ensures r.Ok? <==> TimeKey in obj
    ensures r.Ok? ==> r.value.time == obj[TimeKey] && r.value.temperature == Lookup(obj, TempKey, VNone)
    ensures r.Ok? ==> forall k :: k in obj && k != TimeKey && k != TempKey ==>
      k in r.value.additional && r.value.additional[k] == obj[k]
  {
    TimeseriesFromKwargs(obj)
  }

  /** Rebuilding a channel from its dictionary gives the channel back. */
  lemma TimeseriesRoundTrip(t: Timeseries)
    requires TimeseriesValid(t)
    ensures TimeseriesLoad(TimeseriesToDict(t)) == Ok(t)
  {
    var d := TimeseriesToDict(t);
    assert d - {TimeKey, TempKey} == t.additional;
  }

  /**
    Serialising a freshly built channel gives back its keyword arguments, with
    `temperature_in_C: None` filled in when it was omitted.
  */
  lemma TimeseriesDictRoundTrip(kwargs: map<string, Value>)
    requires TimeKey in kwargs
    ensures TimeseriesLoad(kwargs).Ok?
    ensures TimeseriesToDict(TimeseriesLoad(kwargs).value) ==
      if TempKey in kwargs then kwargs else kwargs[TempKey := VNone]
  {
    var t := TimeseriesLoad(kwargs).value;
    var d := TimeseriesToDict(t);
    var wanted := if TempKey in kwargs then kwargs else kwargs[TempKey := VNone];
    assert d.Keys == wanted.Keys;
    assert forall k :: k in d ==> d[k] == wanted[k];
  }

  // ================================================================ BatteryData

  const CellIdKey := "cell_id"
  const OrgKey := "organization"
  const SeriesKey := "timeseries_data"
  const HealthyKey := "is_healthy"

  /** The optional metadata parameters, all defaulting to `None`. */
  const MetadataKeys: set<string> := {
    "state_of_charge", "battery_type", "anode_material", "cathode_material",
    "electrolyte_material", "nominal_capacity_in_Ah", "form_factor", "description"
  }

  /** Every named parameter of `BatteryData.__init__`; other keywords land in `**kwargs`. */
  const Parameters: set<string> := {CellIdKey, OrgKey, SeriesKey, HealthyKey} + MetadataKeys

  /** The named parameters `__init__` always turns into attributes. */
  const Named: set<string> := Parameters - {SeriesKey}

  /** The default of a named parameter: `is_healthy=True`, everything else `None`. */
  function Default(k: string): Value {
    if k == HealthyKey then VBool(true) else VNone
  }

  /** A `BatteryData` instance, as its attribute dictionary. */
  datatype Battery = Battery(attrs: map<string, Value>)

  function Lookup(m: map<string, Value>, k: string, default: Value): Value {
    if k in m then m[k] else default
  }

  /** The keyword arguments not bound to a named parameter. */
  function Extras(args: map<string, Value>): map<string, Value> {
    args - Parameters
  }

  /**
    The `timeseries_data` attribute: the argument when it is not `None`; otherwise one
    channel built from the `time_in_s`/`temperature_in_C` keywords when `time_in_s` is
    given; otherwise no attribute at all. A pandas Series compared with `None` has no
    truth value, so passing one raises `ValueError`.
  */
  function SeriesAttr(args: map<string, Value>): Result<map<string, Value>, Exception> {
    var ts := Lookup(args, SeriesKey, VNone);
    if ts.VSeries? then Err(ValueError)
    else if ts != VNone then Ok(map[SeriesKey := ts])
    else if TimeKey in args then
      Ok(map[SeriesKey := VTs(Timeseries(args[TimeKey], Lookup(args, TempKey, VNone), map[]))])
    else Ok(map[])
  }

  /** The attributes `__init__` sets one by one before its loop over `**kwargs`. */
  function NamedAttrs(args: map<string, Value>): map<string, Value> {
    map k | k in Named :: Lookup(args, k, Default(k))
  }

  /** `BatteryData(**args)`: the attribute dictionary of the new object. */
  function Init(args: map<string, Value>): (r: Result<Battery, Exception>)
    ensures r.Ok? <==> CellIdKey in args && SeriesAttr(args).Ok?
    ensures r.Ok? ==> forall k :: k in Extras(args) ==> k in r.value.attrs && r.value.attrs[k] == args[k]
    ensures r.Ok? ==> forall k :: k in Named ==> k in r.value.attrs && r.value.attrs[k] == Lookup(args, k, Default(k))
    ensures r.Ok? ==> r.value.attrs[CellIdKey] == args[CellIdKey]
    ensures r.Ok? ==> (SeriesKey in r.value.attrs <==> Lookup(args, SeriesKey, VNone) != VNone || TimeKey in args)
    ensures r.Ok? ==> forall k :: k in r.value.attrs ==> k in Parameters || k in args
    ensures r.Ok? && Lookup(args, SeriesKey, VNone) != VNone ==> r.value.attrs[SeriesKey] == args[SeriesKey]
  {
    if CellIdKey !in args then Err(TypeError)
    else
      match SeriesAttr(args)
      case Err(e) => Err(e)
      case Ok(ts) => Ok(Battery(NamedAttrs(args) + ts + Extras(args)))
  }

  /** One `setattr` of the constructor's loop adds the next extra keyword to those already set. */
  lemma SetAttrStep(base: map<string, Value>, extra: map<string, Value>, todo: set<string>, key: string)
    requires key in todo && todo <= extra.Keys
    ensures (base + map k | k in extra.Keys - todo :: extra[k])[key := extra[key]]
         == base + map k | k in extra.Keys - (todo - {key}) :: extra[k]
  {
  }

  /** The constructor as written: named attributes first, then `setattr` for each extra keyword. */
  method New(args: map<string, Value>) returns (r: Result<Battery, Exception>)
    ensures r == Init(args)
  {
    if CellIdKey !in args {
      return Err(TypeError);
    }
    var ts := SeriesAttr(args);
    if ts.Err? {
      return Err(ts.error);
    }
    var attrs := NamedAttrs(args) + ts.value;
    var extra := Extras(args);
    var todo := extra.Keys;
    while todo != {}
      invariant todo <= extra.Keys
      invariant attrs == NamedAttrs(args) + ts.value + map k | k in extra.Keys - todo :: extra[k]
      decreases todo
    {
      var key :| key in todo;
      SetAttrStep(NamedAttrs(args) + ts.value, extra, todo, key);
      attrs := attrs[key := extra[key]];
      todo := todo - {key};
    }
    assert (map k | k in extra.Keys - {} :: extra[k]) == extra;
    r := Ok(Battery(attrs));
  }

  // ---------------------------------------------------------------- the adapters' keyword arguments

  /**
    The named arguments the adapters pass to `BatteryData`. An adapter that omits
    `state_of_charge` or `battery_type` passes `VNone` here, which is their default.
  */
  datatype Params = Params(
    cellId: string, organization: Value, series: Value, isHealthy: Value,
    stateOfCharge: Value, batteryType: Value, anodeMaterial: Value, cathodeMaterial: Value,
    capacity: Value, formFactor: Value)

  const SocKey := "state_of_charge"
  const TypeKey := "battery_type"
  const AnodeKey := "anode_material"
  const CathodeKey := "cathode_material"
  const CapacityKey := "nominal_capacity_in_Ah"
  const FormKey := "form_factor"

  /** The keyword dictionary of a `BatteryData(cell_id=..., organization=..., ...)` call. */
  function Kwargs(p: Params): map<string, Value> {
    map[CellIdKey := VStr(p.cellId), OrgKey := p.organization, SeriesKey := p.series, HealthyKey := p.isHealthy,
        SocKey := p.stateOfCharge, TypeKey := p.batteryType, AnodeKey := p.anodeMaterial,
        CathodeKey := p.cathodeMaterial, CapacityKey := p.capacity, FormKey := p.formFactor]
  }

  /** The ten argument names are distinct. */
  lemma ArgumentNamesDistinct()
    ensures var ks := [CellIdKey, OrgKey, SeriesKey, HealthyKey, SocKey, TypeKey, AnodeKey, CathodeKey, CapacityKey, FormKey];
      forall i, j :: 0 <= i < j < |ks| ==> ks[i] != ks[j]
  {
  }

  /** The argument names are ten distinct parameters of `__init__`. */
  lemma KwargsKeys(p: Params)
    ensures Kwargs(p).Keys == {CellIdKey, OrgKey, SeriesKey, HealthyKey, SocKey, TypeKey, AnodeKey, CathodeKey, CapacityKey, FormKey}
    ensures Kwargs(p).Keys <= Parameters && Extras(Kwargs(p)) == map[]
    ensures TimeKey !in Kwargs(p) && "electrolyte_material" !in Kwargs(p) && "description" !in Kwargs(p)
    ensures |[CellIdKey, OrgKey, SeriesKey, HealthyKey, SocKey, TypeKey, AnodeKey, CathodeKey, CapacityKey, FormKey]| == 10
    ensures var ks := [CellIdKey, OrgKey, SeriesKey, HealthyKey, SocKey, TypeKey, AnodeKey, CathodeKey, CapacityKey, FormKey];
      forall i, j :: 0 <= i < j < |ks| ==> ks[i] != ks[j]
  {
    ArgumentNamesDistinct();
  }

  /** Each argument lands in the attribute of its name. */
  lemma KwargsValues(p: Params)
    ensures var m := Kwargs(p);
      && m[CellIdKey] == VStr(p.cellId) && m[OrgKey] == p.organization && m[SeriesKey] == p.series
      && m[HealthyKey] == p.isHealthy && m[SocKey] == p.stateOfCharge && m[TypeKey] == p.batteryType
      && m[AnodeKey] == p.anodeMaterial && m[CathodeKey] == p.cathodeMaterial
      && m[CapacityKey] == p.capacity && m[FormKey] == p.formFactor
  {
    KwargsKeys(p);
  }

  /** The record built from the adapters' arguments exists unless the channels are a bare Series. */
  lemma InitKwargsOk(p: Params)
    ensures Init(Kwargs(p)).Ok? <==> !p.series.VSeries?
  {
    KwargsKeys(p);
    KwargsValues(p);
  }

  /** Each attribute of that record is the argument of its name. */
  lemma InitKwargsNamed(p: Params)
    requires !p.series.VSeries?
    ensures Init(Kwargs(p)).Ok?
    ensures var attrs := Init(Kwargs(p)).value.attrs;
      && CellIdKey in attrs && OrgKey in attrs && HealthyKey in attrs && SocKey in attrs && TypeKey in attrs
      && AnodeKey in attrs && CathodeKey in attrs && CapacityKey in attrs && FormKey in attrs
      && attrs[CellIdKey] == VStr(p.cellId) && attrs[OrgKey] == p.organization
      && attrs[HealthyKey] == p.isHealthy && attrs[SocKey] == p.stateOfCharge
      && attrs[TypeKey] == p.batteryType && attrs[AnodeKey] == p.anodeMaterial
      && attrs[CathodeKey] == p.cathodeMaterial && attrs[CapacityKey] == p.capacity
      && attrs[FormKey] == p.formFactor
      && Named <= attrs.Keys
  {
    var args := Kwargs(p);
    InitKwargsOk(p);
    KwargsKeys(p);
    KwargsValues(p);
    var attrs := Init(args).value.attrs;
    forall k | k in args && k != SeriesKey
      ensures attrs[k] == args[k]
    {
      assert k in Named;
    }
  }

  /**
    The channels attribute is there exactly when channels were given, the two metadata
    fields the adapters never pass are `None`, and there is no other attribute.
  */
  lemma InitKwargsRest(p: Params)
    requires !p.series.VSeries?
    ensures Init(Kwargs(p)).Ok?
    ensures var attrs := Init(Kwargs(p)).value.attrs;
      && attrs["electrolyte_material"] == VNone && attrs["description"] == VNone
      && (SeriesKey in attrs <==> p.series != VNone)
      && (SeriesKey in attrs ==> attrs[SeriesKey] == p.series)
      && attrs.Keys <= Parameters
  {
    var args := Kwargs(p);
    InitKwargsOk(p);
    KwargsKeys(p);
    KwargsValues(p);
    var attrs := Init(args).value.attrs;
    assert "electrolyte_material" in Named && "description" in Named;
    if p.series != VNone {
      assert SeriesAttr(args).value == map[SeriesKey := p.series];
      assert SeriesKey !in Named && SeriesKey !in Extras(args);
    }
  }

  // ---------------------------------------------------------------- to_dict

  /** `to_dict` skips callables and names starting with an underscore. */
  predicate Kept(key: string, v: Value) {
    !v.VCallable? && !StartsWith(key, "_")
  }

  /** Keys whose value is expanded element by element. */
  predicate Expands(key: string) {
    key == "cycle_data" || Contains(key, "protocol")
  }

  /** A value with a `to_dict` method: a `TimeseriesData` object or a pandas Series. */
  predicate HasToDict(v: Value) {
    v.VTs? || v.VSeries?
  }

  /** `v.to_dict()` for a value that has the method. */
  function ElementToDict(v: Value): Value
    requires HasToDict(v)
  {
    if v.VTs? then VDict(TimeseriesToDict(v.ts)) else VRowDict(v.cells)
  }

  /**
    `[cell.to_dict() for cell in items]`: every element needs a `to_dict` method (a
    channel or a Series); the first one without raises `AttributeError`.
  */
  function EachToDict(items: seq<Value>): (r: Result<seq<Value>, Exception>)
    ensures r.Ok? <==> forall i :: 0 <= i < |items| ==> HasToDict(items[i])
    ensures r.Ok? ==> |r.value| == |items|
    ensures r.Ok? ==> forall i :: 0 <= i < |items| && items[i].VTs? ==> r.value[i] == VDict(TimeseriesToDict(items[i].ts))
    ensures r.Ok? ==> forall i :: 0 <= i < |items| && items[i].VSeries? ==> r.value[i] == VRowDict(items[i].cells)
    ensures r.Err? ==> r.error == AttributeError
  {
    if items == [] then Ok([])
    else if !HasToDict(items[0]) then Err(AttributeError)
    else
      match EachToDict(items[1..])
      case Err(e) => Err(e)
      case Ok(rest) => Ok([ElementToDict(items[0])] + rest)
  }

  /**
    The list comprehension over a `cycle_data`/`protocol` value: lists and tuples are
    walked; a string, Series or dict is walked too, and as its elements (characters,
    numbers, keys) have no `to_dict`, only an empty one gets through; any other value is
    not iterable.
  */
  function ExpandEach(v: Value): (r: Result<Value, Exception>)
    ensures r.Ok? ==> r.value.VList?
    ensures (v.VList? || v.VTuple?) ==> r == (if EachToDict(v.items).Ok? then Ok(VList(EachToDict(v.items).value)) else Err(AttributeError))
    ensures v.VStr? || v.VSeries? || v.VDict? || v.VRowDict? ==>
      (r.Ok? <==> (v.VStr? && v.s == []) || (v.VSeries? && v.cells == []) || (v.VRowDict? && v.cells == []) || (v.VDict? && v.entries == map[]))
    ensures !(v.VList? || v.VTuple?) && r.Ok? ==> r.value == VList([])
    ensures !(v.VList? || v.VTuple? || v.VStr? || v.VSeries? || v.VDict? || v.VRowDict?) ==> r == Err(TypeError)
  {
    match v
    case VList(items) => (match EachToDict(items) case Ok(ds) => Ok(VList(ds)) case Err(e) => Err(e))
    case VTuple(items) => (match EachToDict(items) case Ok(ds) => Ok(VList(ds)) case Err(e) => Err(e))
    case VStr(s) => if s == [] then Ok(VList([])) else Err(AttributeError)
    case VSeries(cells) => if cells == [] then Ok(VList([])) else Err(AttributeError)
    case VDict(m) => if m == map[] then Ok(VList([])) else Err(AttributeError)
    case VRowDict(cells) => if cells == [] then Ok(VList([])) else Err(AttributeError)
    case _ => Err(TypeError)
  }

  /** The serialised form of one attribute `to_dict` keeps. */
  function SerializeValue(key: string, v: Value): Result<Value, Exception> {
    if Expands(key) then ExpandEach(v)
    else if v.VTs? then Ok(VDict(TimeseriesToDict(v.ts)))
    else if v.VSeries? then Ok(VRowDict(v.cells))
    else Ok(v)
  }

  /** `BatteryData.to_dict()`, with the raised exception collapsed to one kind. */
  function Serialize(attrs: map<string, Value>): (r: Result<map<string, Value>, Exception>)
    ensures r.Ok? <==> forall k :: k in attrs && Kept(k, attrs[k]) ==> SerializeValue(k, attrs[k]).Ok?
    ensures r.Ok? ==> forall k :: k in r.value <==> k in attrs && Kept(k, attrs[k])
    ensures r.Ok? ==> forall k :: k in r.value ==>
      !r.value[k].VCallable? && !r.value[k].VTs? && !r.value[k].VSeries?
    ensures r.Ok? ==> forall k :: k in r.value && !Expands(k) && !attrs[k].VTs? && !attrs[k].VSeries? ==>
      r.value[k] == attrs[k]
    ensures r.Ok? ==> forall k :: k in r.value && !Expands(k) && attrs[k].VTs? ==>
      r.value[k] == VDict(TimeseriesToDict(attrs[k].ts))
    ensures r.Ok? ==> forall k :: k in r.value && !Expands(k) && attrs[k].VSeries? ==>
      r.value[k] == VRowDict(attrs[k].cells)
    ensures r.Ok? ==> forall k :: k in r.value && Expands(k) && (attrs[k].VList? || attrs[k].VTuple?) ==>
      EachToDict(attrs[k].items).Ok? && r.value[k] == VList(EachToDict(attrs[k].items).value)
    ensures r.Ok? ==> forall k :: k in r.value && Expands(k) && !attrs[k].VList? && !attrs[k].VTuple? ==>
      r.value[k] == VList([])
  {
    if forall k | k in attrs :: Kept(k, attrs[k]) ==> SerializeValue(k, attrs[k]).Ok? then
      Ok(map k | k in attrs && Kept(k, attrs[k]) :: SerializeValue(k, attrs[k]).value)
    else Err(AttributeError)
  }

  /** The loop of `to_dict` as written, building `result` one attribute at a time. */
  method ToDict(b: Battery) returns (r: Result<map<string, Value>, Exception>)
    ensures r == Serialize(b.attrs)
  {
    var result: map<string, Value> := map[];
    var todo := b.attrs.Keys;
    while todo != {}
      invariant todo <= b.attrs.Keys
      invariant forall k :: k in b.attrs.Keys - todo && Kept(k, b.attrs[k]) ==>
        SerializeValue(k, b.attrs[k]).Ok?
      invariant result == map k | k in b.attrs.Keys - todo && Kept(k, b.attrs[k]) ::
        SerializeValue(k, b.attrs[k]).value
      decreases todo
    {
      var key :| key in todo;
      var val := b.attrs[key];
      if Kept(key, val) {
        var s := SerializeValue(key, val);
        if s.Err? {
          assert !(forall k | k in b.attrs :: Kept(k, b.attrs[k]) ==> SerializeValue(k, b.attrs[k]).Ok?);
          return Err(AttributeError);
        }
        result := result[key := s.value];
      }
      todo := todo - {key};
    }
    assert b.attrs.Keys - todo == b.attrs.Keys;
    r := Ok(result);
  }

  /** `BatteryData.load` once the file is unpickled: `BatteryData(**obj)`. */
  function Load(obj: map<string, Value>): (r: Result<Battery, Exception>)
    ensures r.Ok? <==> CellIdKey in obj && !Lookup(obj, SeriesKey, VNone).VSeries?
    ensures r.Ok? ==> forall k :: k in obj && k != SeriesKey ==> k in r.value.attrs && r.value.attrs[k] == obj[k]
    ensures r.Ok? && Lookup(obj, SeriesKey, VNone) != VNone ==>
      SeriesKey in r.value.attrs && r.value.attrs[SeriesKey] == obj[SeriesKey]
  {
    assert forall k :: k in obj && k != SeriesKey ==> k in Extras(obj) || k in Named;
    Init(obj)
  }

  // ---------------------------------------------------------------- dump and load by path

  /**
    `battery.dump(path)`: the file is opened (and truncated) before `to_dict` runs, so a
    failing `to_dict` leaves an empty file behind. `pickleSize` is the byte count pickle
    produces for a dictionary.
  */
  function Dump(disk: Disk, path: string, b: Battery, pickleSize: map<string, Value> -> nat):
    (r: (Disk, Result<map<string, Value>, Exception>))
    ensures r.1 == Serialize(b.attrs)
    ensures r.1.Ok? ==> r.0 == Write(disk, path, Blob(pickleSize(r.1.value), Record(r.1.value)))
    ensures r.1.Err? ==> r.0 == Write(disk, path, Blob(0, Opaque))
  {
    match Serialize(b.attrs)
    case Ok(d) => (Write(disk, path, Blob(pickleSize(d), Record(d))), Ok(d))
    case Err(e) => (Write(disk, path, Blob(0, Opaque)), Err(e))
  }

  /** `BatteryData.load(path)`: unpickle the file and rebuild the record. */
  function LoadFile(disk: Disk, path: string): (r: Result<Battery, Exception>)
    ensures !Exists(disk, path) ==> r == Err(ReadError(path))
    ensures Exists(disk, path) && disk[Collapse(path)].payload.Record? ==>
      r == Load(disk[Collapse(path)].payload.entries)
  {
    if !Exists(disk, path) then Err(ReadError(path))
    else match disk[Collapse(path)].payload
      case Record(d) => Load(d)
      case _ => Err(ReadError(path))
  }

  // ================================================================ serialise / rebuild

  /** A dictionary `to_dict` maps to itself: what a non-expanding serialisation produces. */
  predicate Settled(d: map<string, Value>) {
    forall k :: k in d ==> Kept(k, d[k]) && !Expands(k) && !d[k].VTs? && !d[k].VSeries?
  }

  lemma SettledIsFixed(d: map<string, Value>)
    requires Settled(d)
    ensures Serialize(d) == Ok(d)
  {
    assert forall k :: k in d ==> SerializeValue(k, d[k]) == Ok(d[k]);
    assert (map k | k in d && Kept(k, d[k]) :: SerializeValue(k, d[k]).value) == d;
  }

  /** A string lacking one of the characters of `sub` does not contain `sub`. */
  lemma MissingCharNotContained(s: string, sub: string, c: char)
    requires c in sub && c !in s
    ensures !Contains(s, sub)
  {
    forall i | 0 <= i <= |s| - |sub|
      ensures !OccursAt(s, sub, i)
    {
      var j :| 0 <= j < |sub| && sub[j] == c;
      assert s[i..i + |sub|][j] == s[i + j];
    }
  }

  /** A key that does not start with '_', is not `cycle_data` and lacks a letter of "protocol". */
  lemma PlainKey(k: string, c: char)
    requires k != [] && k[0] != '_' && k != "cycle_data"
    requires c in "protocol" && c !in k
    ensures !StartsWith(k, "_") && !Expands(k)
  {
    MissingCharNotContained(k, "protocol", c);
  }

  /** The named parameters are the parameters but `timeseries_data`; `time_in_s` is none of them. */
  lemma KeySetFacts()
    ensures Parameters == Named + {SeriesKey} && SeriesKey !in Named && SeriesKey in Parameters
    ensures CellIdKey in Named && TimeKey !in Parameters
  {
  }

  /** The named parameters spelt without a 'p'. */
  lemma KeyFactsWithoutP(k: string)
    requires k in Parameters && k != "battery_type" && k != "description" && k != "nominal_capacity_in_Ah"
    ensures !StartsWith(k, "_") && !Expands(k) && k != TimeKey && k != TempKey
  {
    assert "protocol"[0] == 'p';
    PlainKey(k, 'p');
  }

  /** The three named parameters spelt with a 'p'. */
  lemma KeyFactsWithP(k: string)
    requires k == "battery_type" || k == "description" || k == "nominal_capacity_in_Ah"
    ensures !StartsWith(k, "_") && !Expands(k) && k != TimeKey && k != TempKey
  {
    assert "protocol"[1] == 'r' && "protocol"[7] == 'l';
    if k == "nominal_capacity_in_Ah" {
      PlainKey(k, 'r');
    } else {
      PlainKey(k, 'l');
    }
  }

  /** The named parameters are kept by `to_dict` and never expanded. */
  lemma ParameterKeyFacts(k: string)
    requires k in Parameters
    ensures !StartsWith(k, "_") && !Expands(k) && k != TimeKey && k != TempKey
  {
    if k == "battery_type" || k == "description" || k == "nominal_capacity_in_Ah" {
      KeyFactsWithP(k);
    } else {
      KeyFactsWithoutP(k);
    }
  }

  /** No named parameter is given a callable (which `to_dict` would drop). */
  predicate NamedNotCallable(args: map<string, Value>) {
    forall k :: k in args && k in Parameters ==> !args[k].VCallable?
  }

  /** No keyword names `cycle_data` or contains "protocol". */
  predicate NoExpandingKeys(args: map<string, Value>) {
    forall k :: k in args ==> !Expands(k)
  }

  /** A map is the union of its part on `named`, its entry at `s` and the rest. */
  lemma MapPartition(d: map<string, Value>, named: set<string>, s: string, params: set<string>,
                     dflt: string -> Value)
    requires named <= d.Keys && s !in named && params == named + {s}
    ensures (map k | k in named :: Lookup(d, k, dflt(k)))
      + (if s in d then map[s := d[s]] else map[])
      + (d - params) == d
  {
  }

  /** The `timeseries_data` attribute rebuilt from a dictionary that holds its value as is. */
  function SeriesEntry(d: map<string, Value>): map<string, Value> {
    if SeriesKey in d then map[SeriesKey := d[SeriesKey]] else map[]
  }

  /** The attribute dictionary rebuilt from `d`, as its three parts. */
  lemma RebuildParts(d: map<string, Value>)
    requires CellIdKey in d
    requires SeriesKey in d ==> d[SeriesKey] != VNone && !d[SeriesKey].VSeries?
    requires SeriesKey !in d ==> TimeKey !in d
    ensures Init(d) == Ok(Battery(NamedAttrs(d) + SeriesEntry(d) + Extras(d)))
  {
    assert SeriesAttr(d) == Ok(SeriesEntry(d));
  }

  /** The three parts put back together are the dictionary itself. */
  lemma RebuildWhole(d: map<string, Value>)
    requires Named <= d.Keys
    ensures NamedAttrs(d) + SeriesEntry(d) + Extras(d) == d
  {
    KeySetFacts();
    MapPartition(d, Named, SeriesKey, Parameters, Default);
  }

  /**
    A dictionary holding every named field and no Series, whose `timeseries_data` is
    present (and not `None`) whenever `time_in_s` is, is rebuilt by `load` exactly.
  */
  lemma RebuildExact(d: map<string, Value>)
    requires Named <= d.Keys
    requires SeriesKey in d ==> d[SeriesKey] != VNone && !d[SeriesKey].VSeries?
    requires SeriesKey !in d ==> TimeKey !in d
    ensures Load(d) == Ok(Battery(d))
  {
    KeySetFacts();
    RebuildParts(d);
    RebuildWhole(d);
  }

  /** Without expanding keys, `to_dict` succeeds and its result is settled. */
  lemma SerializeSettles(attrs: map<string, Value>)
    requires forall k :: k in attrs ==> !Expands(k)
    ensures Serialize(attrs).Ok? && Settled(Serialize(attrs).value)
  {
    assert forall k :: k in attrs && Kept(k, attrs[k]) ==> SerializeValue(k, attrs[k]).Ok?;
  }

  /** No attribute of a constructed record expands, when no keyword does. */
  lemma InitNoExpand(args: map<string, Value>)
    requires Init(args).Ok? && NoExpandingKeys(args)
    ensures forall k :: k in Init(args).value.attrs ==> !Expands(k)
  {
    forall k | k in Init(args).value.attrs
      ensures !Expands(k)
    {
      if k in Parameters { ParameterKeyFacts(k); }
    }
  }

  /** Every named attribute is kept by `to_dict`, when none is callable. */
  lemma InitNamedKept(args: map<string, Value>)
    requires Init(args).Ok? && NamedNotCallable(args)
    ensures forall k :: k in Named ==> k in Init(args).value.attrs && Kept(k, Init(args).value.attrs[k])
  {
    forall k | k in Named
      ensures k in Init(args).value.attrs && Kept(k, Init(args).value.attrs[k])
    {
      ParameterKeyFacts(k);
    }
  }

  /** The `timeseries_data` attribute is kept, is never `None`, and is set whenever `time_in_s` is. */
  lemma InitSeries(args: map<string, Value>)
    requires Init(args).Ok? && NamedNotCallable(args)
    ensures var attrs := Init(args).value.attrs;
      && (SeriesKey in attrs ==>
            Kept(SeriesKey, attrs[SeriesKey]) && attrs[SeriesKey] != VNone && !attrs[SeriesKey].VSeries?)
      && (TimeKey in attrs ==> SeriesKey in attrs)
  {
    var ts := SeriesAttr(args).value;
    var attrs := Init(args).value.attrs;
    assert attrs == NamedAttrs(args) + ts + Extras(args);
    if SeriesKey in attrs {
      assert SeriesKey in ts && attrs[SeriesKey] == ts[SeriesKey] by { KeySetFacts(); }
      KeySetFacts();
      ParameterKeyFacts(SeriesKey);
    }
    if TimeKey in attrs {
      assert TimeKey in ts || TimeKey in args by { KeySetFacts(); }
    }
  }

  /**
    Serialise, rebuild, serialise: when no key is `cycle_data` or mentions "protocol" and
    no named field is callable, `to_dict` succeeds, the rebuilt record's attributes are
    exactly the serialised dictionary (so serialising it again gives the same dictionary),
    and every kept attribute that is not a channel object or a Series comes back unchanged:
    cell id, organisation, health label and all metadata.
  */
  lemma SerializeRebuildSerialize(args: map<string, Value>)
    requires Init(args).Ok?
    requires NamedNotCallable(args)
    requires NoExpandingKeys(args)
    ensures Serialize(Init(args).value.attrs).Ok?
    ensures var d := Serialize(Init(args).value.attrs).value;
      && Load(d) == Ok(Battery(d))
      && Serialize(Load(d).value.attrs) == Ok(d)
    ensures var attrs := Init(args).value.attrs;
      forall k :: k in attrs && Kept(k, attrs[k]) && !attrs[k].VTs? && !attrs[k].VSeries? ==>
        Load(Serialize(attrs).value).value.attrs[k] == attrs[k]
  {
    var attrs := Init(args).value.attrs;
    InitNoExpand(args);
    InitNamedKept(args);
    InitSeries(args);
    SerializeSettles(attrs);
    var d := Serialize(attrs).value;
    assert Named <= d.Keys;
    assert SeriesKey in d ==> d[SeriesKey] != VNone && !d[SeriesKey].VSeries?;
    assert SeriesKey !in d ==> TimeKey !in d;
    RebuildExact(d);
    SettledIsFixed(d);
  }

  /** `cycle_data` is an extra keyword, kept and expanded by `to_dict`. */
  lemma CycleKeyFacts()
    ensures !StartsWith("cycle_data", "_") && Expands("cycle_data") && "cycle_data" !in Parameters
  {
    assert "cycle_data"[0] == 'c';
  }

  /** A `cycle_data` list of dictionaries cannot be serialised: a dict has no `to_dict`. */
  lemma SerializedCycleDataFails(d: map<string, Value>, m: map<string, Value>)
    requires "cycle_data" in d && d["cycle_data"] == VList([VDict(m)])
    ensures Serialize(d).Err?
  {
    CycleKeyFacts();
    assert SerializeValue("cycle_data", d["cycle_data"]).Err?;
  }

  /** `to_dict` of a record whose only extra attribute is a one-channel `cycle_data` list. */
  lemma SerializeCycleData(attrs: map<string, Value>, t: Timeseries)
    requires forall k :: k in attrs ==> k == "cycle_data" || k in Parameters
    requires "cycle_data" in attrs && attrs["cycle_data"] == VList([VTs(t)])
    requires CellIdKey in attrs && attrs[CellIdKey].VStr?
    requires SeriesKey !in attrs
    ensures Serialize(attrs).Ok?
    ensures var d := Serialize(attrs).value;
      && "cycle_data" in d && d["cycle_data"] == VList([VDict(TimeseriesToDict(t))])
      && CellIdKey in d && SeriesKey !in d && TimeKey !in d
  {
    CycleKeyFacts();
    ParameterKeyFacts(CellIdKey);
    var each := EachToDict([VTs(t)]);
    assert each.Ok? && |each.value| == 1;
    assert each.value == [VDict(TimeseriesToDict(t))];
    assert SerializeValue("cycle_data", VList([VTs(t)])) == Ok(VList([VDict(TimeseriesToDict(t))]));
    forall k | k in attrs && Kept(k, attrs[k])
      ensures SerializeValue(k, attrs[k]).Ok?
    {
      if k in Parameters {
        ParameterKeyFacts(k);
      }
    }
    assert TimeKey !in attrs;
  }

  /** Rebuilding a dictionary without channel keywords keeps every extra entry as it is. */
  lemma LoadKeepsExtra(d: map<string, Value>, k: string)
    requires CellIdKey in d && SeriesKey !in d && TimeKey !in d
    requires k in d && k !in Parameters
    ensures Load(d).Ok? && k in Load(d).value.attrs && Load(d).value.attrs[k] == d[k]
  {
    assert SeriesAttr(d) == Ok(map[]);
    assert k in Extras(d);
  }

  /**
    A record with `cycle_data` is not a fixed point: its elements become dictionaries,
    which have no `to_dict`, so serialising the rebuilt record raises.
  */
  lemma CycleDataBreaksRebuild(id: string)
    ensures var ch := VTs(Timeseries(VNone, VNone, map[]));
      var args := map[CellIdKey := VStr(id), "cycle_data" := VList([ch])];
      && Init(args).Ok?
      && Serialize(Init(args).value.attrs).Ok?
      && Load(Serialize(Init(args).value.attrs).value).Ok?
      && Serialize(Load(Serialize(Init(args).value.attrs).value).value.attrs).Err?
  {
    var t := Timeseries(VNone, VNone, map[]);
    var args := map[CellIdKey := VStr(id), "cycle_data" := VList([VTs(t)])];
    CycleKeyFacts();
    assert SeriesKey !in args && TimeKey !in args;
    assert SeriesAttr(args) == Ok(map[]);
    assert "cycle_data" in Extras(args);
    var attrs := Init(args).value.attrs;
    SerializeCycleData(attrs, t);
    var d := Serialize(attrs).value;
    LoadKeepsExtra(d, "cycle_data");
    SerializedCycleDataFails(Load(d).value.attrs, TimeseriesToDict(t));
  }

  /**
    The round trip through a file: after a successful `dump`, `load` of the same path
    rebuilds a record whose attributes are the serialised dictionary.
  */
  lemma DumpLoadRoundTrip(disk: Disk, path: string, args: map<string, Value>, pickleSize: map<string, Value> -> nat)
    requires Init(args).Ok?
    requires NamedNotCallable(args)
    requires NoExpandingKeys(args)
    ensures var r := Dump(disk, path, Init(args).value, pickleSize);
      && r.1.Ok?
      && LoadFile(r.0, path) == Ok(Battery(r.1.value))
  {
    SerializeRebuildSerialize(args);
  }
}

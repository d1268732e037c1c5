/**
  The parameter bookkeeping of `MyKerasClassifier` in `classifiers/keras.py`: the four
  wrapper parameters live in attributes, every other parameter is kept for the model
  builder in `_build_params`.
*/
module Keras {
  import opened Values

  /** `keras_keys`, in the order `set_params` assigns them. */
  const KerasKeys: seq<string> := ["batch_size", "epochs", "verbose", "build_fn"]

  const KerasKeySet: set<string> := {"batch_size", "epochs", "verbose", "build_fn"}

  predicate IsKerasKey(k: string) {
    k in KerasKeySet
  }

  /** `params.get(key, default)`. */
  function GetOr(params: map<string, Value>, key: string, default: Value): (v: Value)
    ensures key in params ==> v == params[key]
    ensures key !in params ==> v == default
  {
    if key in params then params[key] else default
  }

  /** The maps the first loop of `set_params` keeps, one key further on. */
  lemma MoveStep(base: map<string, Value>, params: map<string, Value>, todo: set<string>, key: string)
    requires key in todo && todo <= params.Keys
    ensures var done := map k | k in params.Keys - todo && !IsKerasKey(k) :: params[k];
      var done' := map k | k in params.Keys - (todo - {key}) && !IsKerasKey(k) :: params[k];
      (!IsKerasKey(key) ==> (base + done)[key := params[key]] == base + done') &&
      (IsKerasKey(key) ==> done == done')
    ensures var rest := map k | k in params.Keys && (k in todo || IsKerasKey(k)) :: params[k];
      var rest' := map k | k in params.Keys && (k in todo - {key} || IsKerasKey(k)) :: params[k];
      (!IsKerasKey(key) ==> (map k | k in rest && k != key :: rest[k]) == rest') &&
      (IsKerasKey(key) ==> rest == rest')
  {
  }

  /**
    Setting parameters and reading them back: when the wrapper values `wrappers` and the
    builder's parameters `build` have disjoint keys, giving the wrapper keys of `params`
    to the wrappers and the other keys to the builder, then merging, is the same as
    overlaying `params` on the merge.
  */
  lemma SetThenGet(keys: set<string>, wrappers: map<string, Value>, build: map<string, Value>,
                   params: map<string, Value>)
    requires wrappers.Keys == keys && build.Keys !! keys
    ensures (map k | k in keys :: GetOr(params, k, wrappers[k])) + (build + map k | k in params && k !in keys :: params[k])
         == wrappers + build + params
  {
  }

  /** The wrapper part of the `get_params` dictionary. */
  function Attrs(buildFn: Value, batchSize: Value, epochs: Value, verbose: Value): (r: map<string, Value>)
    ensures r.Keys == KerasKeySet
  {
    map["build_fn" := buildFn, "batch_size" := batchSize, "epochs" := epochs, "verbose" := verbose]
  }

  /** Assigning each wrapper attribute `params.get(k, old)` overlays the wrapper part with `params`. */
  lemma AttrsOverlay(buildFn: Value, batchSize: Value, epochs: Value, verbose: Value, params: map<string, Value>)
    ensures Attrs(GetOr(params, "build_fn", buildFn), GetOr(params, "batch_size", batchSize),
                  GetOr(params, "epochs", epochs), GetOr(params, "verbose", verbose))
         == map k | k in KerasKeySet :: GetOr(params, k, Attrs(buildFn, batchSize, epochs, verbose)[k])
  {
  }

  class KerasClassifier {
    var buildFn: Value
    var batchSize: Value
    var epochs: Value
    var verbose: Value
    /** `model_`: `VNone` until a model is fitted. */
    var model: Value
    var buildParams: map<string, Value>

    /** No wrapper parameter is ever kept for the builder. */
    ghost predicate Valid()
      reads this
    {
      forall k :: k in buildParams ==> !IsKerasKey(k)
    }

    /** `__init__(build_fn, batch_size=32, epochs=10, verbose=0)`. */
    constructor(buildFn: Value, batchSize: Value := VInt(32), epochs: Value := VInt(10), verbose: Value := VInt(0))
      ensures Valid()
      ensures this.buildFn == buildFn && this.batchSize == batchSize
      ensures this.epochs == epochs && this.verbose == verbose
      ensures model == VNone && buildParams == map[]
    {
      this.buildFn := buildFn;
      this.batchSize := batchSize;
      this.epochs := epochs;
      this.verbose := verbose;
      model := VNone;
      buildParams := map[];
    }

    /** `getattr(self, k)` for a wrapper key. */
    function Attr(k: string): (v: Value)
      reads this
      requires IsKerasKey(k)
    {
      if k == "batch_size" then batchSize
      else if k == "epochs" then epochs
      else if k == "verbose" then verbose
      else buildFn
    }

    /** `setattr(self, k, v)` for a wrapper key. */
    method SetAttr(k: string, v: Value)
      requires IsKerasKey(k)
      modifies this
      ensures Attr(k) == v
      ensures forall k' :: IsKerasKey(k') && k' != k ==> Attr(k') == old(Attr(k'))
      ensures buildParams == old(buildParams) && model == old(model)
    {
      if k == "batch_size" {
        batchSize := v;
      } else if k == "epochs" {
        epochs := v;
      } else if k == "verbose" {
        verbose := v;
      } else {
        buildFn := v;
      }
    }

    /**
      `get_params()`: the four wrapper parameters merged with the builder's, whose
      entries would win on a clash.
    */
    function GetParams(): (r: map<string, Value>)
      reads this
      ensures r.Keys == buildParams.Keys + KerasKeySet
      ensures forall k :: k in buildParams ==> r[k] == buildParams[k]
      ensures Valid() ==> forall k :: IsKerasKey(k) ==> r[k] == Attr(k)
    {
      Attrs(buildFn, batchSize, epochs, verbose) + buildParams
    }

    /** The first loop of `set_params`: pop every non-wrapper parameter into `_build_params`. */
    method MoveBuildParams(params: map<string, Value>) returns (rest: map<string, Value>)
      requires Valid()
      modifies this
      ensures Valid()
      ensures buildParams == old(buildParams) + map k | k in params && k !in KerasKeySet :: params[k]
      ensures rest == map k | k in params && IsKerasKey(k) :: params[k]
      ensures batchSize == old(batchSize) && epochs == old(epochs) && verbose == old(verbose)
      ensures buildFn == old(buildFn) && model == old(model)
    {
      rest := params;
      var todo := params.Keys;
      while todo != {}
        invariant todo <= params.Keys
        invariant buildParams == old(buildParams) + map k | k in params.Keys - todo && !IsKerasKey(k) :: params[k]
        invariant rest == map k | k in params.Keys && (k in todo || IsKerasKey(k)) :: params[k]
        invariant Valid()
        invariant batchSize == old(batchSize) && epochs == old(epochs) && verbose == old(verbose)
        invariant buildFn == old(buildFn) && model == old(model)
        decreases todo
      {
        var key :| key in todo;
        MoveStep(old(buildParams), params, todo, key);
        if !IsKerasKey(key) {
          buildParams := buildParams[key := rest[key]];
          rest := map k | k in rest && k != key :: rest[k];
        }
        todo := todo - {key};
      }
    }

    /** The second loop of `set_params`: each wrapper attribute takes its value from `rest`, if there. */
    method AssignWrappers(rest: map<string, Value>)
      modifies this
      ensures batchSize == GetOr(rest, "batch_size", old(batchSize))
      ensures epochs == GetOr(rest, "epochs", old(epochs))
      ensures verbose == GetOr(rest, "verbose", old(verbose))
      ensures buildFn == GetOr(rest, "build_fn", old(buildFn))
      ensures buildParams == old(buildParams) && model == old(model)
    {
      for i := 0 to |KerasKeys|
        invariant buildParams == old(buildParams) && model == old(model)
        invariant forall j :: 0 <= j < i ==> Attr(KerasKeys[j]) == GetOr(rest, KerasKeys[j], old(Attr(KerasKeys[j])))
        invariant forall j :: i <= j < |KerasKeys| ==> Attr(KerasKeys[j]) == old(Attr(KerasKeys[j]))
      {
        SetAttr(KerasKeys[i], GetOr(rest, KerasKeys[i], Attr(KerasKeys[i])));
      }
      assert Attr(KerasKeys[0]) == batchSize && Attr(KerasKeys[1]) == epochs;
      assert Attr(KerasKeys[2]) == verbose && Attr(KerasKeys[3]) == buildFn;
    }

    /**
      `set_params(**params)`: every non-wrapper parameter is moved into the builder's
      parameters, overwriting an earlier value, then each wrapper attribute takes the
      given value or keeps its own. What `get_params` reports afterwards is what it
      reported before, overlaid with `params`.
    */
    method SetParams(params: map<string, Value>) returns (self: KerasClassifier)
      requires Valid()
      modifies this
      ensures self == this && Valid()
      ensures buildParams == old(buildParams) + map k | k in params && k !in KerasKeySet :: params[k]
      ensures batchSize == GetOr(params, "batch_size", old(batchSize))
      ensures epochs == GetOr(params, "epochs", old(epochs))
      ensures verbose == GetOr(params, "verbose", old(verbose))
      ensures buildFn == GetOr(params, "build_fn", old(buildFn))
      ensures model == old(model)
      ensures GetParams() == old(GetParams()) + params
    {
      var rest := MoveBuildParams(params);
      AssignWrappers(rest);
      self := this;
      ghost var wrappers := Attrs(old(buildFn), old(batchSize), old(epochs), old(verbose));
      ghost var moved := map k | k in params && k !in KerasKeySet :: params[k];
      AttrsOverlay(old(buildFn), old(batchSize), old(epochs), old(verbose), params);
      SetThenGet(KerasKeySet, wrappers, old(buildParams), params);
      assert GetParams() == (map k | k in KerasKeySet :: GetOr(params, k, wrappers[k])) + (old(buildParams) + moved);
    }
  }
}

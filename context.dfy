/**
 * The ambient request context: an immutable bag of values carrying the
 * namespace and the minimum read-model version of a request, and the
 * registered marshalers and unmarshalers that carry those values across a
 * process boundary as a string-keyed map.
 */
module Context {

  /** Context keys: the two the toolkit defines, and those of other packages. */
  datatype Key = NamespaceKey | MinVersionKey | OtherKey(name: string)

  datatype Value = Str(s: string) | Int(i: int)

  /** A context is the set of values attached to it; the background context has none. */
  type Context = map<Key, Value>

  const Background: Context := map[]

  const DefaultNamespace: string := "default"

  /** The keys under which the namespace and the minimum version are marshalled. */
  const NamespaceKeyStr: string := "eh_namespace"
  const MinVersionKeyStr: string := "eh_minversion"

  /** The context with the namespace set to `ns`; every other value is kept. */
  function NewContextWithNamespace(ctx: Context, ns: string): (c: Context)
    ensures NamespaceFromContext(c) == ns
    ensures MinVersionFromContext(c) == MinVersionFromContext(ctx)
    ensures forall k :: k != NamespaceKey ==> (k in c <==> k in ctx) && (k in ctx ==> c[k] == ctx[k])
  {
    ctx[NamespaceKey := Str(ns)]
  }

  /** The namespace of the context, or the default namespace when none is set. */
  function NamespaceFromContext(ctx: Context): (ns: string)
    ensures NamespaceKey !in ctx ==> ns == DefaultNamespace
    ensures ns == DefaultNamespace || (NamespaceKey in ctx && ctx[NamespaceKey] == Str(ns))
    ensures NamespaceKey in ctx && ctx[NamespaceKey].Str? ==> ns == ctx[NamespaceKey].s
  {
    if NamespaceKey in ctx && ctx[NamespaceKey].Str? then ctx[NamespaceKey].s else DefaultNamespace
  }

  /** The context with the minimum version set to `minVersion`; every other value is kept. */
  function NewContextWithMinVersion(ctx: Context, minVersion: int): (c: Context)
    ensures MinVersionFromContext(c) == (minVersion, true)
    ensures NamespaceFromContext(c) == NamespaceFromContext(ctx)
    ensures forall k :: k != MinVersionKey ==> (k in c <==> k in ctx) && (k in ctx ==> c[k] == ctx[k])
  {
    ctx[MinVersionKey := Int(minVersion)]
  }

  /** The minimum version of the context and true, or 0 and false when none is set. */
  function MinVersionFromContext(ctx: Context): (r: (int, bool))
    ensures r.1 ==> MinVersionKey in ctx && ctx[MinVersionKey] == Int(r.0)
    ensures !r.1 ==> r.0 == 0 && (MinVersionKey in ctx ==> !ctx[MinVersionKey].Int?)
  {
    if MinVersionKey in ctx && ctx[MinVersionKey].Int? then (ctx[MinVersionKey].i, true) else (0, false)
  }

  /** A marshalled context: values by string key. */
  type Values = map<string, Value>

  /** A marshaler adds the values it knows from the context to the map. */
  type Marshaler = (Context, Values) -> Values

  /** An unmarshaler restores the values it knows from the map into the context. */
  type Unmarshaler = (Context, Values) -> Context

  /** Copies a string value stored under `key` to `keyStr`, when the context holds one. */
  function StringMarshaler(key: Key, keyStr: string): Marshaler
  {
    (ctx: Context, vals: Values) => if key in ctx && ctx[key].Str? then vals[keyStr := ctx[key]] else vals
  }

  /** Copies an integer value stored under `key` to `keyStr`, when the context holds one. */
  function IntMarshaler(key: Key, keyStr: string): Marshaler
  {
    (ctx: Context, vals: Values) => if key in ctx && ctx[key].Int? then vals[keyStr := ctx[key]] else vals
  }

  /** Restores a string found under `keyStr` as the context value of `key`. */
  function StringUnmarshaler(key: Key, keyStr: string): Unmarshaler
  {
    (ctx: Context, vals: Values) => if keyStr in vals && vals[keyStr].Str? then ctx[key := vals[keyStr]] else ctx
  }

  /** Restores an integer found under `keyStr` as the context value of `key`. */
  function IntUnmarshaler(key: Key, keyStr: string): Unmarshaler
  {
    (ctx: Context, vals: Values) => if keyStr in vals && vals[keyStr].Int? then ctx[key := vals[keyStr]] else ctx
  }

  /** The two marshalers the toolkit registers itself. */
  function BuiltinMarshalers(): seq<Marshaler>
  {
    [StringMarshaler(NamespaceKey, NamespaceKeyStr), IntMarshaler(MinVersionKey, MinVersionKeyStr)]
  }

  function BuiltinUnmarshalers(): seq<Unmarshaler>
  {
    [StringUnmarshaler(NamespaceKey, NamespaceKeyStr), IntUnmarshaler(MinVersionKey, MinVersionKeyStr)]
  }

  /** Runs the marshalers in registration order over `vals`. */
  function MarshalAll(ms: seq<Marshaler>, ctx: Context, vals: Values): Values
    decreases |ms|
  {
    if ms == [] then vals else MarshalAll(ms[1..], ctx, ms[0](ctx, vals))
  }

  /** Runs the unmarshalers in registration order, threading the context. */
  function UnmarshalAll(us: seq<Unmarshaler>, vals: Values, ctx: Context): Context
    decreases |us|
  {
    if us == [] then ctx else UnmarshalAll(us[1..], vals, us[0](ctx, vals))
  }

  class ContextCodec {
    var marshalers: seq<Marshaler>
    var unmarshalers: seq<Unmarshaler>

    /** The registries start with the two built-in entries each. */
    constructor ()
      ensures marshalers == BuiltinMarshalers() && unmarshalers == BuiltinUnmarshalers()
      ensures |marshalers| == 2 && |unmarshalers| == 2
    {
      marshalers := BuiltinMarshalers();
      unmarshalers := BuiltinUnmarshalers();
    }

    method RegisterContextMarshaler(m: Marshaler)
      modifies this`marshalers
      ensures marshalers == old(marshalers) + [m]
      ensures |marshalers| == |old(marshalers)| + 1
    {
      marshalers := marshalers + [m];
    }

    method RegisterContextUnmarshaler(u: Unmarshaler)
      modifies this`unmarshalers
      ensures unmarshalers == old(unmarshalers) + [u]
      ensures |unmarshalers| == |old(unmarshalers)| + 1
    {
      unmarshalers := unmarshalers + [u];
    }

    /** Fills a new map by running every registered marshaler over it in turn. */
    method MarshalContext(ctx: Context) returns (vals: Values)
      ensures vals == MarshalAll(marshalers, ctx, map[])
    {
      vals := map[];
      var i := 0;
      while i < |marshalers|
        invariant 0 <= i <= |marshalers|
        invariant MarshalAll(marshalers[i..], ctx, vals) == MarshalAll(marshalers, ctx, map[])
      {
        assert marshalers[i..][1..] == marshalers[i + 1..];
        vals := marshalers[i](ctx, vals);
        i := i + 1;
      }
    }

    /** Builds a context from the background context by running every registered unmarshaler in turn. */
    method UnmarshalContext(vals: Values) returns (ctx: Context)
      ensures ctx == UnmarshalAll(unmarshalers, vals, Background)
    {
      ctx := Background;
      var i := 0;
      while i < |unmarshalers|
        invariant 0 <= i <= |unmarshalers|
        invariant UnmarshalAll(unmarshalers[i..], vals, ctx) == UnmarshalAll(unmarshalers, vals, Background)
      {
        assert unmarshalers[i..][1..] == unmarshalers[i + 1..];
        ctx := unmarshalers[i](ctx, vals);
        i := i + 1;
      }
    }
  }

  /** The background context has the default namespace and no minimum version. */
  lemma BackgroundDefaults()
    ensures NamespaceFromContext(Background) == DefaultNamespace
    ensures !MinVersionFromContext(Background).1
  {
  }

  /** A namespace or minimum version set on a context reads back unchanged. */
  lemma SetThenRead(ctx: Context, ns: string, v: int)
    ensures NamespaceFromContext(NewContextWithNamespace(ctx, ns)) == ns
    ensures MinVersionFromContext(NewContextWithMinVersion(ctx, v)) == (v, true)
  {
  }

  /** With the built-in registries, marshalling stores the namespace and minimum version under their keys. */
  lemma {:induction false} BuiltinMarshal(ctx: Context)
    ensures var vals := MarshalAll(BuiltinMarshalers(), ctx, map[]);
      && (NamespaceKeyStr in vals <==> NamespaceKey in ctx && ctx[NamespaceKey].Str?)
      && (NamespaceKeyStr in vals ==> vals[NamespaceKeyStr] == ctx[NamespaceKey])
      && (MinVersionKeyStr in vals <==> MinVersionKey in ctx && ctx[MinVersionKey].Int?)
      && (MinVersionKeyStr in vals ==> vals[MinVersionKeyStr] == ctx[MinVersionKey])
      && vals.Keys <= {NamespaceKeyStr, MinVersionKeyStr}
  {
    var ms := BuiltinMarshalers();
    var v1 := ms[0](ctx, map[]);
    var v2 := ms[1](ctx, v1);
    assert MarshalAll(ms[2..], ctx, v2) == v2;
    assert MarshalAll(ms[1..], ctx, v1) == v2;
  }

  /** With the built-in registries, unmarshalling reads the namespace and minimum version back. */
  lemma {:induction false} BuiltinUnmarshal(vals: Values)
    ensures var ctx := UnmarshalAll(BuiltinUnmarshalers(), vals, Background);
      && (NamespaceKeyStr in vals && vals[NamespaceKeyStr].Str? ==> NamespaceFromContext(ctx) == vals[NamespaceKeyStr].s)
      && (!(NamespaceKeyStr in vals && vals[NamespaceKeyStr].Str?) ==> NamespaceFromContext(ctx) == DefaultNamespace)
      && (MinVersionKeyStr in vals && vals[MinVersionKeyStr].Int? ==> MinVersionFromContext(ctx) == (vals[MinVersionKeyStr].i, true))
      && (!(MinVersionKeyStr in vals && vals[MinVersionKeyStr].Int?) ==> !MinVersionFromContext(ctx).1)
  {
    var us := BuiltinUnmarshalers();
    var c1 := us[0](Background, vals);
    var c2 := us[1](c1, vals);
    assert UnmarshalAll(us[2..], vals, c2) == c2;
    assert UnmarshalAll(us[1..], vals, c1) == c2;
  }

  /** The namespace and the minimum version survive a marshal/unmarshal round trip. */
  lemma BuiltinRoundTrip(ctx: Context)
    ensures var back := UnmarshalAll(BuiltinUnmarshalers(), MarshalAll(BuiltinMarshalers(), ctx, map[]), Background);
      NamespaceFromContext(back) == NamespaceFromContext(ctx) &&
      MinVersionFromContext(back) == MinVersionFromContext(ctx)
  {
    var vals := MarshalAll(BuiltinMarshalers(), ctx, map[]);
    BuiltinMarshal(ctx);
    BuiltinUnmarshal(vals);
  }

  /**
   * A further marshaler registered for a key of another package adds its entry
   * exactly when the context carries that value.
   */
  lemma {:induction false} RegisteredMarshaler(key: string, keyStr: string, ctx: Context)
    requires keyStr != NamespaceKeyStr && keyStr != MinVersionKeyStr
    ensures var vals := MarshalAll(BuiltinMarshalers() + [StringMarshaler(OtherKey(key), keyStr)], ctx, map[]);
      && (keyStr in vals <==> OtherKey(key) in ctx && ctx[OtherKey(key)].Str?)
      && (keyStr in vals ==> vals[keyStr] == ctx[OtherKey(key)])
  {
    var ms := BuiltinMarshalers() + [StringMarshaler(OtherKey(key), keyStr)];
    var v1 := ms[0](ctx, map[]);
    var v2 := ms[1](ctx, v1);
    var v3 := ms[2](ctx, v2);
    assert MarshalAll(ms[3..], ctx, v3) == v3;
    assert MarshalAll(ms[2..], ctx, v2) == v3;
    assert MarshalAll(ms[1..], ctx, v1) == v3;
    assert keyStr !in v2;
  }

  /**
   * A further unmarshaler registered for a key of another package sets that
   * value exactly when the map holds its entry.
   */
  lemma {:induction false} RegisteredUnmarshaler(key: string, keyStr: string, vals: Values)
    ensures var ctx := UnmarshalAll(BuiltinUnmarshalers() + [StringUnmarshaler(OtherKey(key), keyStr)], vals, Background);
      && (OtherKey(key) in ctx <==> keyStr in vals && vals[keyStr].Str?)
      && (OtherKey(key) in ctx ==> ctx[OtherKey(key)] == vals[keyStr])
  {
    var us := BuiltinUnmarshalers() + [StringUnmarshaler(OtherKey(key), keyStr)];
    var c1 := us[0](Background, vals);
    var c2 := us[1](c1, vals);
    var c3 := us[2](c2, vals);
    assert UnmarshalAll(us[3..], vals, c3) == c3;
    assert UnmarshalAll(us[2..], vals, c2) == c3;
    assert UnmarshalAll(us[1..], vals, c1) == c3;
    assert OtherKey(key) !in c2;
  }
}

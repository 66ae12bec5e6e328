/**
 What a container's environment is, after internal/podutils/env.go: a left fold over its `envFrom`
 sources, then over its `env` entries, then the service variables where there is still room.
 */
module EnvironmentSpec {
  import opened Options
  import opened Expansion
  import opened ExpansionLaws

  type Env = map<Bytes, Bytes>

  // ---------- What the program is given ----------

  /** How reading a config map or a secret ended. */
  datatype Fetched = Found(data: Env) | NotFound | Failed

  datatype Error =
    | ObjectNotFound(name: Bytes)
    | ReadFailed(name: Bytes)
    | KeyNotFound(name: Bytes, key: Bytes)
    | BadField(path: Bytes)
    | ServicesFailed

  datatype Result<+T> = Ok(value: T) | Err(error: Error)

  datatype ObjectRef = ObjectRef(name: Bytes, optional: Option<bool>)
  datatype KeyRef = KeyRef(name: Bytes, key: Bytes, optional: Option<bool>)

  /** A config map shadows a secret in the same source; a source may name neither. */
  datatype EnvFrom = EnvFrom(configMap: Option<ObjectRef>, secret: Option<ObjectRef>, prefix: Bytes)

  /** What `valueFrom` names, in the order the program looks. */
  datatype ValueFrom = ValueFrom(configMapKey: Option<KeyRef>, secretKey: Option<KeyRef>, field: Option<Bytes>)

  datatype EnvVar = EnvVar(name: Bytes, value: Bytes, valueFrom: Option<ValueFrom>)

  /** The cluster as it is during one call, and what counts as a name. */
  datatype World = World(
    configMaps: Bytes -> Fetched,
    secrets: Bytes -> Fetched,
    fields: Bytes -> Option<Bytes>,
    services: Option<Env>,
    valid: Bytes -> bool)

  // ---------- envFrom ----------

  function SourceData(w: World, from: EnvFrom): Fetched {
    match from
    case EnvFrom(Some(r), _, _) => w.configMaps(r.name)
    case EnvFrom(None, Some(r), _) => w.secrets(r.name)
    case EnvFrom(None, None, _) => Found(map[])
  }

  function SourceRef(from: EnvFrom): ObjectRef {
    if from.configMap.Some? then from.configMap.value else from.secret.GetOr(ObjectRef([], None))
  }

  function FailureOf(fetched: Fetched, name: Bytes): Error {
    if fetched.NotFound? then ObjectNotFound(name) else ReadFailed(name)
  }

  /** The data that takes part under a prefix: names that are valid once prefixed. */
  function Prefixed(prefix: Bytes, data: Env, valid: Bytes -> bool): Env {
    var names := set k | k in data && valid(prefix + k) :: prefix + k;
    assert forall k | k in data :: (prefix + k)[|prefix|..] == k;
    map n | n in names :: data[n[|prefix|..]]
  }

  /** What one source brings: nothing if it is optional and cannot be read. */
  function Supply(w: World, from: EnvFrom): Result<Env> {
    var fetched := SourceData(w, from);
    if fetched.Found? then Ok(Prefixed(from.prefix, fetched.data, w.valid))
    else if SourceRef(from).optional.GetOr(false) then Ok(map[])
    else Err(FailureOf(fetched, SourceRef(from).name))
  }

  function FoldSources(w: World, sources: seq<EnvFrom>): Result<Env> {
    if sources == [] then Ok(map[])
    else
      var before := FoldSources(w, sources[..|sources| - 1]);
      if before.Err? then before
      else
        var more := Supply(w, sources[|sources| - 1]);
        if more.Err? then more else Ok(before.value + more.value)
  }

  // ---------- env ----------

  function MappingFor(res: Env, svc: Env): Bytes -> Bytes {
    n => Resolve([res, svc], n)
  }

  function KeyValue(fetched: Fetched, ref: KeyRef): Result<Option<Bytes>> {
    if fetched.Found? && ref.key in fetched.data then Ok(Some(fetched.data[ref.key]))
    else if ref.optional.GetOr(false) then Ok(None)
    else if fetched.Found? then Err(KeyNotFound(ref.name, ref.key))
    else Err(FailureOf(fetched, ref.name))
  }

  /** The value of an entry, if it has one. */
  function ValueOf(w: World, v: EnvVar, mapping: Bytes -> Bytes): Result<Option<Bytes>> {
    match v.valueFrom
    case None => Ok(Some(Meaning(v.value, mapping)))
    case Some(ValueFrom(Some(ref), _, _)) => KeyValue(w.configMaps(ref.name), ref)
    case Some(ValueFrom(None, Some(ref), _)) => KeyValue(w.secrets(ref.name), ref)
    case Some(ValueFrom(None, None, Some(path))) =>
      if w.fields(path).Some? then Ok(w.fields(path)) else Err(BadField(path))
    case Some(ValueFrom(None, None, None)) => Ok(None)
  }

  /** The environment after the entries, each expanded against what came before it. */
  function FoldEntries(w: World, base: Env, svc: Env, vars: seq<EnvVar>): Result<Env> {
    if vars == [] then Ok(base)
    else
      var before := FoldEntries(w, base, svc, vars[..|vars| - 1]);
      if before.Err? then before else Assign(w, before.value, svc, vars[|vars| - 1])
  }

  function Assign(w: World, res: Env, svc: Env, v: EnvVar): Result<Env> {
    var value := ValueOf(w, v, MappingFor(res, svc));
    if value.Err? then Err(value.error)
    else if value.value.None? then Ok(res)
    else Ok(res[v.name := value.value.value])
  }

  // ---------- The whole ----------

  function Populated(w: World, sources: seq<EnvFrom>, vars: seq<EnvVar>): Result<Env> {
    var base := FoldSources(w, sources);
    if base.Err? then base
    else if w.services.None? then Err(ServicesFailed)
    else
      var own := FoldEntries(w, base.value, w.services.value, vars);
      if own.Err? then own else Ok(w.services.value + own.value)
  }

  /** A list of plain entries that spells out an environment. */
  predicate Lists(vars: seq<EnvVar>, env: Env) {
    && (forall i | 0 <= i < |vars| ::
          vars[i].valueFrom.None? && vars[i].name in env && vars[i].value == env[vars[i].name])
    && (forall i, j | 0 <= i < j < |vars| :: vars[i].name != vars[j].name)
    && (forall n | n in env :: exists i :: 0 <= i < |vars| && vars[i].name == n)
  }
}

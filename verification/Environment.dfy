/** Environment building as the program does it: a table filled step by step, and read while it is filled. */
module Environment {
  import opened Options
  import opened Expansion
  import opened ExpansionLaws
  import opened EnvironmentSpec

  /** A map that is shared: what is written through one name is read through another. */
  class Table {
    var entries: Env

    constructor ()
      ensures entries == map[]
    {
      entries := map[];
    }

    /** Copy in what a source holds, in no particular order. */
    method AddSource(prefix: Bytes, data: Env, valid: Bytes -> bool)
      modifies this
      ensures entries == old(entries) + Prefixed(prefix, data, valid)
    {
      hide Prefixed;
      var keys := data.Keys;
      NoKeysSupplyNothing(prefix, data - keys, valid);
      while keys != {}
        invariant keys <= data.Keys
        invariant entries == old(entries) + Prefixed(prefix, data - keys, valid)
        decreases keys
      {
        var key :| key in keys;
        PrefixedGrows(prefix, data, keys, key, valid);
        if valid(prefix + key) {
          entries := entries[prefix + key := data[key]];
        }
        keys := keys - {key};
      }
      assert data - keys == data;
    }
  }

  class Container {
    var envFrom: seq<EnvFrom>
    var env: seq<EnvVar>

    constructor (envFrom: seq<EnvFrom>, env: seq<EnvVar>)
      ensures this.envFrom == envFrom && this.env == env
    {
      this.envFrom := envFrom;
      this.env := env;
    }
  }

  /** Copy in a config map or a secret that was asked for; only an optional one may be missing. */
  method AddFetched(fetched: Fetched, ref: ObjectRef, prefix: Bytes, valid: Bytes -> bool, res: Table)
    returns (err: Option<Error>)
    modifies res
    ensures fetched.Found? ==> err.None? && res.entries == old(res.entries) + Prefixed(prefix, fetched.data, valid)
    ensures !fetched.Found? ==> res.entries == old(res.entries)
    ensures !fetched.Found? ==> err == if ref.optional == Some(true) then None else Some(FailureOf(fetched, ref.name))
  {
    if !fetched.Found? {
      if ref.optional.GetOr(false) {
        return None;
      }
      return Some(FailureOf(fetched, ref.name));
    }
    res.AddSource(prefix, fetched.data, valid);
    return None;
  }

  /** The environment that the `envFrom` sources give, later sources over earlier ones. */
  method MakeFromSources(w: World, sources: seq<EnvFrom>) returns (r: Result<Table>)
    ensures r.Ok? ==> fresh(r.value) && FoldSources(w, sources) == Ok(r.value.entries)
    ensures r.Err? ==> FoldSources(w, sources) == Err(r.error)
  {
    hide Prefixed;
    var res := new Table();
    for i := 0 to |sources|
      invariant FoldSources(w, sources[..i]) == Ok(res.entries)
    {
      var from := sources[i];
      assert sources[..i + 1][..i] == sources[..i];
      NoKeysSupplyNothing(from.prefix, map[], w.valid);
      assert res.entries + map[] == res.entries;
      var err := None;
      if from.configMap.Some? {
        err := AddFetched(w.configMaps(from.configMap.value.name), from.configMap.value, from.prefix, w.valid, res);
      } else if from.secret.Some? {
        err := AddFetched(w.secrets(from.secret.value.name), from.secret.value, from.prefix, w.valid, res);
      }
      if err.Some? {
        SourcesFailFast(w, sources, i + 1);
        return Err(err.value);
      }
    }
    assert sources[..|sources|] == sources;
    return Ok(res);
  }

  /** The value of one entry; `mapping` reads the table as it is now. */
  method EnvironmentVariableValue(w: World, v: EnvVar, mapping: Bytes ~> Bytes, ghost answers: Bytes -> Bytes)
    returns (r: Result<Option<Bytes>>)
    requires forall n :: mapping.requires(n) && mapping(n) == answers(n)
    ensures r == ValueOf(w, v, answers)
  {
    if v.valueFrom.None? {
      var value := Expand(v.value, mapping, answers);
      return Ok(Some(value));
    }
    var from := v.valueFrom.value;
    if from.configMapKey.Some? {
      r := ValueFromKey(w.configMaps(from.configMapKey.value.name), from.configMapKey.value);
    } else if from.secretKey.Some? {
      r := ValueFromKey(w.secrets(from.secretKey.value.name), from.secretKey.value);
    } else if from.field.Some? {
      var value := w.fields(from.field.value);
      r := if value.None? then Err(BadField(from.field.value)) else Ok(value);
    } else {
      r := Ok(None);
    }
  }

  method ValueFromKey(fetched: Fetched, ref: KeyRef) returns (r: Result<Option<Bytes>>)
    ensures r == KeyValue(fetched, ref)
  {
    var optional := ref.optional.GetOr(false);
    if !fetched.Found? {
      if optional {
        return Ok(None);
      }
      return Err(FailureOf(fetched, ref.name));
    }
    if ref.key !in fetched.data {
      if optional {
        return Ok(None);
      }
      return Err(KeyNotFound(ref.name, ref.key));
    }
    return Ok(Some(fetched.data[ref.key]));
  }

  /** Fill the table with the entries of `env`, and with service variables where no one claimed the name. */
  method MakeEnvironment(w: World, vars: seq<EnvVar>, res: Table) returns (err: Option<Error>)
    modifies res
    ensures w.services.None? ==> err == Some(ServicesFailed)
    ensures w.services.Some? ==>
      match FoldEntries(w, old(res.entries), w.services.value, vars)
      case Err(e) => err == Some(e)
      case Ok(own) => err.None? && res.entries == w.services.value + own
  {
    if w.services.None? {
      return Some(ServicesFailed);
    }
    var svc := w.services.value;
    var mapping := n reads res => Resolve([res.entries, svc], n);
    for i := 0 to |vars|
      invariant FoldEntries(w, old(res.entries), svc, vars[..i]) == Ok(res.entries)
    {
      assert vars[..i + 1][..i] == vars[..i];
      var val := EnvironmentVariableValue(w, vars[i], mapping, MappingFor(res.entries, svc));
      if val.Err? {
        EntriesFailFast(w, old(res.entries), svc, vars, i + 1);
        return Some(val.error);
      }
      if val.value.Some? {
        res.entries := res.entries[vars[i].name := val.value.value];
      }
    }
    assert vars[..|vars|] == vars;
    FillGaps(res, svc);
    return None;
  }

  method FillGaps(res: Table, svc: Env)
    modifies res
    ensures res.entries == svc + old(res.entries)
  {
    var keys := svc.Keys;
    while keys != {}
      invariant keys <= svc.Keys
      invariant res.entries == (svc - keys) + old(res.entries)
      decreases keys
    {
      var k :| k in keys;
      if k !in res.entries {
        res.entries := res.entries[k := svc[k]];
      }
      keys := keys - {k};
    }
    assert svc - keys == svc;
  }

  /** Spell an environment out as plain entries, in no particular order. */
  method ListEntries(env: Env) returns (vars: seq<EnvVar>)
    ensures Lists(vars, env) && |vars| == |env|
  {
    vars := [];
    var keys := env.Keys;
    while keys != {}
      invariant keys <= env.Keys && Lists(vars, env - keys) && |vars| + |keys| == |env|
      decreases keys
    {
      var k :| k in keys;
      ListsOneMore(vars, env - keys, k, env[k]);
      assert env - (keys - {k}) == (env - keys)[k := env[k]];
      vars := vars + [EnvVar(k, env[k], None)];
      keys := keys - {k};
    }
    assert env - keys == env;
  }

  /** A failure leaves the container as it was. */
  method PopulateContainer(w: World, c: Container) returns (err: Option<Error>)
    modifies c
    ensures match Populated(w, old(c.envFrom), old(c.env))
      case Ok(env) => err.None? && c.envFrom == [] && Lists(c.env, env)
      case Err(e) => err == Some(e) && unchanged(c)
  {
    var tmpEnv := MakeFromSources(w, c.envFrom);
    if tmpEnv.Err? {
      return Some(tmpEnv.error);
    }
    err := MakeEnvironment(w, c.env, tmpEnv.value);
    if err.Some? {
      return;
    }
    c.envFrom := [];
    c.env := ListEntries(tmpEnv.value.entries);
  }

  /** Populate containers in order, up to the first that fails. */
  method PopulateEach(w: World, cs: seq<Container>) returns (err: Option<Error>, ghost done: nat)
    requires forall i, j | 0 <= i < j < |cs| :: cs[i] != cs[j]
    modifies cs
    ensures done <= |cs| && (err.None? <==> done == |cs|)
    ensures forall i | 0 <= i < done ::
      var p := Populated(w, old(cs[i].envFrom), old(cs[i].env));
      p.Ok? && cs[i].envFrom == [] && Lists(cs[i].env, p.value)
    ensures forall i | done <= i < |cs| :: unchanged(cs[i])
    ensures err.Some? ==> Populated(w, old(cs[done].envFrom), old(cs[done].env)) == Err(err.value)
  {
    for i := 0 to |cs|
      invariant forall j | 0 <= j < i ::
        var p := Populated(w, old(cs[j].envFrom), old(cs[j].env));
        p.Ok? && cs[j].envFrom == [] && Lists(cs[j].env, p.value)
      invariant forall j | i <= j < |cs| :: unchanged(cs[j])
    {
      err := PopulateContainer(w, cs[i]);
      if err.Some? {
        return err, i;
      }
    }
    return None, |cs|;
  }

  /** Init containers first, then containers. */
  method PopulateEnvironmentVariables(w: World, inits: seq<Container>, mains: seq<Container>)
    returns (err: Option<Error>, ghost done: nat)
    requires var cs := inits + mains; forall i, j | 0 <= i < j < |cs| :: cs[i] != cs[j]
    modifies inits, mains
    ensures var cs := inits + mains;
      && done <= |cs| && (err.None? <==> done == |cs|)
      && (forall i | 0 <= i < done ::
            var p := Populated(w, old(cs[i].envFrom), old(cs[i].env));
            p.Ok? && cs[i].envFrom == [] && Lists(cs[i].env, p.value))
      && (forall i | done <= i < |cs| :: unchanged(cs[i]))
      && (err.Some? ==> Populated(w, old(cs[done].envFrom), old(cs[done].env)) == Err(err.value))
  {
    hide Populated, Lists;
    ghost var cs := inits + mains;
    assert forall i | 0 <= i < |inits| :: cs[i] == inits[i];
    assert forall i | 0 <= i < |mains| :: cs[|inits| + i] == mains[i];
    err, done := PopulateEach(w, inits);
    if err.Some? {
      return;
    }
    ghost var more;
    err, more := PopulateEach(w, mains);
    done := |inits| + more;
  }

  // ---------- What the loops rest on ----------

  lemma {:induction false} SourcesFailFast(w: World, sources: seq<EnvFrom>, i: nat)
    requires i <= |sources| && FoldSources(w, sources[..i]).Err?
    ensures FoldSources(w, sources) == FoldSources(w, sources[..i])
  {
    if i < |sources| {
      assert sources[..|sources| - 1][..i] == sources[..i];
      SourcesFailFast(w, sources[..|sources| - 1], i);
    } else {
      assert sources[..i] == sources;
    }
  }

  lemma {:induction false} EntriesFailFast(w: World, base: Env, svc: Env, vars: seq<EnvVar>, i: nat)
    requires i <= |vars| && FoldEntries(w, base, svc, vars[..i]).Err?
    ensures FoldEntries(w, base, svc, vars) == FoldEntries(w, base, svc, vars[..i])
  {
    if i < |vars| {
      assert vars[..|vars| - 1][..i] == vars[..i];
      EntriesFailFast(w, base, svc, vars[..|vars| - 1], i);
    } else {
      assert vars[..i] == vars;
    }
  }

  lemma ListsOneMore(vars: seq<EnvVar>, env: Env, name: Bytes, value: Bytes)
    requires Lists(vars, env) && name !in env
    ensures Lists(vars + [EnvVar(name, value, None)], env[name := value])
  {
    var longer, larger := vars + [EnvVar(name, value, None)], env[name := value];
    forall n | n in larger ensures exists i :: 0 <= i < |longer| && longer[i].name == n {
      if n in env {
        var i :| 0 <= i < |vars| && vars[i].name == n;
        assert longer[i].name == n;
      } else {
        assert longer[|vars|].name == n;
      }
    }
  }

  lemma NoKeysSupplyNothing(prefix: Bytes, data: Env, valid: Bytes -> bool)
    requires data == map[]
    ensures Prefixed(prefix, data, valid) == map[]
  {}

  lemma PrefixedGrows(prefix: Bytes, data: Env, keys: set<Bytes>, key: Bytes, valid: Bytes -> bool)
    requires key in keys && keys <= data.Keys
    ensures Prefixed(prefix, data - (keys - {key}), valid)
         == Prefixed(prefix, data - keys, valid) + if valid(prefix + key) then map[prefix + key := data[key]] else map[]
  {
    var before, after := data - keys, data - (keys - {key});
    var brought := if valid(prefix + key) then map[prefix + key := data[key]] else map[];
    var l, r := Prefixed(prefix, after, valid), Prefixed(prefix, before, valid) + brought;
    PrefixedMembers(prefix, before, valid);
    PrefixedMembers(prefix, after, valid);
    assert l.Keys == r.Keys;
  }

  lemma PrefixedMembers(prefix: Bytes, data: Env, valid: Bytes -> bool)
    ensures var p := Prefixed(prefix, data, valid);
      && (forall k | k in data && valid(prefix + k) :: prefix + k in p && p[prefix + k] == data[k])
      && forall n | n in p :: prefix <= n && n[|prefix|..] in data && valid(n) && n == prefix + n[|prefix|..]
  {
    assert forall k :: (prefix + k)[|prefix|..] == k;
  }
}

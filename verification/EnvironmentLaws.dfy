/** Where the variables of a finished environment come from, when building fails, and when it can be repeated. */
module EnvironmentLaws {
  import opened Options
  import opened Expansion
  import opened ExpansionLaws
  import opened EnvironmentSpec
  import opened Environment

  // ---------- Sources of one name ----------

  /** A source brings exactly its keys whose prefixed form is a valid name, under that form. */
  lemma PrefixedExactly(prefix: Bytes, data: Env, valid: Bytes -> bool, name: Bytes, value: Bytes)
    ensures var p := Prefixed(prefix, data, valid);
      (name in p && p[name] == value)
      <==> (valid(name) && exists k :: k in data && name == prefix + k && data[k] == value)
  {
    var p := Prefixed(prefix, data, valid);
    PrefixedMembers(prefix, data, valid);
    if name in p && p[name] == value {
      var k := name[|prefix|..];
      assert name == prefix + k && p[prefix + k] == data[k];
    }
  }

  predicate Brings(w: World, from: EnvFrom, name: Bytes) {
    Supply(w, from).Ok? && name in Supply(w, from).value
  }

  /** Whether an entry has a value does not depend on the variables before it. */
  predicate Yields(w: World, v: EnvVar) {
    var value := ValueOf(w, v, SyntaxWrap);
    value.Ok? && value.value.Some?
  }

  lemma YieldsAnyway(w: World, v: EnvVar, mapping: Bytes -> Bytes)
    ensures Yields(w, v) <==> ValueOf(w, v, mapping).Ok? && ValueOf(w, v, mapping).value.Some?
  {}

  function LastSource(w: World, sources: seq<EnvFrom>, name: Bytes): (j: int)
    ensures -1 <= j < |sources|
    ensures j >= 0 ==> Brings(w, sources[j], name)
    ensures forall k | j < k < |sources| :: !Brings(w, sources[k], name)
  {
    if sources == [] then -1
    else
      var n := |sources| - 1;
      if Brings(w, sources[n], name) then n else LastSource(w, sources[..n], name)
  }

  function LastEntry(w: World, vars: seq<EnvVar>, name: Bytes): (i: int)
    ensures -1 <= i < |vars|
    ensures i >= 0 ==> vars[i].name == name && Yields(w, vars[i])
    ensures forall k | i < k < |vars| && vars[k].name == name :: !Yields(w, vars[k])
  {
    if vars == [] then -1
    else
      var n := |vars| - 1;
      if vars[n].name == name && Yields(w, vars[n]) then n else LastEntry(w, vars[..n], name)
  }

  function Lookup(env: Env, name: Bytes): Option<Bytes> {
    if name in env then Some(env[name]) else None
  }

  lemma {:induction false} SourcesLookup(w: World, sources: seq<EnvFrom>, name: Bytes)
    requires FoldSources(w, sources).Ok?
    ensures Lookup(FoldSources(w, sources).value, name) ==
      var j := LastSource(w, sources, name);
      if j >= 0 then Some(Supply(w, sources[j]).value[name]) else None
  {
    if sources == [] {
    } else {
      SourcesLookup(w, sources[..|sources| - 1], name);
    }
  }

  /** The value entry `i` is given: it is expanded against the entries before it only. */
  function GivenValue(w: World, base: Env, svc: Env, vars: seq<EnvVar>, i: nat): Option<Bytes>
    requires i < |vars|
  {
    var before := FoldEntries(w, base, svc, vars[..i]);
    if before.Err? then None
    else
      var value := ValueOf(w, vars[i], MappingFor(before.value, svc));
      if value.Err? then None else value.value
  }

  lemma {:induction false} EntriesLookup(w: World, base: Env, svc: Env, vars: seq<EnvVar>, name: Bytes)
    requires FoldEntries(w, base, svc, vars).Ok?
    ensures Lookup(FoldEntries(w, base, svc, vars).value, name) ==
      var i := LastEntry(w, vars, name);
      if i >= 0 then GivenValue(w, base, svc, vars, i) else Lookup(base, name)
  {
    hide Meaning, ValueOf;
    if vars == [] {
    } else {
      var n := |vars| - 1;
      var init := vars[..n];
      EntriesLookup(w, base, svc, init, name);
      YieldsAnyway(w, vars[n], MappingFor(FoldEntries(w, base, svc, init).value, svc));
      var i := LastEntry(w, init, name);
      if 0 <= i {
        assert init[..i] == vars[..i];
      }
    }
  }

  /** The last `env` entry with a value for the name decides, else the last source that brings it, else the services. */
  function Decided(w: World, sources: seq<EnvFrom>, vars: seq<EnvVar>, name: Bytes): Option<Bytes>
    requires Populated(w, sources, vars).Ok?
  {
    var i, j := LastEntry(w, vars, name), LastSource(w, sources, name);
    if i >= 0 then GivenValue(w, FoldSources(w, sources).value, w.services.value, vars, i)
    else if j >= 0 then Some(Supply(w, sources[j]).value[name])
    else Lookup(w.services.value, name)
  }

  /** The finished environment holds what is decided for each name, and a name decided by an entry is always there. */
  lemma FinalLookup(w: World, sources: seq<EnvFrom>, vars: seq<EnvVar>, name: Bytes)
    requires Populated(w, sources, vars).Ok?
    ensures Lookup(Populated(w, sources, vars).value, name) == Decided(w, sources, vars, name)
    ensures LastEntry(w, vars, name) >= 0 ==> name in Populated(w, sources, vars).value
  {
    SourcesLookup(w, sources, name);
    EntriesLookup(w, FoldSources(w, sources).value, w.services.value, vars, name);
    var i := LastEntry(w, vars, name);
    if i >= 0 {
      GivenValueExists(w, FoldSources(w, sources).value, w.services.value, vars, i);
    }
  }

  lemma GivenValueExists(w: World, base: Env, svc: Env, vars: seq<EnvVar>, i: nat)
    requires i < |vars| && Yields(w, vars[i]) && FoldEntries(w, base, svc, vars).Ok?
    ensures GivenValue(w, base, svc, vars, i).Some?
  {
    if FoldEntries(w, base, svc, vars[..i]).Err? {
      EntriesFailFast(w, base, svc, vars, i);
    }
  }

  /** Entries added at the end build on the environment of those before, and change none of their values. */
  lemma {:induction false} LaterEntriesBuildOn(w: World, base: Env, svc: Env, vars: seq<EnvVar>, more: seq<EnvVar>)
    ensures FoldEntries(w, base, svc, vars + more) ==
      var before := FoldEntries(w, base, svc, vars);
      if before.Err? then before else FoldEntries(w, before.value, svc, more)
    ensures forall i | 0 <= i < |vars| :: GivenValue(w, base, svc, vars + more, i) == GivenValue(w, base, svc, vars, i)
  {
    forall i | 0 <= i < |vars|
      ensures GivenValue(w, base, svc, vars + more, i) == GivenValue(w, base, svc, vars, i)
    {
      assert (vars + more)[..i] == vars[..i];
    }
    if more == [] {
      assert vars + more == vars;
    } else {
      var init := more[..|more| - 1];
      LaterEntriesBuildOn(w, base, svc, vars, init);
      assert (vars + more)[..|vars + more| - 1] == vars + init;
    }
  }

  // ---------- What an entry reads ----------

  /**
   The value a reference to `n` finds at entry `i`: that of the last entry before `i` that has one, else that of
   the last source that brings `n`, else the service variable, else the reference itself.
   */
  function FoundAt(w: World, sources: seq<EnvFrom>, vars: seq<EnvVar>, i: nat, n: Bytes): Bytes
    requires i <= |vars| && FoldSources(w, sources).Ok? && w.services.Some?
  {
    var base, svc := FoldSources(w, sources).value, w.services.value;
    var e, j := LastEntry(w, vars[..i], n), LastSource(w, sources, n);
    if e >= 0 then GivenValue(w, base, svc, vars, e).GetOr([])
    else if j >= 0 then Supply(w, sources[j]).value[n]
    else if n in svc then svc[n]
    else [0x24, 0x28] + n + [0x29]
  }

  lemma MappingFinds(w: World, sources: seq<EnvFrom>, vars: seq<EnvVar>, i: nat, n: Bytes)
    requires i <= |vars| && FoldSources(w, sources).Ok? && w.services.Some?
    requires FoldEntries(w, FoldSources(w, sources).value, w.services.value, vars[..i]).Ok?
    ensures var base, svc := FoldSources(w, sources).value, w.services.value;
      MappingFor(FoldEntries(w, base, svc, vars[..i]).value, svc)(n) == FoundAt(w, sources, vars, i, n)
  {
    hide ValueOf, Supply;
    var base, svc := FoldSources(w, sources).value, w.services.value;
    var before := FoldEntries(w, base, svc, vars[..i]).value;
    SourcesLookup(w, sources, n);
    EntriesLookup(w, base, svc, vars[..i], n);
    var e := LastEntry(w, vars[..i], n);
    if e >= 0 {
      GivenValueExists(w, base, svc, vars[..i], e);
      assert vars[..i][..e] == vars[..e];
    }
    FirstContextWins([before, svc], n, if n in before then 0 else if n in svc then 1 else 2);
  }

  /** Every plain entry is expanded with exactly those values. */
  lemma EntryReads(w: World, sources: seq<EnvFrom>, vars: seq<EnvVar>, i: nat, found: Bytes -> Bytes)
    requires i < |vars| && FoldSources(w, sources).Ok? && w.services.Some? && vars[i].valueFrom.None?
    requires FoldEntries(w, FoldSources(w, sources).value, w.services.value, vars[..i]).Ok?
    requires forall n :: found(n) == FoundAt(w, sources, vars, i, n)
    ensures GivenValue(w, FoldSources(w, sources).value, w.services.value, vars, i)
      == Some(Meaning(vars[i].value, found))
  {
    hide Meaning, FoundAt;
    var base, svc := FoldSources(w, sources).value, w.services.value;
    var mapping := MappingFor(FoldEntries(w, base, svc, vars[..i]).value, svc);
    forall n ensures mapping(n) == found(n) {
      MappingFinds(w, sources, vars, i, n);
    }
    AnswersDecide(vars[i].value, mapping, found);
  }

  /** So an entry that is one reference has the value that the reference finds. */
  lemma ReferenceReads(w: World, sources: seq<EnvFrom>, vars: seq<EnvVar>, i: nat, n: Bytes)
    requires i < |vars| && FoldSources(w, sources).Ok? && w.services.Some? && vars[i].valueFrom.None?
    requires FoldEntries(w, FoldSources(w, sources).value, w.services.value, vars[..i]).Ok?
    requires vars[i].value == [0x24, 0x28] + n + [0x29] && 0x29 !in n
    ensures GivenValue(w, FoldSources(w, sources).value, w.services.value, vars, i)
      == Some(FoundAt(w, sources, vars, i, n))
  {
    hide FoundAt, Meaning;
    var base, svc := FoldSources(w, sources).value, w.services.value;
    var mapping := MappingFor(FoldEntries(w, base, svc, vars[..i]).value, svc);
    MappingFinds(w, sources, vars, i, n);
    assert vars[i].value == [] + ([0x24, 0x28] + n + [0x29] + []);
    ReferenceIsReplaced([], n, [], mapping);
    LastOperatorIsCopied(mapping);
    assert [] + (mapping(n) + []) == mapping(n);
  }

  /** What is read under a key: the value, or nothing if that is allowed, or what is missing. */
  ghost predicate ReadsKey(fetched: Fetched, ref: KeyRef, r: Result<Option<Bytes>>) {
    match fetched
    case Found(data) =>
      if ref.key in data then r == Ok(Some(data[ref.key]))
      else r == if ref.optional == Some(true) then Ok(None) else Err(KeyNotFound(ref.name, ref.key))
    case NotFound => r == if ref.optional == Some(true) then Ok(None) else Err(ObjectNotFound(ref.name))
    case Failed => r == if ref.optional == Some(true) then Ok(None) else Err(ReadFailed(ref.name))
  }

  /** Where each kind of entry takes its value: a config map's key before a secret's, that before a field. */
  lemma EntryValueExactly(w: World, v: EnvVar, mapping: Bytes -> Bytes)
    ensures v.valueFrom.None? ==> ValueOf(w, v, mapping) == Ok(Some(Meaning(v.value, mapping)))
    ensures v.valueFrom.Some? ==>
      var from, r := v.valueFrom.value, ValueOf(w, v, mapping);
      && (from.configMapKey.Some? ==> ReadsKey(w.configMaps(from.configMapKey.value.name), from.configMapKey.value, r))
      && (from.configMapKey.None? && from.secretKey.Some? ==>
            ReadsKey(w.secrets(from.secretKey.value.name), from.secretKey.value, r))
      && (from.configMapKey.None? && from.secretKey.None? && from.field.Some? ==>
            var value := w.fields(from.field.value);
            r == if value.Some? then Ok(Some(value.value)) else Err(BadField(from.field.value)))
      && (from.configMapKey.None? && from.secretKey.None? && from.field.None? ==> r == Ok(None))
  {}

  /** What a reference to a config map or a secret brings: all its data under the prefix, nothing, or an error. */
  ghost predicate BringsData(w: World, prefix: Bytes, fetched: Fetched, ref: ObjectRef, r: Result<Env>) {
    match fetched
    case Found(data) =>
      && r.Ok?
      && (forall k | k in data && w.valid(prefix + k) :: prefix + k in r.value && r.value[prefix + k] == data[k])
      && forall name | name in r.value :: w.valid(name) && exists k :: k in data && name == prefix + k
    case NotFound => r == if ref.optional == Some(true) then Ok(map[]) else Err(ObjectNotFound(ref.name))
    case Failed => r == if ref.optional == Some(true) then Ok(map[]) else Err(ReadFailed(ref.name))
  }

  /** A source that names a config map brings that one's data, else a secret's, else nothing. */
  lemma SupplyExactly(w: World, from: EnvFrom)
    ensures from.configMap.Some? ==>
      BringsData(w, from.prefix, w.configMaps(from.configMap.value.name), from.configMap.value, Supply(w, from))
    ensures from.configMap.None? && from.secret.Some? ==>
      BringsData(w, from.prefix, w.secrets(from.secret.value.name), from.secret.value, Supply(w, from))
    ensures from.configMap.None? && from.secret.None? ==> Supply(w, from) == Ok(map[])
  {
    hide Prefixed;
    var fetched := SourceData(w, from);
    NoKeysSupplyNothing(from.prefix, map[], w.valid);
    if fetched.Found? {
      PrefixedMembers(from.prefix, fetched.data, w.valid);
      forall name | name in Prefixed(from.prefix, fetched.data, w.valid)
        ensures exists k :: k in fetched.data && name == from.prefix + k
      {
        assert name[|from.prefix|..] in fetched.data;
      }
    }
  }

  // ---------- Failure ----------

  predicate Unreadable(fetched: Fetched, ref: ObjectRef) {
    !fetched.Found? && ref.optional != Some(true)
  }

  /** A source names an object that cannot be read, and does not call it optional. */
  predicate SourceFails(w: World, from: EnvFrom) {
    match from
    case EnvFrom(Some(ref), _, _) => Unreadable(w.configMaps(ref.name), ref)
    case EnvFrom(None, Some(ref), _) => Unreadable(w.secrets(ref.name), ref)
    case EnvFrom(None, None, _) => false
  }

  predicate KeyMissing(fetched: Fetched, ref: KeyRef) {
    ref.optional != Some(true) && (fetched.Found? ==> ref.key !in fetched.data)
  }

  /** An entry names a key that is not there, and does not call it optional, or a field that has no value. */
  predicate EntryFails(w: World, v: EnvVar) {
    match v.valueFrom
    case None => false
    case Some(ValueFrom(Some(ref), _, _)) => KeyMissing(w.configMaps(ref.name), ref)
    case Some(ValueFrom(None, Some(ref), _)) => KeyMissing(w.secrets(ref.name), ref)
    case Some(ValueFrom(None, None, Some(path))) => w.fields(path).None?
    case Some(ValueFrom(None, None, None)) => false
  }

  lemma SourceFailsExactly(w: World, from: EnvFrom)
    ensures Supply(w, from).Err? <==> SourceFails(w, from)
  {}

  /** Whatever the variables before it are. */
  lemma EntryFailsExactly(w: World, v: EnvVar, mapping: Bytes -> Bytes)
    ensures ValueOf(w, v, mapping).Err? <==> EntryFails(w, v)
  {}

  lemma {:induction false} SourcesFailExactly(w: World, sources: seq<EnvFrom>)
    ensures FoldSources(w, sources).Err? <==> exists i :: 0 <= i < |sources| && SourceFails(w, sources[i])
  {
    hide Supply, SourceFails;
    if sources == [] {
    } else {
      var n := |sources| - 1;
      SourceFailsExactly(w, sources[n]);
      SourcesFailExactly(w, sources[..n]);
      assert forall i | 0 <= i < n :: sources[..n][i] == sources[i];
    }
  }

  lemma {:induction false} EntriesFailExactly(w: World, base: Env, svc: Env, vars: seq<EnvVar>)
    ensures FoldEntries(w, base, svc, vars).Err? <==> exists i :: 0 <= i < |vars| && EntryFails(w, vars[i])
  {
    hide ValueOf, EntryFails;
    if vars == [] {
    } else {
      var n := |vars| - 1;
      var before := FoldEntries(w, base, svc, vars[..n]);
      if before.Ok? { EntryFailsExactly(w, vars[n], MappingFor(before.value, svc)); }
      EntriesFailExactly(w, base, svc, vars[..n]);
      assert forall i | 0 <= i < n :: vars[..n][i] == vars[i];
    }
  }

  /** Building fails exactly when some source or entry does, or the services cannot be listed. */
  lemma FailsExactly(w: World, sources: seq<EnvFrom>, vars: seq<EnvVar>)
    ensures Populated(w, sources, vars).Err? <==>
      w.services.None?
      || (exists i :: 0 <= i < |sources| && SourceFails(w, sources[i]))
      || exists i :: 0 <= i < |vars| && EntryFails(w, vars[i])
  {
    SourcesFailExactly(w, sources);
    var base := FoldSources(w, sources);
    if base.Ok? && w.services.Some? {
      EntriesFailExactly(w, base.value, w.services.value, vars);
    }
  }

  /** The failure reported is the first: of the sources in order, then of the services, then of the entries in order. */
  lemma FirstFailureIsReported(w: World, sources: seq<EnvFrom>, vars: seq<EnvVar>)
    ensures forall i |
      0 <= i < |sources| && SourceFails(w, sources[i]) && (forall j | 0 <= j < i :: !SourceFails(w, sources[j])) ::
        Populated(w, sources, vars) == Supply(w, sources[i])
    ensures (forall j | 0 <= j < |sources| :: !SourceFails(w, sources[j])) && w.services.None? ==>
      Populated(w, sources, vars) == Err(ServicesFailed)
    ensures (forall j | 0 <= j < |sources| :: !SourceFails(w, sources[j])) && w.services.Some? ==>
      forall i | 0 <= i < |vars| && EntryFails(w, vars[i]) && (forall j | 0 <= j < i :: !EntryFails(w, vars[j])) ::
        var value := ValueOf(w, vars[i], SyntaxWrap);
        value.Err? && Populated(w, sources, vars) == Err(value.error)
  {
    hide Supply, ValueOf, SourceFails, EntryFails;
    SourcesFailExactly(w, sources);
    forall i |
      0 <= i < |sources| && SourceFails(w, sources[i]) && (forall j | 0 <= j < i :: !SourceFails(w, sources[j]))
      ensures Populated(w, sources, vars) == Supply(w, sources[i])
    {
      FirstSourceFails(w, sources, i);
    }
    var base := FoldSources(w, sources);
    if base.Ok? && w.services.Some? {
      forall i | 0 <= i < |vars| && EntryFails(w, vars[i]) && (forall j | 0 <= j < i :: !EntryFails(w, vars[j]))
        ensures ValueOf(w, vars[i], SyntaxWrap).Err?
        ensures Populated(w, sources, vars) == Err(ValueOf(w, vars[i], SyntaxWrap).error)
      {
        FirstEntryFails(w, base.value, w.services.value, vars, i);
      }
    }
  }

  lemma FirstSourceFails(w: World, sources: seq<EnvFrom>, i: nat)
    requires i < |sources| && SourceFails(w, sources[i]) && forall j | 0 <= j < i :: !SourceFails(w, sources[j])
    ensures FoldSources(w, sources) == Supply(w, sources[i]) && Supply(w, sources[i]).Err?
  {
    hide Supply, SourceFails;
    SourcesFailExactly(w, sources[..i]);
    SourceFailsExactly(w, sources[i]);
    assert sources[..i + 1][..i] == sources[..i];
    SourcesFailFast(w, sources, i + 1);
  }

  lemma FirstEntryFails(w: World, base: Env, svc: Env, vars: seq<EnvVar>, i: nat)
    requires i < |vars| && EntryFails(w, vars[i]) && forall j | 0 <= j < i :: !EntryFails(w, vars[j])
    ensures ValueOf(w, vars[i], SyntaxWrap).Err?
    ensures FoldEntries(w, base, svc, vars) == Err(ValueOf(w, vars[i], SyntaxWrap).error)
  {
    hide ValueOf, EntryFails;
    EntriesFailExactly(w, base, svc, vars[..i]);
    var mapping := MappingFor(FoldEntries(w, base, svc, vars[..i]).value, svc);
    EntryFailsExactly(w, vars[i], mapping);
    EntryFailsExactly(w, vars[i], SyntaxWrap);
    ErrorIsOwn(w, vars[i], mapping, SyntaxWrap);
    assert vars[..i + 1][..i] == vars[..i];
    EntriesFailFast(w, base, svc, vars, i + 1);
  }

  lemma ErrorIsOwn(w: World, v: EnvVar, mapping: Bytes -> Bytes, other: Bytes -> Bytes)
    ensures ValueOf(w, v, mapping).Err? ==> ValueOf(w, v, mapping) == ValueOf(w, v, other)
  {}

  // ---------- Doing it again ----------

  function AsMap(vars: seq<EnvVar>): Env {
    if vars == [] then map[]
    else
      var n := |vars| - 1;
      AsMap(vars[..n])[vars[n].name := vars[n].value]
  }

  predicate Plain(vars: seq<EnvVar>) {
    && (forall i | 0 <= i < |vars| :: vars[i].valueFrom.None?)
    && forall i, j | 0 <= i < j < |vars| :: vars[i].name != vars[j].name
  }

  lemma {:induction false} AsMapMembers(vars: seq<EnvVar>, name: Bytes)
    ensures name in AsMap(vars) <==> exists i :: 0 <= i < |vars| && vars[i].name == name
    ensures Plain(vars) ==> forall i | 0 <= i < |vars| && vars[i].name == name :: AsMap(vars)[name] == vars[i].value
  {
    if vars == [] {
    } else {
      var n := |vars| - 1;
      AsMapMembers(vars[..n], name);
      assert vars == vars[..n] + [vars[n]];
    }
  }

  lemma ListingIsMap(vars: seq<EnvVar>, env: Env)
    requires Lists(vars, env)
    ensures AsMap(vars) == env
  {
    forall n ensures (n in AsMap(vars) <==> n in env) && (n in env ==> AsMap(vars)[n] == env[n]) {
      AsMapMembers(vars, n);
    }
  }

  /** The value an entry has is what it means, given the entries before it. */
  predicate Settled(vars: seq<EnvVar>, svc: Env, i: nat)
    requires i < |vars|
  {
    Meaning(vars[i].value, MappingFor(AsMap(vars[..i]), svc)) == vars[i].value
  }

  lemma {:induction false} SettledExactly(w: World, svc: Env, vars: seq<EnvVar>)
    requires Plain(vars)
    ensures FoldEntries(w, map[], svc, vars).Ok?
    ensures FoldEntries(w, map[], svc, vars).value.Keys == AsMap(vars).Keys
    ensures FoldEntries(w, map[], svc, vars).value == AsMap(vars)
      <==> forall i | 0 <= i < |vars| :: Settled(vars, svc, i)
  {
    hide Settled, Meaning;
    if vars == [] {
    } else {
      var n := |vars| - 1;
      var init, last := vars[..n], vars[n];
      SettledExactly(w, svc, init);
      AsMapMembers(init, last.name);
      AllSettledSplits(vars, svc);
      var own := FoldEntries(w, map[], svc, init).value;
      PlainEntryMeans(w, own, svc, last);
      EqualUpdates(own, AsMap(init), last.name, Meaning(last.value, MappingFor(own, svc)), last.value);
      SettledMeans(vars, svc, n);
    }
  }

  lemma PlainEntryMeans(w: World, res: Env, svc: Env, v: EnvVar)
    requires v.valueFrom.None?
    ensures Assign(w, res, svc, v) == Ok(res[v.name := Meaning(v.value, MappingFor(res, svc))])
  {}

  lemma SettledMeans(vars: seq<EnvVar>, svc: Env, i: nat)
    requires i < |vars|
    ensures Settled(vars, svc, i) <==> Meaning(vars[i].value, MappingFor(AsMap(vars[..i]), svc)) == vars[i].value
  {}

  lemma EqualUpdates(a: Env, b: Env, name: Bytes, x: Bytes, y: Bytes)
    requires name !in a && name !in b
    ensures a[name := x] == b[name := y] <==> a == b && x == y
  {
    assert a[name := x] - {name} == a && b[name := y] - {name} == b;
    assert a[name := x][name] == x && b[name := y][name] == y;
  }

  lemma AllSettledSplits(vars: seq<EnvVar>, svc: Env)
    requires vars != []
    ensures var init := vars[..|vars| - 1];
      (forall i | 0 <= i < |vars| :: Settled(vars, svc, i))
      <==> (forall i | 0 <= i < |init| :: Settled(init, svc, i)) && Settled(vars, svc, |init|)
  {
    hide Meaning, AsMap;
    var init := vars[..|vars| - 1];
    forall i | 0 <= i < |init| ensures Settled(vars, svc, i) <==> Settled(init, svc, i) {
      assert vars[..i] == init[..i];
    }
  }

  /**
   Populating a container whose entries spell out an environment gives that environment again exactly
   when the services bring no new name and every entry means itself, given those before it.
   */
  lemma AgainExactly(w: World, vars: seq<EnvVar>, env: Env)
    requires Lists(vars, env) && w.services.Some?
    ensures Populated(w, [], vars) == Ok(env) <==>
      w.services.value.Keys <= env.Keys && forall i | 0 <= i < |vars| :: Settled(vars, w.services.value, i)
  {
    hide Settled, Meaning, AsMap, FoldEntries;
    var svc := w.services.value;
    ListingIsMap(vars, env);
    SettledExactly(w, svc, vars);
    var own := FoldEntries(w, map[], svc, vars).value;
    assert Populated(w, [], vars) == Ok(svc + own);
    if svc.Keys <= env.Keys {
      assert svc + own == own;
    } else {
      assert (svc + own).Keys != env.Keys;
    }
  }

  /** No reference in the text is to one of the names. */
  predicate RefersToNone(s: Bytes, names: set<Bytes>) {
    forall i | 0 <= i < |Tokens(s)| && Tokens(s)[i].Reference? :: Tokens(s)[i].name !in names
  }

  /** Text whose references find nothing is settled exactly if its tokens are inert. */
  lemma SettledByTokens(vars: seq<EnvVar>, svc: Env, i: nat, names: set<Bytes>)
    requires i < |vars| && RefersToNone(vars[i].value, names) && svc.Keys <= names
    requires forall j | 0 <= j < |vars| :: vars[j].name in names
    ensures Settled(vars, svc, i) <==> AllInert(Tokens(vars[i].value))
  {
    hide Meaning, AllInert;
    var s, known := vars[i].value, AsMap(vars[..i]);
    forall n | n !in names ensures MappingFor(known, svc)(n) == SyntaxWrap(n) {
      AsMapMembers(vars[..i], n);
      FirstContextWins([known, svc], n, 2);
    }
    UnresolvedMeans(s, MappingFor(known, svc));
    IdentityExactly(s);
  }

  /**
   When no value refers to a listed name or to a service, whether populating again changes anything can be read
   off the tokens of the values: it does not exactly if all are inert and the services bring no new name.
   */
  lemma AgainByTokens(w: World, vars: seq<EnvVar>, env: Env)
    requires Lists(vars, env) && w.services.Some?
    requires forall i | 0 <= i < |vars| :: RefersToNone(vars[i].value, env.Keys + w.services.value.Keys)
    ensures Populated(w, [], vars) == Ok(env) <==>
      w.services.value.Keys <= env.Keys && forall i | 0 <= i < |vars| :: AllInert(Tokens(vars[i].value))
  {
    hide Settled, AllInert, RefersToNone;
    AgainExactly(w, vars, env);
    var svc := w.services.value;
    forall i | 0 <= i < |vars| ensures Settled(vars, svc, i) <==> AllInert(Tokens(vars[i].value)) {
      SettledByTokens(vars, svc, i, env.Keys + svc.Keys);
    }
  }

  /** Populating twice is populating once, when no value has an operator left and the services keep their names. */
  lemma TwiceIsOnce(first: World, sources: seq<EnvFrom>, vars: seq<EnvVar>, again: World, listed: seq<EnvVar>)
    requires Populated(first, sources, vars).Ok?
    requires Lists(listed, Populated(first, sources, vars).value)
    requires var env := Populated(first, sources, vars).value; forall n | n in env :: OPERATOR !in env[n]
    requires again.services.Some? && again.services.value.Keys == first.services.value.Keys
    ensures Populated(again, [], listed) == Populated(first, sources, vars)
  {
    var env := Populated(first, sources, vars).value;
    AgainExactly(again, listed, env);
    forall i | 0 <= i < |listed| ensures Settled(listed, again.services.value, i) {
      NoOperatorNoChange(listed[i].value, MappingFor(AsMap(listed[..i]), again.services.value));
    }
  }

  /** With operators left it is not: what was escaped twice loses one escape each time. */
  lemma EscapesWearOff(w: World, name: Bytes, s: Bytes)
    requires w.services == Some(map[]) && OPERATOR in s
    ensures Populated(w, [], [EnvVar(name, Escape(Escape(s)), None)]) == Ok(map[name := Escape(s)])
    ensures Populated(w, [], [EnvVar(name, Escape(s), None)]) == Ok(map[name := s])
    ensures s != Escape(s)
  {
    OneEntry(w, name, Escape(s));
    OneEntry(w, name, s);
    EscapeGrows(s);
  }

  lemma OneEntry(w: World, name: Bytes, s: Bytes)
    requires w.services == Some(map[])
    ensures Populated(w, [], [EnvVar(name, Escape(s), None)]) == Ok(map[name := s])
  {
    var vars := [EnvVar(name, Escape(s), None)];
    ExpandUndoesEscape(s, MappingFor(map[], map[]));
    assert FoldEntries(w, map[], map[], vars[..0]) == Ok(map[]);
    assert FoldEntries(w, map[], map[], vars) == Ok(map[name := s]);
    assert map[] + map[name := s] == map[name := s];
  }

  lemma {:induction false} EscapeGrows(s: Bytes)
    ensures |Escape(s)| >= |s|
    ensures OPERATOR in s ==> |Escape(s)| > |s|
  {
    if s == [] {
    } else {
      EscapeGrows(s[1..]);
    }
  }
}

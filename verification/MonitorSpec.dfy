/**
 The versioned monitor variable of internal/lock/monitor.go, on values: one variable, any number of
 subscriptions, and channels that only ever go from open to closed. Channels and subscriptions are
 known by pointers of types `C` and `S`: numbers in runs, objects in the class.
 */
module MonitorSpec {
  type Version = nat

  datatype Sub<C> = Sub(lastVersionRead: Version, channel: C)

  /** `closed` is the set of closed channels; `value` is the last value set, arbitrary before the first. */
  datatype State<!C, !S, V> = State(value: V, version: Version, channel: C, closed: set<C>, subs: map<S, Sub<C>>)

  function Set<C(==), S(==), V>(m: State<C, S, V>, value: V, made: C): State<C, S, V> {
    State(value, m.version + 1, made, m.closed + {m.channel}, m.subs)
  }

  /** `made` is the closed channel made for a subscriber that already has something to read. */
  function Subscribe<C(==), S(==), V>(m: State<C, S, V>, s: S, made: C): State<C, S, V> {
    if m.version > 0 then m.(closed := m.closed + {made}, subs := m.subs[s := Sub(0, made)])
    else m.(subs := m.subs[s := Sub(0, m.channel)])
  }

  function Read<C(==), S(==), V>(m: State<C, S, V>, s: S): State<C, S, V>
    requires s in m.subs
  {
    m.(subs := m.subs[s := Sub(m.version, m.channel)])
  }

  predicate Ready<C(==), S(==), V>(m: State<C, S, V>, s: S)
    requires s in m.subs
  {
    m.subs[s].channel in m.closed
  }

  // ---------- The invariant ----------

  ghost predicate Inv<C, S, V>(m: State<C, S, V>) {
    && m.channel !in m.closed
    && forall s | s in m.subs :: (Ready(m, s) <==> m.subs[s].lastVersionRead < m.version)
                                && (!Ready(m, s) ==> m.subs[s].channel == m.channel)
                                && m.subs[s].lastVersionRead <= m.version
  }

  predicate Unused<C(==), S(==), V>(m: State<C, S, V>, c: C) {
    c != m.channel && c !in m.closed
  }

  // ---------- Any sequence of operations ----------

  datatype Op<V> = SetOp(value: V, c: nat) | SubscribeOp(s: nat, c: nat) | ReadOp(s: nat)

  predicate Enabled<V>(m: State<nat, nat, V>, op: Op<V>) {
    match op
    case SetOp(v, c) => Unused(m, c)
    case SubscribeOp(s, c) => s !in m.subs && Unused(m, c)
    case ReadOp(s) => s in m.subs
  }

  function Step<V>(m: State<nat, nat, V>, op: Op<V>): State<nat, nat, V>
    requires Enabled(m, op)
  {
    match op
    case SetOp(v, c) => Set(m, v, c)
    case SubscribeOp(s, c) => Subscribe(m, s, c)
    case ReadOp(s) => Read(m, s)
  }

  function Exec<V>(m: State<nat, nat, V>, ops: seq<Op<V>>): State<nat, nat, V>
    requires Legal(m, ops)
    decreases |ops|, 1
  {
    if ops == [] then m else Step(Exec(m, ops[..|ops| - 1]), ops[|ops| - 1])
  }

  predicate Legal<V>(m: State<nat, nat, V>, ops: seq<Op<V>>)
    decreases |ops|, 0
  {
    ops == [] || (Legal(m, ops[..|ops| - 1]) && Enabled(Exec(m, ops[..|ops| - 1]), ops[|ops| - 1]))
  }

  function Sets<V>(ops: seq<Op<V>>): nat {
    if ops == [] then 0 else Sets(ops[..|ops| - 1]) + if ops[|ops| - 1].SetOp? then 1 else 0
  }

  /** How many times the variable was set since `s` last read it; since ever, if it never did. */
  function Unread<V>(ops: seq<Op<V>>, s: nat): nat {
    if ops == [] then 0
    else
      var last := ops[|ops| - 1];
      if last.ReadOp? && last.s == s then 0
      else Unread(ops[..|ops| - 1], s) + if last.SetOp? then 1 else 0
  }

  function LastSet<V>(initial: V, ops: seq<Op<V>>): V {
    if ops == [] then initial
    else if ops[|ops| - 1].SetOp? then ops[|ops| - 1].value
    else LastSet(initial, ops[..|ops| - 1])
  }

  /**
   After any operations by any number of subscribers: the version counts the values set, the variable's
   own channel is open, and a subscription's channel is closed exactly when a value was set that it has
   not read, whether it subscribed before or after that.
   */
  lemma {:induction false} ReadyExactlyWhenUnread<V>(m0: State<nat, nat, V>, ops: seq<Op<V>>)
    requires m0.version == 0 && m0.subs == map[] && m0.closed == {} && Legal(m0, ops)
    ensures var m := Exec(m0, ops);
            && Inv(m) && m.version == Sets(ops) && m.channel !in m.closed && m.value == LastSet(m0.value, ops)
            && forall s | s in m.subs ::
                 && m.version - m.subs[s].lastVersionRead == Unread(ops, s)
                 && (Ready(m, s) <==> Unread(ops, s) > 0)
  {
    if ops == [] {
    } else {
      var before, last := ops[..|ops| - 1], ops[|ops| - 1];
      ReadyExactlyWhenUnread(m0, before);
      var m := Exec(m0, before);
      StepKeepsInv(m, last);
      forall s | s in Step(m, last).subs && s !in m.subs ensures Unread(before, s) == Sets(before) {
        NeverSubscribed(m0, before, s);
      }
    }
  }

  lemma StepKeepsInv<V>(m: State<nat, nat, V>, op: Op<V>)
    requires Inv(m) && Enabled(m, op)
    ensures Inv(Step(m, op))
  {}

  lemma SubscribeKeepsInv<C, S, V>(m: State<C, S, V>, s: S, c: C)
    requires Inv(m) && s !in m.subs && (m.version > 0 ==> Unused(m, c))
    ensures Inv(Subscribe(m, s, c))
  {}

  /** Who has not subscribed yet has read nothing. */
  lemma {:induction false} NeverSubscribed<V>(m0: State<nat, nat, V>, ops: seq<Op<V>>, s: nat)
    requires m0.subs == map[] && Legal(m0, ops) && s !in Exec(m0, ops).subs
    ensures Unread(ops, s) == Sets(ops)
  {
    if ops == [] {
    } else {
      NeverSubscribed(m0, ops[..|ops| - 1], s);
    }
  }

  /** A subscriber that reads has read the last value set, and is not ready again until the next one. */
  lemma ReadCatchesUp<C, S, V>(m: State<C, S, V>, s: S, value: V, c: C)
    requires Inv(m) && s in m.subs && Unused(m, c)
    ensures !Ready(Read(m, s), s) && Read(m, s).subs[s].lastVersionRead == m.version
    ensures Ready(Set(Read(m, s), value, c), s) && Set(m, value, c).version > m.version
  {}
}

/**
 The state of the delayed, de-duplicating work queue of internal/queue/queue.go, and what each
 lock-held region of the code does to it, on values.

 A queued item is referenced only by the list and its index, so it is kept in `items` by value.
 A dequeued item is shared between the worker handling it and `itemsBeingProcessed`, so it lives
 in `heap` under a pointer of type `P`: a number in the protocol model, an object in the class.
 */
module QueueSpec {
  import opened Options

  type Key = string

  // The number of times a key is tried before it is permanently forgotten.
  const MAX_RETRIES: nat := 20

  datatype Item = Item(
    key: Key,
    plannedAt: int,
    redirtiedAt: Option<int>,
    redirtiedWithRatelimit: bool,
    forget: bool,
    requeues: nat,
    originallyAdded: int,
    addedViaRedirty: bool,
    delayedViaRatelimit: Option<int>)

  datatype State<!P> = State(items: seq<Item>, busy: map<Key, P>, heap: map<P, Item>, wake: bool)

  datatype RetryDecision = Retry(delay: Option<int>) | GiveUp

  // key, times tried, time originally added
  type RetryFunc = (Key, nat, int) -> RetryDecision

  function DefaultRetry(key: Key, timesTried: nat, originallyAdded: int): RetryDecision {
    if timesTried < MAX_RETRIES then Retry(None) else GiveUp
  }

  // ---------- The ordered list ----------

  ghost predicate Sorted(items: seq<Item>) {
    forall i, j | 0 <= i < j < |items| :: items[i].plannedAt <= items[j].plannedAt
  }

  ghost predicate DistinctKeys(items: seq<Item>) {
    forall i, j | 0 <= i < j < |items| :: items[i].key != items[j].key
  }

  /** The number of leading items planned strictly before `time`. */
  function Slot(items: seq<Item>, time: int): (n: nat)
    ensures n <= |items|
    ensures forall j | 0 <= j < n :: items[j].plannedAt < time
    ensures n < |items| ==> time <= items[n].plannedAt
  {
    if items == [] || time <= items[0].plannedAt then 0 else 1 + Slot(items[1..], time)
  }

  /** Ordered insertion: `item` goes in front of the first item that is not planned before it. */
  function Place(items: seq<Item>, item: Item): seq<Item> {
    if items == [] || item.plannedAt <= items[0].plannedAt then [item] + items
    else [items[0]] + Place(items[1..], item)
  }

  /** The position of `key`, or the length of the list if it is not there. */
  function IndexOf(items: seq<Item>, key: Key): (n: nat)
    ensures n <= |items|
    ensures n < |items| ==> items[n].key == key
    ensures forall j | 0 <= j < n :: items[j].key != key
  {
    if items == [] || items[0].key == key then 0 else 1 + IndexOf(items[1..], key)
  }

  function Without(items: seq<Item>, key: Key): seq<Item> {
    if items == [] then []
    else if items[0].key == key then items[1..]
    else [items[0]] + Without(items[1..], key)
  }

  predicate Queued(items: seq<Item>, key: Key) {
    IndexOf(items, key) < |items|
  }

  /** The queued item of `key`. */
  function Lookup(items: seq<Item>, key: Key): (item: Item)
    requires Queued(items, key)
    ensures item in items && item.key == key
  {
    items[IndexOf(items, key)]
  }

  /** Bring a queued key forward to `when`; an item already planned earlier stays where it is. */
  function Adjust(items: seq<Item>, key: Key, when: int): seq<Item>
    requires Queued(items, key)
  {
    var item := Lookup(items, key);
    if when > item.plannedAt then items
    else Place(Without(items, key), item.(plannedAt := when))
  }

  // ---------- The lock-held regions ----------

  /** What a worker sees at the front of the list. */
  datatype Sight = NothingThere | NotBefore(time: int) | FrontDue

  function Glance(items: seq<Item>, now: int): Sight {
    if items == [] then NothingThere
    else if items[0].plannedAt - now <= 0 then FrontDue
    else NotBefore(items[0].plannedAt)
  }

  /** What an enqueue does to an item that is being processed. */
  function Redirty(item: Item, when: int, ratelimit: bool): Item {
    if item.redirtiedAt.None? || when < item.redirtiedAt.value
    then item.(redirtiedAt := Some(when), redirtiedWithRatelimit := ratelimit, forget := false)
    else item.(forget := false)
  }

  function NewItem(key: Key, ratelimit: bool, delay: Option<int>, now: int, rate: nat): Item {
    var actual := delay.GetOr(if ratelimit then rate else 0);
    Item(key, now + actual, None, false, false, 0, now, false, if ratelimit then Some(actual) else None)
  }

  /** Every key being processed has an object. */
  predicate Tracked<P>(s: State<P>) {
    forall k | k in s.busy :: s.busy[k] in s.heap
  }

  /** The list after enqueueing a key that is not being processed. */
  function Enlist(items: seq<Item>, key: Key, ratelimit: bool, delay: Option<int>, now: int, rate: nat): seq<Item> {
    if Queued(items, key) then Adjust(items, key, now + delay.GetOr(0))
    else Place(items, NewItem(key, ratelimit, delay, now, rate))
  }

  /** `rate` is what the rate limiter's When returns, should it be asked. */
  function Insert<P(==)>(s: State<P>, key: Key, ratelimit: bool, delay: Option<int>, now: int, rate: nat): State<P>
    requires Tracked(s)
  {
    if key in s.busy then
      var p := s.busy[key];
      s.(heap := s.heap[p := Redirty(s.heap[p], now + delay.GetOr(0), ratelimit)], wake := true)
    else
      s.(items := Enlist(s.items, key, ratelimit, delay, now, rate), wake := true)
  }

  function Forget<P(==)>(s: State<P>, key: Key): State<P>
    requires Tracked(s)
  {
    if Queued(s.items, key) then s.(items := Without(s.items, key))
    else if key in s.busy then
      var p := s.busy[key];
      s.(heap := s.heap[p := s.heap[p].(forget := true)])
    else s
  }

  /** Dequeue the front item; its object is `p`. */
  function Take<P(==)>(s: State<P>, p: P): State<P>
    requires s.items != []
  {
    var item := s.items[0];
    s.(items := s.items[1..], busy := s.busy[item.key := p], heap := s.heap[p := item])
  }

  /** What the caller of insert overwrites on the item it got back. */
  datatype Amendment = Retried(requeues: nat, originallyAdded: int) | ViaRedirty

  function Amend(item: Item, a: Amendment): Item {
    match a
    case Retried(n, added) => item.(requeues := n, originallyAdded := added)
    case ViaRedirty => item.(addedViaRedirty := true)
  }

  function Patch(items: seq<Item>, key: Key, a: Amendment): seq<Item> {
    seq(|items|, i requires 0 <= i < |items| => if items[i].key == key then Amend(items[i], a) else items[i])
  }

  /** Back on the list after a failure, with one more requeue and the original time of addition. */
  function Requeue<P(==)>(s: State<P>, qi: Item, delay: Option<int>, now: int, rate: nat): State<P>
    requires Tracked(s)
  {
    var s' := Insert(s, qi.key, true, delay, now, rate);
    s'.(items := Patch(s'.items, qi.key, Retried(qi.requeues + 1, qi.originallyAdded)))
  }

  /** Back on the list because it was redirtied while being processed. */
  function Readd<P(==)>(s: State<P>, qi: Item, at: int, now: int, rate: nat): State<P>
    requires Tracked(s)
  {
    var s' := Insert(s, qi.key, qi.redirtiedWithRatelimit, Some(at - now), now, rate);
    s'.(items := Patch(s'.items, qi.key, ViaRedirty))
  }

  function Drop<P(==)>(s: State<P>, p: P): State<P>
    requires p in s.heap
  {
    s.(busy := s.busy - {s.heap[p].key}, heap := s.heap - {p})
  }

  /** A worker is done with `p`: `failed` tells whether the handler returned an error. */
  function Complete<P(==)>(s: State<P>, p: P, failed: bool, retry: RetryFunc, now: int, rate: nat): State<P>
    requires p in s.heap && Tracked(Drop(s, p))
  {
    var qi := s.heap[p];
    var decision := retry(qi.key, qi.requeues + 1, qi.originallyAdded);
    if qi.forget then Drop(s, p)
    else if failed && decision.Retry? then Requeue(Drop(s, p), qi, decision.delay, now, rate)
    else if qi.redirtiedAt.Some? then Readd(Drop(s, p), qi, qi.redirtiedAt.value, now, rate)
    else Drop(s, p)
  }

  // ---------- The invariant every region keeps ----------

  /** A queued item has neither been redirtied nor forgotten: those marks are made on dequeued items only. */
  predicate Unmarked(item: Item) {
    item.redirtiedAt.None? && !item.forget
  }

  ghost predicate Inv<P>(s: State<P>)
    ensures Inv(s) ==> Tracked(s)
  {
    && Sorted(s.items)
    && DistinctKeys(s.items)
    && (forall i | 0 <= i < |s.items| :: Unmarked(s.items[i]) && s.items[i].key !in s.busy)
    && (forall k | k in s.busy :: s.busy[k] in s.heap && s.heap[s.busy[k]].key == k)
    && (forall p | p in s.heap :: s.heap[p].key in s.busy && s.busy[s.heap[p].key] == p)
  }

  function Keys(items: seq<Item>): (ks: set<Key>)
    ensures forall k :: k in ks <==> Queued(items, k)
  {
    set i | 0 <= i < |items| :: items[i].key
  }

  /** What the list holds under each key, forgetting the order. */
  function Contents(items: seq<Item>): map<Key, Item> {
    if items == [] then map[] else Contents(items[1..])[items[0].key := items[0]]
  }
}

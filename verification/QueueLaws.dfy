/**
 Laws of the queue's lock-held regions: each keeps the invariant, and the ordered list behaves
 as a plain map from key to planned time.
 */
module QueueLaws {
  import opened Options
  import opened QueueSpec

  // ---------- Ordered insertion and removal ----------

  lemma PlaceIsSorted(items: seq<Item>, item: Item)
    requires Sorted(items)
    ensures Sorted(Place(items, item))
    ensures multiset(Place(items, item)) == multiset(items) + multiset{item}
  {
    hide Slot, Sorted, Place;
    PlaceIsPermutation(items, item);
    SpliceIsSorted(items, item, Slot(items, item.plannedAt));
    PlaceIsSplice(items, item);
  }

  lemma {:induction false} PlaceIsSplice(items: seq<Item>, item: Item)
    ensures var n := Slot(items, item.plannedAt); Place(items, item) == items[..n] + [item] + items[n..]
  {
    var n := Slot(items, item.plannedAt);
    if n == 0 {
    } else {
      PlaceIsSplice(items[1..], item);
      assert items[..n] == [items[0]] + items[1..][..n - 1];
    }
  }

  lemma {:induction false} WithoutIsCut(items: seq<Item>, key: Key)
    ensures var n := IndexOf(items, key);
      Without(items, key) == if n < |items| then items[..n] + items[n + 1..] else items
  {
    if items == [] || items[0].key == key {
    } else {
      var n := IndexOf(items, key);
      WithoutIsCut(items[1..], key);
      assert items == [items[0]] + items[1..];
      if n < |items| {
        assert items[..n] == [items[0]] + items[1..][..n - 1];
      }
    }
  }

  lemma PlaceIsPermutation(items: seq<Item>, item: Item)
    ensures multiset(Place(items, item)) == multiset(items) + multiset{item}
  {
    hide Slot, Place;
    PlaceIsSplice(items, item);
    var n := Slot(items, item.plannedAt);
    assert items == items[..n] + items[n..];
  }

  lemma SpliceIsSorted(items: seq<Item>, item: Item, n: nat)
    requires Sorted(items) && n <= |items|
    requires forall j | 0 <= j < n :: items[j].plannedAt < item.plannedAt
    requires n < |items| ==> item.plannedAt <= items[n].plannedAt
    ensures Sorted(items[..n] + [item] + items[n..])
  {
    var spliced := items[..n] + [item] + items[n..];
    forall k | 0 <= k < |spliced|
      ensures spliced[k] == if k < n then items[k] else if k == n then item else items[k - 1]
    {}
  }

  /** Taking the item at `n` out of a list with distinct keys takes out its key and nothing else. */
  lemma CutMembers(items: seq<Item>, n: nat)
    requires DistinctKeys(items) && n < |items|
    ensures forall it :: it in items[..n] + items[n + 1..] <==> it in items && it.key != items[n].key
  {
    var key, front, back := items[n].key, items[..n], items[n + 1..];
    forall i | 0 <= i < |front| ensures front[i].key != key {}
    forall i | 0 <= i < |back| ensures back[i].key != key { assert back[i] == items[n + 1 + i]; }
    assert items == front + [items[n]] + back;
  }

  lemma WithoutMembers(items: seq<Item>, key: Key)
    requires DistinctKeys(items)
    ensures forall it :: it in Without(items, key) <==> it in items && it.key != key
  {
    hide Without;
    WithoutIsCut(items, key);
    if Queued(items, key) { CutMembers(items, IndexOf(items, key)); }
  }

  lemma CutIsSorted(items: seq<Item>, n: nat)
    requires Sorted(items) && DistinctKeys(items) && n < |items|
    ensures Sorted(items[..n] + items[n + 1..]) && DistinctKeys(items[..n] + items[n + 1..])
  {}

  lemma WithoutIsSorted(items: seq<Item>, key: Key)
    requires Sorted(items) && DistinctKeys(items)
    ensures Sorted(Without(items, key)) && DistinctKeys(Without(items, key))
    ensures !Queued(Without(items, key), key)
  {
    hide Without, Sorted, DistinctKeys, Queued;
    WithoutDropsKey(items, key);
    WithoutIsCut(items, key);
    QueuedIsIndexed(items, key);
    if Queued(items, key) { CutIsSorted(items, IndexOf(items, key)); }
  }

  lemma QueuedIsIndexed(items: seq<Item>, key: Key)
    ensures Queued(items, key) <==> IndexOf(items, key) < |items|
  {}

  lemma WithoutDropsKey(items: seq<Item>, key: Key)
    requires DistinctKeys(items)
    ensures !Queued(Without(items, key), key)
  {
    hide DistinctKeys, Without;
    WithoutMembers(items, key);
    if Queued(Without(items, key), key) {
      var _ := Lookup(Without(items, key), key);
      assert false;
    }
  }

  lemma PlaceMembers(items: seq<Item>, item: Item)
    ensures forall it :: it in Place(items, item) <==> it in items || it == item
    ensures DistinctKeys(items) && !Queued(items, item.key) ==> DistinctKeys(Place(items, item))
  {
    hide Slot, Place;
    PlaceIsSplice(items, item);
    var n := Slot(items, item.plannedAt);
    assert items == items[..n] + items[n..];
  }

  /** In a list with distinct keys, being a member says what Lookup finds. */
  lemma LookupIsMember(items: seq<Item>, it: Item)
    requires DistinctKeys(items) && it in items
    ensures Queued(items, it.key) && Lookup(items, it.key) == it
  {
    var i :| 0 <= i < |items| && items[i] == it;
    assert IndexOf(items, it.key) == i;
  }

  lemma PatchMembers(items: seq<Item>, key: Key, a: Amendment)
    ensures |Patch(items, key, a)| == |items|
    ensures Sorted(items) ==> Sorted(Patch(items, key, a))
    ensures DistinctKeys(items) ==> DistinctKeys(Patch(items, key, a))
    ensures forall k :: Queued(Patch(items, key, a), k) <==> Queued(items, k)
    ensures forall k | Queued(items, k) ::
      Lookup(Patch(items, key, a), k) == if k == key then Amend(Lookup(items, k), a) else Lookup(items, k)
  {
    var ps := Patch(items, key, a);
    forall k ensures IndexOf(ps, k) == IndexOf(items, k) {
      FirstIs(ps, k, IndexOf(items, k));
    }
  }

  lemma FirstIs(items: seq<Item>, key: Key, n: nat)
    requires n <= |items|
    requires n < |items| ==> items[n].key == key
    requires forall j | 0 <= j < n :: items[j].key != key
    ensures IndexOf(items, key) == n
  {}

  // ---------- Every region keeps the invariant ----------

  /** The item with the earlier of its own time and `when`. */
  function Earlier(item: Item, when: int): Item {
    item.(plannedAt := if when < item.plannedAt then when else item.plannedAt)
  }

  /** `items'` is `items` with `it` in place of whatever was there for `key`. */
  ghost predicate Replaces(items: seq<Item>, items': seq<Item>, key: Key, it: Item) {
    && Sorted(items') && DistinctKeys(items')
    && forall x :: x in items' <==> (x in items && x.key != key) || x == it
  }

  lemma AdjustLaw(items: seq<Item>, key: Key, when: int)
    requires Sorted(items) && DistinctKeys(items) && Queued(items, key)
    ensures Replaces(items, Adjust(items, key, when), key, Earlier(Lookup(items, key), when))
  {
    var item := Lookup(items, key);
    if when > item.plannedAt {
      assert Earlier(item, when) == item;
      forall it | it in items && it.key == key ensures it == item { LookupIsMember(items, it); }
    } else {
      assert Earlier(item, when) == item.(plannedAt := when);
      WithoutMembers(items, key);
      WithoutIsSorted(items, key);
      PlaceIsSorted(Without(items, key), Earlier(item, when));
      PlaceMembers(Without(items, key), Earlier(item, when));
    }
  }

  lemma PlaceLaw(items: seq<Item>, item: Item)
    requires Sorted(items) && DistinctKeys(items) && !Queued(items, item.key)
    ensures Replaces(items, Place(items, item), item.key, item)
  {
    PlaceIsSorted(items, item);
    PlaceMembers(items, item);
    forall it | it in items ensures it.key != item.key {
      LookupIsMember(items, it);
    }
  }

  /** The item of `key` stands in front of every other item that is planned no earlier. */
  ghost predicate GoesFirst(items: seq<Item>, key: Key) {
    forall i, j | 0 <= i < |items| && 0 <= j < |items| && i != j && items[i].key == key
      && items[i].plannedAt <= items[j].plannedAt :: i < j
  }

  /** Among items planned for the same time, the one that came last is first. */
  lemma PlaceGoesFirst(items: seq<Item>, item: Item)
    requires forall it | it in items :: it.key != item.key
    ensures GoesFirst(Place(items, item), item.key)
  {
    hide Place, Slot;
    PlaceIsSplice(items, item);
    var n := Slot(items, item.plannedAt);
    var placed := items[..n] + [item] + items[n..];
    forall i | 0 <= i < |placed| && i != n ensures placed[i].key != item.key {
      assert placed[i] == if i < n then items[i] else items[i - 1];
    }
  }

  /** So does an item that is brought forward, or is asked for again at its own time. */
  lemma AdjustGoesFirst(items: seq<Item>, key: Key, when: int)
    requires Sorted(items) && DistinctKeys(items) && Queued(items, key)
    ensures when <= Lookup(items, key).plannedAt ==> GoesFirst(Adjust(items, key, when), key)
    ensures when > Lookup(items, key).plannedAt ==> Adjust(items, key, when) == items
  {
    hide Place, Without, GoesFirst, Lookup;
    WithoutMembers(items, key);
    var item := Lookup(items, key).(plannedAt := when);
    if when <= Lookup(items, key).plannedAt {
      PlaceGoesFirst(Without(items, key), item);
    }
  }

  /** A new list keeps the invariant when it is ordered and holds unmarked items of idle keys. */
  lemma NewListKeepsInv<P>(s: State<P>, items: seq<Item>, wake: bool)
    requires Inv(s) && Sorted(items) && DistinctKeys(items)
    requires forall it | it in items :: Unmarked(it) && it.key !in s.busy
    ensures Inv(s.(items := items, wake := wake))
  {
    forall i | 0 <= i < |items| ensures Unmarked(items[i]) && items[i].key !in s.busy {
      assert items[i] in items;
    }
  }

  lemma EnlistLaw(items: seq<Item>, key: Key, ratelimit: bool, delay: Option<int>, now: int, rate: nat)
    requires Sorted(items) && DistinctKeys(items)
    ensures Replaces(items, Enlist(items, key, ratelimit, delay, now, rate), key,
                     Enlisted(items, key, ratelimit, delay, now, rate))
  {
    hide Adjust, Place, Replaces;
    if Queued(items, key) {
      AdjustLaw(items, key, now + delay.GetOr(0));
    } else {
      PlaceLaw(items, NewItem(key, ratelimit, delay, now, rate));
    }
  }

  /** The item of `key` after it was enqueued while not being processed. */
  function Enlisted(items: seq<Item>, key: Key, ratelimit: bool, delay: Option<int>, now: int, rate: nat): (it: Item)
    ensures it.key == key
  {
    if Queued(items, key) then Earlier(Lookup(items, key), now + delay.GetOr(0))
    else NewItem(key, ratelimit, delay, now, rate)
  }

  lemma InsertKeepsInv<P>(s: State<P>, key: Key, ratelimit: bool, delay: Option<int>, now: int, rate: nat)
    requires Inv(s)
    ensures Inv(Insert(s, key, ratelimit, delay, now, rate))
  {
    if key in s.busy {
    } else {
      EnlistLaw(s.items, key, ratelimit, delay, now, rate);
      var it := Enlisted(s.items, key, ratelimit, delay, now, rate);
      assert Unmarked(it) by {
        if Queued(s.items, key) { assert Lookup(s.items, key) in s.items; }
      }
      NewListKeepsInv(s, Enlist(s.items, key, ratelimit, delay, now, rate), true);
    }
  }

  lemma ForgetKeepsInv<P>(s: State<P>, key: Key)
    requires Inv(s)
    ensures Inv(Forget(s, key))
  {
    if Queued(s.items, key) {
      WithoutMembers(s.items, key);
      WithoutIsSorted(s.items, key);
      NewListKeepsInv(s, Without(s.items, key), s.wake);
    }
  }

  lemma TakeKeepsInv<P>(s: State<P>, p: P)
    requires Inv(s) && s.items != [] && p !in s.heap
    ensures Inv(Take(s, p))
  {}

  lemma DropKeepsInv<P>(s: State<P>, p: P)
    requires Inv(s) && p in s.heap
    ensures Inv(Drop(s, p)) && s.heap[p].key !in Drop(s, p).busy
  {}

  lemma PatchKeepsInv<P>(s: State<P>, key: Key, a: Amendment)
    requires Inv(s)
    ensures Inv(s.(items := Patch(s.items, key, a)))
  {
    PatchMembers(s.items, key, a);
  }

  lemma RequeueKeepsInv<P>(s: State<P>, qi: Item, delay: Option<int>, now: int, rate: nat)
    requires Inv(s)
    ensures Inv(Requeue(s, qi, delay, now, rate))
  {
    hide Inv, Insert, Patch;
    InsertKeepsInv(s, qi.key, true, delay, now, rate);
    PatchKeepsInv(Insert(s, qi.key, true, delay, now, rate), qi.key, Retried(qi.requeues + 1, qi.originallyAdded));
  }

  lemma ReaddKeepsInv<P>(s: State<P>, qi: Item, at: int, now: int, rate: nat)
    requires Inv(s)
    ensures Inv(Readd(s, qi, at, now, rate))
  {
    hide Inv, Insert, Patch;
    InsertKeepsInv(s, qi.key, qi.redirtiedWithRatelimit, Some(at - now), now, rate);
    PatchKeepsInv(Insert(s, qi.key, qi.redirtiedWithRatelimit, Some(at - now), now, rate), qi.key, ViaRedirty);
  }

  lemma CompleteKeepsInv<P>(s: State<P>, p: P, failed: bool, retry: RetryFunc, now: int, rate: nat)
    requires Inv(s) && p in s.heap
    ensures Inv(Complete(s, p, failed, retry, now, rate))
  {
    hide Patch;
    var qi := s.heap[p];
    var decision := retry(qi.key, qi.requeues + 1, qi.originallyAdded);
    DropKeepsInv(s, p);
    if qi.forget {
    } else if failed && decision.Retry? {
      RequeueKeepsInv(Drop(s, p), qi, decision.delay, now, rate);
    } else if qi.redirtiedAt.Some? {
      ReaddKeepsInv(Drop(s, p), qi, qi.redirtiedAt.value, now, rate);
    }
  }

  lemma BusyIsNotQueued<P>(s: State<P>)
    requires Inv(s)
    ensures forall k | k in s.busy :: !Queued(s.items, k)
  {
    forall k | Queued(s.items, k) ensures k !in s.busy {
      assert s.items[IndexOf(s.items, k)].key == k;
    }
  }

  // ---------- The list is a map from key to planned time ----------

  lemma {:induction false} ContentsIsLookup(items: seq<Item>, k: Key)
    ensures k in Contents(items) <==> Queued(items, k)
    ensures Queued(items, k) ==> Contents(items)[k] == Lookup(items, k)
  {
    if items == [] {
    } else {
      ContentsIsLookup(items[1..], k);
    }
  }

  lemma ContentsAreLookups(items: seq<Item>)
    ensures forall k :: k in Contents(items) <==> Queued(items, k)
    ensures forall k | Queued(items, k) :: Contents(items)[k] == Lookup(items, k)
  {
    forall k ensures k in Contents(items) <==> Queued(items, k)
      ensures Queued(items, k) ==> Contents(items)[k] == Lookup(items, k)
    {
      ContentsIsLookup(items, k);
    }
  }

  lemma ContentsByMembers(items: seq<Item>, m: map<Key, Item>)
    requires DistinctKeys(items)
    requires forall k | k in m :: m[k].key == k
    requires forall it :: it in items <==> it.key in m && m[it.key] == it
    ensures Contents(items) == m
  {
    hide Contents;
    ContentsAreLookups(items);
    forall k | k in m ensures k in Contents(items) && Contents(items)[k] == m[k] {
      LookupIsMember(items, m[k]);
    }
    forall k | k in Contents(items) ensures k in m {
      assert Lookup(items, k) in items;
    }
  }

  lemma ContentsMembers(items: seq<Item>)
    requires DistinctKeys(items)
    ensures forall it :: it in items <==> it.key in Contents(items) && Contents(items)[it.key] == it
    ensures forall k | k in Contents(items) :: Contents(items)[k].key == k
  {
    hide Contents;
    ContentsAreLookups(items);
    forall it | it in items ensures it.key in Contents(items) && Contents(items)[it.key] == it {
      LookupIsMember(items, it);
    }
  }

  /** Enqueueing a key creates it, brings it forward to the minimum of both times, or leaves the list alone. */
  lemma InsertOnMap<P>(s: State<P>, key: Key, ratelimit: bool, delay: Option<int>, now: int, rate: nat)
    requires Inv(s)
    ensures var m := Contents(s.items);
            Contents(Insert(s, key, ratelimit, delay, now, rate).items) ==
              if key in s.busy then m
              else if key in m then m[key := Earlier(m[key], now + delay.GetOr(0))]
              else m[key := NewItem(key, ratelimit, delay, now, rate)]
  {
    if key !in s.busy {
      var m := Contents(s.items);
      ContentsMembers(s.items);
      EnlistLaw(s.items, key, ratelimit, delay, now, rate);
      ContentsByMembers(Enlist(s.items, key, ratelimit, delay, now, rate),
                        m[key := Enlisted(s.items, key, ratelimit, delay, now, rate)]);
    }
  }

  /**
   When an enqueued key is planned, unless it is being processed: a new one after the given delay, else after
   the rate limiter's if it is asked, else at once; a queued one at the earlier of its own time and the call's.
   */
  lemma EnqueuedTime<P>(s: State<P>, key: Key, ratelimit: bool, delay: Option<int>, now: int, rate: nat)
    requires Inv(s) && key !in s.busy
    ensures var m, m' := Contents(s.items), Contents(Insert(s, key, ratelimit, delay, now, rate).items);
            && m'.Keys == m.Keys + {key}
            && (forall k | k in m && k != key :: m'[k] == m[k])
            && (key in m && delay.None? ==>
                 m'[key].plannedAt == if now < m[key].plannedAt then now else m[key].plannedAt)
            && (key in m && delay.Some? ==>
                 m'[key].plannedAt <= m[key].plannedAt && m'[key].plannedAt <= now + delay.value
                 && (m'[key].plannedAt == m[key].plannedAt || m'[key].plannedAt == now + delay.value))
            && (key in m ==> m'[key].requeues == m[key].requeues && m'[key].originallyAdded == m[key].originallyAdded)
            && (key !in m ==>
                 m'[key].requeues == 0 && m'[key].originallyAdded == now
                 && m'[key].plannedAt - now == match delay case Some(d) => d case None => if ratelimit then rate else 0)
  {
    hide Inv, Contents, Insert;
    InsertOnMap(s, key, ratelimit, delay, now, rate);
  }

  lemma WithoutOnMap(items: seq<Item>, key: Key)
    requires Sorted(items) && DistinctKeys(items)
    ensures Contents(Without(items, key)) == Contents(items) - {key}
  {
    hide Sorted, DistinctKeys, Without, Contents;
    ContentsMembers(items);
    WithoutMembers(items, key);
    WithoutIsSorted(items, key);
    ContentsByMembers(Without(items, key), Contents(items) - {key});
  }

  lemma ForgetOnMap<P>(s: State<P>, key: Key)
    requires Inv(s)
    ensures Contents(Forget(s, key).items) == Contents(s.items) - {key}
  {
    hide Contents, Without;
    WithoutOnMap(s.items, key);
    ContentsAreLookups(s.items);
    if !Queued(s.items, key) {
      assert Contents(s.items) - {key} == Contents(s.items);
    }
  }

  /** A dequeue takes an item planned no later than any other and removes exactly its key. */
  lemma TakeOnMap<P>(s: State<P>, p: P)
    requires Inv(s) && s.items != []
    ensures var m := Contents(s.items); var front := s.items[0];
            && front.key in m && m[front.key] == front && front.key !in s.busy
            && (forall k | k in m :: front.plannedAt <= m[k].plannedAt)
            && Contents(Take(s, p).items) == m - {front.key}
  {
    var front := s.items[0];
    assert IndexOf(s.items, front.key) == 0;
    assert s.items[1..] == Without(s.items, front.key);
    WithoutOnMap(s.items, front.key);
    FrontIsEarliest(s.items);
  }

  lemma FrontIsEarliest(items: seq<Item>)
    requires Sorted(items) && items != []
    ensures forall k | k in Contents(items) :: items[0].plannedAt <= Contents(items)[k].plannedAt
  {
    hide Contents;
    ContentsAreLookups(items);
  }

  lemma PatchOnMap(items: seq<Item>, key: Key, a: Amendment)
    requires key in Contents(items)
    ensures Contents(Patch(items, key, a)) == Contents(items)[key := Amend(Contents(items)[key], a)]
  {
    hide Patch, IndexOf, Contents;
    ContentsAreLookups(items);
    ContentsAreLookups(Patch(items, key, a));
    PatchMembers(items, key, a);
  }

  /** What completing puts back under the key, if anything. */
  function PutBack(qi: Item, failed: bool, retry: RetryFunc, now: int, rate: nat): Option<Item> {
    var decision := retry(qi.key, qi.requeues + 1, qi.originallyAdded);
    if qi.forget then None
    else if failed && decision.Retry? then
      Some(Amend(NewItem(qi.key, true, decision.delay, now, rate), Retried(qi.requeues + 1, qi.originallyAdded)))
    else if qi.redirtiedAt.Some? then
      Some(Amend(NewItem(qi.key, qi.redirtiedWithRatelimit, Some(qi.redirtiedAt.value - now), now, rate), ViaRedirty))
    else None
  }

  /** Completing touches its own key only, and always puts back a new item. */
  lemma CompleteOnMap<P>(s: State<P>, p: P, failed: bool, retry: RetryFunc, now: int, rate: nat)
    requires Inv(s) && p in s.heap
    ensures var qi := s.heap[p]; var m := Contents(s.items); var back := PutBack(qi, failed, retry, now, rate);
            && qi.key !in m
            && Contents(Complete(s, p, failed, retry, now, rate).items) ==
                 if back.Some? then m[qi.key := back.value] else m
  {
    hide Patch, Contents, Enlist, NewItem;
    var qi := s.heap[p];
    var decision := retry(qi.key, qi.requeues + 1, qi.originallyAdded);
    DropKeepsInv(s, p);
    NotListed(s, qi.key);
    if qi.forget {
    } else if failed && decision.Retry? {
      InsertOnMap(Drop(s, p), qi.key, true, decision.delay, now, rate);
      PatchOnMap(Insert(Drop(s, p), qi.key, true, decision.delay, now, rate).items, qi.key,
                 Retried(qi.requeues + 1, qi.originallyAdded));
    } else if qi.redirtiedAt.Some? {
      var delay := Some(qi.redirtiedAt.value - now);
      InsertOnMap(Drop(s, p), qi.key, qi.redirtiedWithRatelimit, delay, now, rate);
      PatchOnMap(Insert(Drop(s, p), qi.key, qi.redirtiedWithRatelimit, delay, now, rate).items, qi.key, ViaRedirty);
    }
  }

  lemma NotListed<P>(s: State<P>, key: Key)
    requires Inv(s) && key in s.busy
    ensures key !in Contents(s.items)
  {
    hide Contents;
    ContentsAreLookups(s.items);
    BusyIsNotQueued(s);
  }

  /** Len counts every tracked key once: the keys queued and the keys being processed do not overlap. */
  lemma LenCountsKeys<P>(s: State<P>)
    requires Inv(s)
    ensures |s.items| == |Keys(s.items)|
    ensures Keys(s.items) !! s.busy.Keys
    ensures |s.items| + |s.busy| == |Keys(s.items) + s.busy.Keys|
  {
    DistinctCount(s.items);
    BusyIsNotQueued(s);
    assert |s.busy| == |s.busy.Keys|;
  }

  lemma {:induction false} DistinctCount(items: seq<Item>)
    requires DistinctKeys(items)
    ensures |items| == |Keys(items)|
  {
    if items == [] {
      assert Keys(items) == {};
    } else {
      var rest := items[1..];
      DistinctCount(rest);
      assert items == [items[0]] + rest;
      assert items[0].key !in Keys(rest);
      assert Keys(items) == {items[0].key} + Keys(rest);
    }
  }
}

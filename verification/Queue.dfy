/**
 The work queue as the program keeps it: item objects updated in place, a list of them, an index
 into the list and the table of items being processed. Every method is one lock-held region and is
 proved to do to the queue's value what QueueSpec says.

 The linked list is a sequence of item objects; an element's position stands for the list element.
 The rate limiter's answer and the clock are parameters, read once per region.
 */
module WorkQueue {
  import opened Options
  import Spec = QueueSpec
  import Laws = QueueLaws

  class QueueItem {
    const key: Spec.Key
    var plannedToStartWorkAt: int
    var redirtiedAt: Option<int>
    var redirtiedWithRatelimit: bool
    var forget: bool
    var requeues: nat
    var originallyAdded: int
    var addedViaRedirty: bool
    var delayedViaRateLimit: Option<int>

    constructor (key: Spec.Key, now: int)
      ensures Value() == Spec.Item(key, now, None, false, false, 0, now, false, None)
    {
      this.key := key;
      plannedToStartWorkAt, originallyAdded := now, now;
      redirtiedAt, redirtiedWithRatelimit, forget := None, false, false;
      requeues, addedViaRedirty, delayedViaRateLimit := 0, false, None;
    }

    ghost function Value(): Spec.Item
      reads this
    {
      Spec.Item(key, plannedToStartWorkAt, redirtiedAt, redirtiedWithRatelimit, forget, requeues,
                originallyAdded, addedViaRedirty, delayedViaRateLimit)
    }
  }

  ghost function Values(items: seq<QueueItem>): (vs: seq<Spec.Item>)
    reads items
    ensures |vs| == |items| && forall i | 0 <= i < |items| :: vs[i] == items[i].Value()
  {
    seq(|items|, i requires 0 <= i < |items| reads items => items[i].Value())
  }

  /** What a worker finds when it looks at the front of the list. */
  datatype Next = Nothing | Later(wait: int) | Due(qi: QueueItem)

  class Queue {
    const retryFunc: Spec.RetryFunc
    var items: seq<QueueItem>
    var itemsInQueue: map<Spec.Key, QueueItem>
    var itemsBeingProcessed: map<Spec.Key, QueueItem>
    // Whether the wake-up channel, of capacity one, holds its token.
    var wakeup: bool

    ghost function Heap(): map<QueueItem, Spec.Item>
      reads this, itemsBeingProcessed.Values
    {
      map q | q in itemsBeingProcessed.Values :: q.Value()
    }

    ghost function Abs(): Spec.State<QueueItem>
      reads this, items, itemsBeingProcessed.Values
    {
      Spec.State(Values(items), itemsBeingProcessed, Heap(), wakeup)
    }

    /** The index holds exactly the listed items, each under its key. */
    static ghost predicate IsIndex(list: seq<QueueItem>, index: map<Spec.Key, QueueItem>) {
      && (forall i | 0 <= i < |list| :: list[i].key in index && index[list[i].key] == list[i])
      && (forall k | k in index :: index[k] in list && index[k].key == k)
    }

    ghost predicate Indexed()
      reads this
    {
      IsIndex(items, itemsInQueue)
    }

    ghost predicate Valid()
      reads this, items, itemsBeingProcessed.Values
    {
      Indexed() && Spec.Inv(Abs())
    }

    constructor (retry: Option<Spec.RetryFunc>)
      ensures Valid() && Abs() == Spec.State([], map[], map[], false)
      ensures retryFunc == retry.GetOr(Spec.DefaultRetry)
    {
      retryFunc := retry.GetOr(Spec.DefaultRetry);
      items, itemsInQueue, itemsBeingProcessed, wakeup := [], map[], map[], false;
    }

    /** Enqueue, rate limited. */
    method Enqueue(key: Spec.Key, now: int, rate: nat)
      requires Valid()
      modifies this, items, itemsBeingProcessed.Values
      ensures Valid() && Abs() == Spec.Insert(old(Abs()), key, true, None, now, rate)
    {
      var qi := Insert(key, true, None, now, rate);
    }

    method EnqueueWithoutRateLimit(key: Spec.Key, now: int, rate: nat)
      requires Valid()
      modifies this, items, itemsBeingProcessed.Values
      ensures Valid() && Abs() == Spec.Insert(old(Abs()), key, false, None, now, rate)
    {
      var qi := Insert(key, false, None, now, rate);
    }

    method EnqueueWithoutRateLimitWithDelay(key: Spec.Key, after: int, now: int, rate: nat)
      requires Valid()
      modifies this, items, itemsBeingProcessed.Values
      ensures Valid() && Abs() == Spec.Insert(old(Abs()), key, false, Some(after), now, rate)
    {
      var qi := Insert(key, false, Some(after), now, rate);
    }

    /** `now` is the clock's reading and `rate` the answer of the rate limiter's When, should it be asked. */
    method Insert(key: Spec.Key, ratelimit: bool, delay: Option<int>, now: int, rate: nat) returns (qi: QueueItem)
      requires Valid()
      modifies this, items, itemsBeingProcessed.Values
      ensures Valid() && Abs() == Spec.Insert(old(Abs()), key, ratelimit, delay, now, rate)
      ensures itemsBeingProcessed == old(itemsBeingProcessed)
      ensures qi.key == key && (key !in itemsBeingProcessed ==> qi in items)
      ensures fresh(qi) || qi in old(items) || qi in old(itemsBeingProcessed.Values)
    {
      hide Spec.Inv, QueueItem.Value, Values, Heap, IsIndex, Spec.Queued, Spec.Adjust, Spec.Place, Spec.Without,
        Spec.NewItem, Spec.Redirty;
      Laws.InsertKeepsInv(Abs(), key, ratelimit, delay, now, rate);
      IndexIsLookup(key);
      BusyUnderItsKey();
      if key in itemsBeingProcessed {
        qi := itemsBeingProcessed[key];
        Redirty(qi, now + delay.GetOr(0), ratelimit);
      } else if key in itemsInQueue {
        qi := itemsInQueue[key];
        AdjustPosition(qi, now + delay.GetOr(0));
      } else {
        qi := AddNew(key, ratelimit, delay, now, rate);
      }
      Wake();
    }

    /** The non-blocking send on the wake-up channel. */
    method Wake()
      modifies this`wakeup
      ensures Abs() == old(Abs()).(wake := true)
    {
      wakeup := true;
    }

    method Redirty(qi: QueueItem, when: int, ratelimit: bool)
      requires Valid() && qi in itemsBeingProcessed.Values
      modifies qi`redirtiedAt, qi`redirtiedWithRatelimit, qi`forget
      ensures Abs() == old(Abs()).(heap := old(Heap())[qi := Spec.Redirty(old(Heap()[qi]), when, ratelimit)])
      ensures Indexed()
    {
      hide Spec.Inv;
      BusyIsNotListed(qi);
      if qi.redirtiedAt.None? || when < qi.redirtiedAt.value {
        qi.redirtiedAt := Some(when);
        qi.redirtiedWithRatelimit := ratelimit;
      }
      qi.forget := false;
      assert qi.Value() == Spec.Redirty(old(qi.Value()), when, ratelimit);
      OnlyBusyChanged(qi);
    }

    static method NewItem(key: Spec.Key, ratelimit: bool, delay: Option<int>, now: int, rate: nat)
      returns (val: QueueItem)
      ensures fresh(val) && val.key == key && val.Value() == Spec.NewItem(key, ratelimit, delay, now, rate)
    {
      val := new QueueItem(key, now);
      if ratelimit {
        var actualDelay := rate;
        if delay.Some? { actualDelay := delay.value; }
        val.plannedToStartWorkAt := val.plannedToStartWorkAt + actualDelay;
        val.delayedViaRateLimit := Some(actualDelay);
      } else {
        val.plannedToStartWorkAt := val.plannedToStartWorkAt + delay.GetOr(0);
      }
    }

    /** The backward scan: from position `bound` to just behind the first item planned before `time`. */
    method ScanBack(bound: nat, time: int) returns (i: nat)
      requires bound <= |items|
      ensures i <= bound && (i > 0 ==> items[i - 1].plannedToStartWorkAt < time)
      ensures forall j | i <= j < bound :: time <= items[j].plannedToStartWorkAt
    {
      i := bound;
      while i > 0 && !(items[i - 1].plannedToStartWorkAt < time)
        invariant i <= bound
        invariant forall j | i <= j < bound :: time <= items[j].plannedToStartWorkAt
      {
        i := i - 1;
      }
    }

    method AddNew(key: Spec.Key, ratelimit: bool, delay: Option<int>, now: int, rate: nat) returns (val: QueueItem)
      requires Valid() && key !in itemsInQueue
      modifies this`items, this`itemsInQueue
      ensures Indexed() && fresh(val) && val in items && val.key == key
      ensures Abs() == old(Abs()).(items :=
        Spec.Place(old(Values(items)), Spec.NewItem(key, ratelimit, delay, now, rate)))
    {
      hide Spec.Inv, IsIndex, Spec.Place, Spec.NewItem, QueueItem.Value;
      val := NewItem(key, ratelimit, delay, now, rate);
      Add(val);
    }

    /** Put a new item on the list, looking for its place from the back. */
    method Add(val: QueueItem)
      requires Valid() && val !in items && val.key !in itemsInQueue
      modifies this`items, this`itemsInQueue
      ensures Indexed() && val in items
      ensures Abs() == old(Abs()).(items := Spec.Place(old(Values(items)), val.Value()))
    {
      hide QueueItem.Value, Spec.Inv, Spec.Place, IsIndex;
      var i := ScanBack(|items|, val.plannedToStartWorkAt);
      ListIsSorted();
      InsertedIsIndexed(items, itemsInQueue, i, val);
      ghost var list := items[..i] + [val] + items[i..];
      PlaceAt(items, val, i);
      assert Values(list) == Spec.Place(Values(items), val.Value());
      itemsInQueue := itemsInQueue[val.key := val];
      items := items[..i] + [val] + items[i..];
      assert Values(list) == old(Spec.Place(Values(items), val.Value()));
      OnlyListChanged();
    }

    static lemma PlaceAt(list: seq<QueueItem>, val: QueueItem, i: nat)
      requires Spec.Sorted(Values(list)) && i <= |list|
      requires i > 0 ==> list[i - 1].plannedToStartWorkAt < val.plannedToStartWorkAt
      requires forall j | i <= j < |list| :: val.plannedToStartWorkAt <= list[j].plannedToStartWorkAt
      ensures Values(list[..i] + [val] + list[i..]) == Spec.Place(Values(list), val.Value())
    {
      hide Spec.Place;
      PlannedInValues(list, val);
      SlotIs(Values(list), val.plannedToStartWorkAt, i);
      PlaceInto(Values(list), val.Value(), i);
      SplicedValues(list, val, i);
    }

    static lemma PlannedInValues(list: seq<QueueItem>, val: QueueItem)
      ensures forall j | 0 <= j < |list| :: Values(list)[j].plannedAt == list[j].plannedToStartWorkAt
      ensures val.Value().plannedAt == val.plannedToStartWorkAt
    {}

    static lemma SplicedValues(list: seq<QueueItem>, val: QueueItem, i: nat)
      requires i <= |list|
      ensures Values(list[..i] + [val] + list[i..]) == Values(list)[..i] + [val.Value()] + Values(list)[i..]
    {
      hide QueueItem.Value;
    }

    lemma ListIsSorted()
      requires Valid()
      ensures Spec.Sorted(Values(items)) && Spec.DistinctKeys(Values(items))
    {}

    static lemma InsertedIsIndexed(list: seq<QueueItem>, index: map<Spec.Key, QueueItem>, pos: nat, val: QueueItem)
      requires IsIndex(list, index) && pos <= |list| && val.key !in index
      ensures IsIndex(list[..pos] + [val] + list[pos..], index[val.key := val])
    {
      var grown := list[..pos] + [val] + list[pos..];
      assert list == list[..pos] + list[pos..];
      forall i | 0 <= i < |grown| && i != pos ensures grown[i].key != val.key && index[grown[i].key] == grown[i] {
        assert grown[i] == if i < pos then list[i] else list[i - 1];
      }
    }

    static lemma SlotIs(items: seq<Spec.Item>, time: int, n: nat)
      requires Spec.Sorted(items) && n <= |items|
      requires n > 0 ==> items[n - 1].plannedAt < time
      requires forall j | n <= j < |items| :: time <= items[j].plannedAt
      ensures Spec.Slot(items, time) == n
    {}

    /** Bring a listed item forward, looking for its place from its own element backwards. */
    method AdjustPosition(qi: QueueItem, when: int)
      requires Valid() && qi in items
      modifies this`items, qi`plannedToStartWorkAt
      ensures Indexed()
      ensures Abs() == old(Abs()).(items := Spec.Adjust(old(Values(items)), qi.key, when)) && qi in items
    {
      hide QueueItem.Value, Spec.Inv, Spec.Place, Spec.Without, IsIndex;
      var pos :| 0 <= pos < |items| && items[pos] == qi;
      PositionIsUnique(pos);
      ListIsSorted();
      KeysAreDistinct();
      PlannedAreValues();
      if when > qi.plannedToStartWorkAt {
        return;
      }
      var i := ScanBack(pos, when);
      Advance(qi, pos, i, when);
    }

    /** The scan ended at `i`: move the element at `pos` there, with its new time. */
    method Advance(qi: QueueItem, pos: nat, i: nat, when: int)
      requires Valid() && i <= pos < |items| && items[pos] == qi && when <= qi.plannedToStartWorkAt
      requires i > 0 ==> items[i - 1].plannedToStartWorkAt < when
      requires forall j | i <= j < pos :: when <= items[j].plannedToStartWorkAt
      modifies this`items, qi`plannedToStartWorkAt
      ensures Indexed()
      ensures Abs() == old(Abs()).(items := Spec.Adjust(old(Values(items)), qi.key, when)) && qi in items
    {
      hide Spec.Inv, Spec.Adjust, IsIndex;
      ListIsSorted();
      PositionIsUnique(pos);
      KeysAreDistinct();
      PlannedAreValues();
      ListedIsNotBusy(qi);
      AdjustAt(Values(items), pos, i, when);
      MovedIsIndexed(items, itemsInQueue, pos, i);
      ghost var list, vs := items, Values(items);
      qi.plannedToStartWorkAt := when;
      items := items[..i] + [qi] + (items[i..pos] + items[pos + 1..]);
      OnlyListChanged();
      MovedValues(list, vs, pos, i);
    }

    static lemma MovedValues(list: seq<QueueItem>, vs: seq<Spec.Item>, pos: nat, i: nat)
      requires i <= pos < |list| && |vs| == |list|
      requires forall j | 0 <= j < |list| && j != pos :: Values(list)[j] == vs[j]
      ensures Values(list[..i] + [list[pos]] + (list[i..pos] + list[pos + 1..]))
           == vs[..i] + [list[pos].Value()] + (vs[i..pos] + vs[pos + 1..])
    {
      hide QueueItem.Value;
      var moved := list[..i] + [list[pos]] + (list[i..pos] + list[pos + 1..]);
      var expected := vs[..i] + [list[pos].Value()] + (vs[i..pos] + vs[pos + 1..]);
      forall j | 0 <= j < |moved| ensures Values(moved)[j] == expected[j] {
        var k := if j < i || pos < j then j else if j == i then pos else j - 1;
        assert moved[j] == list[k];
        assert k != pos ==> expected[j] == vs[k];
      }
      assert Values(moved) == expected;
    }

    lemma PlannedAreValues()
      ensures forall i | 0 <= i < |items| :: Values(items)[i].plannedAt == items[i].plannedToStartWorkAt
    {}

    static lemma AdjustAt(vs: seq<Spec.Item>, pos: nat, i: nat, when: int)
      requires Spec.Sorted(vs) && i <= pos < |vs| && when <= vs[pos].plannedAt
      requires i > 0 ==> vs[i - 1].plannedAt < when
      requires forall j | i <= j < pos :: when <= vs[j].plannedAt
      requires Spec.IndexOf(vs, vs[pos].key) == pos
      ensures Spec.Adjust(vs, vs[pos].key, when)
           == vs[..i] + [vs[pos].(plannedAt := when)] + (vs[i..pos] + vs[pos + 1..])
    {
      hide Spec.Sorted, Spec.Slot, Spec.IndexOf, Spec.Without, Spec.Place;
      var key, item := vs[pos].key, vs[pos].(plannedAt := when);
      SlotInRest(vs, pos, i, when);
      WithoutAt(vs, pos);
      PlaceInto(Spec.Without(vs, key), item, i);
      CutSplits(vs, pos, i);
    }

    static lemma WithoutAt(vs: seq<Spec.Item>, pos: nat)
      requires pos < |vs| && Spec.IndexOf(vs, vs[pos].key) == pos
      ensures Spec.Without(vs, vs[pos].key) == vs[..pos] + vs[pos + 1..]
    {
      hide Spec.Without;
      Laws.WithoutIsCut(vs, vs[pos].key);
    }

    static lemma PlaceInto(items: seq<Spec.Item>, item: Spec.Item, n: nat)
      requires n <= |items| && Spec.Slot(items, item.plannedAt) == n
      ensures Spec.Place(items, item) == items[..n] + [item] + items[n..]
    {
      hide Spec.Place;
      Laws.PlaceIsSplice(items, item);
    }

    static lemma CutSplits<T>(s: seq<T>, pos: nat, i: nat)
      requires i <= pos < |s|
      ensures (s[..pos] + s[pos + 1..])[..i] == s[..i]
      ensures (s[..pos] + s[pos + 1..])[i..] == s[i..pos] + s[pos + 1..]
    {}

    static lemma SlotInRest(vs: seq<Spec.Item>, pos: nat, i: nat, when: int)
      requires Spec.Sorted(vs) && i <= pos < |vs| && when <= vs[pos].plannedAt
      requires i > 0 ==> vs[i - 1].plannedAt < when
      requires forall j | i <= j < pos :: when <= vs[j].plannedAt
      ensures Spec.Slot(vs[..pos] + vs[pos + 1..], when) == i
    {
      var rest := vs[..pos] + vs[pos + 1..];
      forall j | 0 <= j < |rest| ensures rest[j] == vs[if j < pos then j else j + 1] {}
      SlotIs(rest, when, i);
    }

    static lemma MovedIsIndexed(list: seq<QueueItem>, index: map<Spec.Key, QueueItem>, pos: nat, i: nat)
      requires IsIndex(list, index) && i <= pos < |list|
      ensures IsIndex(list[..i] + [list[pos]] + (list[i..pos] + list[pos + 1..]), index)
    {
      var moved := list[..i] + [list[pos]] + (list[i..pos] + list[pos + 1..]);
      assert list == list[..i] + list[i..pos] + [list[pos]] + list[pos + 1..];
      forall j | 0 <= j < |moved| ensures moved[j] in list {}
    }

    method Forget(key: Spec.Key)
      requires Valid()
      modifies this, items, itemsBeingProcessed.Values
      ensures Valid() && Abs() == Spec.Forget(old(Abs()), key)
    {
      hide Spec.Inv, Spec.Without, Spec.Queued, QueueItem.Value;
      Laws.ForgetKeepsInv(Abs(), key);
      IndexIsLookup(key);
      if key in itemsInQueue {
        Remove(itemsInQueue[key]);
      } else if key in itemsBeingProcessed {
        MarkForgotten(itemsBeingProcessed[key]);
      }
      assert Abs() == Spec.Forget(old(Abs()), key);
    }

    method MarkForgotten(qi: QueueItem)
      requires Valid() && qi in itemsBeingProcessed.Values
      modifies qi`forget
      ensures Abs() == old(Abs()).(heap := old(Heap())[qi := old(Heap()[qi]).(forget := true)])
      ensures Indexed()
    {
      hide Spec.Inv;
      BusyIsNotListed(qi);
      qi.forget := true;
      OnlyBusyChanged(qi);
    }

    twostate lemma OnlyBusyChanged(qi: QueueItem)
      requires unchanged(this) && qi in itemsBeingProcessed.Values && qi !in items
      requires forall q | q in itemsBeingProcessed.Values && q != qi :: unchanged(q)
      requires forall q | q in items :: unchanged(q)
      ensures Abs() == old(Abs()).(heap := old(Heap())[qi := qi.Value()])
    {
      forall i | 0 <= i < |items| ensures Values(items)[i] == old(Values(items))[i] {
        assert items[i] in items;
      }
      assert Values(items) == old(Values(items));
    }

    twostate lemma OnlyListChanged()
      requires itemsBeingProcessed == old(itemsBeingProcessed) && wakeup == old(wakeup)
      requires forall q | q in itemsBeingProcessed.Values :: unchanged(q)
      ensures Abs() == old(Abs()).(items := Values(items))
    {}

    lemma KeysAreDistinct()
      requires Valid()
      ensures forall i, j | 0 <= i < j < |items| :: items[i].key != items[j].key
    {
      assert forall i | 0 <= i < |items| :: Values(items)[i].key == items[i].key;
    }

    lemma ListedIsNotBusy(qi: QueueItem)
      requires Valid() && qi in items
      ensures qi !in itemsBeingProcessed.Values
    {
      if qi in itemsBeingProcessed.Values { BusyIsNotListed(qi); }
    }

    lemma BusyIsNotListed(qi: QueueItem)
      requires Valid() && qi in itemsBeingProcessed.Values
      ensures qi !in items
    {
      assert Heap()[qi].key == qi.key;
      forall i | 0 <= i < |items| ensures items[i] != qi {
        assert Values(items)[i].key == items[i].key;
      }
    }

    /** Take an element off the list and out of the index. */
    method Remove(qi: QueueItem)
      requires Valid() && qi in items
      modifies this`items, this`itemsInQueue
      ensures Indexed()
      ensures Abs() == old(Abs()).(items := Spec.Without(old(Values(items)), qi.key))
    {
      hide Spec.Inv, IsIndex, Spec.IndexOf, Spec.Without, QueueItem.Value;
      var pos :| 0 <= pos < |items| && items[pos] == qi;
      PositionIsUnique(pos);
      WithoutAt(Values(items), pos);
      KeysAreDistinct();
      CutIsIndexed(items, itemsInQueue, pos);
      itemsInQueue := itemsInQueue - {qi.key};
      items := items[..pos] + items[pos + 1..];
      CutValues(old(items), pos);
    }

    static lemma CutValues(list: seq<QueueItem>, pos: nat)
      requires pos < |list|
      ensures Values(list[..pos] + list[pos + 1..]) == Values(list)[..pos] + Values(list)[pos + 1..]
    {
      hide QueueItem.Value;
    }

    static lemma CutIsIndexed(list: seq<QueueItem>, index: map<Spec.Key, QueueItem>, pos: nat)
      requires IsIndex(list, index) && pos < |list|
      requires forall i, j | 0 <= i < j < |list| :: list[i].key != list[j].key
      ensures IsIndex(list[..pos] + list[pos + 1..], index - {list[pos].key})
    {
      var key, cut := list[pos].key, list[..pos] + list[pos + 1..];
      forall i | 0 <= i < |cut| ensures cut[i].key != key && index[cut[i].key] == cut[i] {
        assert cut[i] == if i < pos then list[i] else list[i + 1];
      }
      forall k | k in index && k != key ensures index[k] in cut {
        var i :| 0 <= i < |list| && list[i] == index[k];
        assert i < pos ==> cut[i] == index[k];
        assert i > pos ==> cut[i - 1] == index[k];
      }
    }

    lemma IndexIsLookup(key: Spec.Key)
      requires Valid()
      ensures key in itemsInQueue <==> Spec.Queued(Values(items), key)
      ensures key in itemsInQueue ==> itemsInQueue[key] in items && itemsInQueue[key].key == key
    {
      var n := Spec.IndexOf(Values(items), key);
      if n < |items| { assert items[n].key == key; }
      if key in itemsInQueue {
        var i :| 0 <= i < |items| && items[i] == itemsInQueue[key];
        assert Values(items)[i].key == key;
      }
    }

    lemma PositionIsUnique(pos: nat)
      requires Valid() && pos < |items|
      ensures Spec.IndexOf(Values(items), items[pos].key) == pos
    {
      var n := Spec.IndexOf(Values(items), items[pos].key);
      assert Values(items)[pos].key == items[pos].key;
    }

    /** The lock-held region of getNextItem: dequeue the front item if it is due. */
    method NextItem(now: int) returns (found: Next)
      requires Valid()
      modifies this`items, this`itemsInQueue, this`itemsBeingProcessed
      ensures Valid()
      ensures match Spec.Glance(old(Values(items)), now)
        case NothingThere => found == Nothing
        case NotBefore(time) => found == Later(time - now)
        case FrontDue => found.Due?
      ensures found.Due? ==> old(Abs()).items != [] && old(Abs()).items[0].plannedAt <= now
      ensures found.Due? ==> Abs() == Spec.Take(old(Abs()), found.qi)
      ensures found.Nothing? ==> Abs() == old(Abs()) && items == []
      ensures found.Later? ==> Abs() == old(Abs()) && found.wait > 0
                               && forall i | 0 <= i < |items| :: now + found.wait <= items[i].plannedToStartWorkAt
    {
      if items == [] {
        return Nothing;
      }
      var qi := items[0];
      var timeUntilProcessing := qi.plannedToStartWorkAt - now;
      if timeUntilProcessing <= 0 {
        TakeFront();
        return Due(qi);
      }
      ListIsSorted();
      PlannedAreValues();
      return Later(timeUntilProcessing);
    }

    method TakeFront()
      requires Valid() && items != []
      modifies this`items, this`itemsInQueue, this`itemsBeingProcessed
      ensures Valid() && Abs() == Spec.Take(old(Abs()), old(items[0]))
    {
      hide Spec.Inv, IsIndex, Values, Heap;
      var qi := items[0];
      ListedIsNotBusy(qi);
      ListedKeyIsNotBusy(qi);
      KeysAreDistinct();
      FrontIsIndexed();
      TakeIsSafe();
      ValuesOfRest(items);
      BusyExtended(itemsBeingProcessed, qi);
      itemsBeingProcessed := itemsBeingProcessed[qi.key := qi];
      items := items[1..];
      itemsInQueue := itemsInQueue - {qi.key};
      assert Values(items) == old(Values(items))[1..];
      HeapExtended(qi);
    }

    lemma TakeIsSafe()
      requires Valid() && items != []
      ensures Abs().items != [] && Spec.Inv(Spec.Take(Abs(), items[0]))
    {
      hide Spec.Inv, Spec.Take;
      ListedIsNotBusy(items[0]);
      assert Abs().items[0] == items[0].Value();
      Laws.TakeKeepsInv(Abs(), items[0]);
    }

    lemma FrontIsIndexed()
      requires Valid() && items != []
      ensures IsIndex(items[1..], itemsInQueue - {items[0].key})
    {
      hide Spec.Inv, IsIndex;
      KeysAreDistinct();
      CutIsIndexed(items, itemsInQueue, 0);
      assert items[..0] + items[1..] == items[1..];
    }

    static lemma ValuesOfRest(list: seq<QueueItem>)
      requires list != []
      ensures Values(list[1..]) == Values(list)[1..] && Values(list)[0] == list[0].Value() && Values(list) != []
    {}

    twostate lemma HeapExtended(qi: QueueItem)
      requires qi !in old(itemsBeingProcessed.Values) && unchanged(qi)
      requires itemsBeingProcessed.Values == old(itemsBeingProcessed.Values) + {qi}
      requires forall q | q in old(itemsBeingProcessed.Values) :: unchanged(q)
      ensures Heap() == old(Heap())[qi := qi.Value()]
    {
      hide QueueItem.Value;
    }

    static lemma BusyExtended(busy: map<Spec.Key, QueueItem>, qi: QueueItem)
      requires qi.key !in busy
      ensures busy[qi.key := qi].Values == busy.Values + {qi}
    {
      var extended := busy[qi.key := qi];
      assert extended[qi.key] == qi;
      forall q | q in busy.Values ensures q in extended.Values {
        var k :| k in busy && busy[k] == q;
        assert extended[k] == q;
      }
    }

    lemma ListedKeyIsNotBusy(qi: QueueItem)
      requires Valid() && qi in items
      ensures qi.key !in itemsBeingProcessed && qi.Value() in Values(items)
    {
      var i :| 0 <= i < |items| && items[i] == qi;
      assert Values(items)[i].key == qi.key;
    }

    /** The worker is done with `qi`: the region that follows the handler in handleQueueItemObject. */
    method Complete(qi: QueueItem, failed: bool, now: int, rate: nat) returns (err: bool)
      requires Valid() && qi in itemsBeingProcessed.Values
      modifies this, items, itemsBeingProcessed.Values
      ensures Valid() && Abs() == Spec.Complete(old(Abs()), qi, failed, retryFunc, now, rate)
      ensures err == (failed && !old(qi.forget)
                      && retryFunc(qi.key, old(qi.requeues) + 1, old(qi.originallyAdded)).GiveUp?)
    {
      hide Spec.Inv, IsIndex, Values, Spec.Drop, Spec.Requeue, Spec.Readd;
      Laws.DropKeepsInv(Abs(), qi);
      assert Abs().heap[qi] == qi.Value();
      Drop(qi);
      if qi.forget {
        return false;
      }
      if failed {
        var decision := retryFunc(qi.key, qi.requeues + 1, qi.originallyAdded);
        err := decision.GiveUp?;
        if decision.Retry? {
          Requeue(qi, decision.delay, now, rate);
          return;
        }
      } else {
        err := false;
      }
      if qi.redirtiedAt.Some? {
        Readd(qi, now, rate);
      }
    }

    method Drop(qi: QueueItem)
      requires Valid() && qi in itemsBeingProcessed.Values
      modifies this`itemsBeingProcessed
      ensures Valid() && Abs() == Spec.Drop(old(Abs()), qi)
      ensures qi !in items && qi !in itemsBeingProcessed.Values && qi.key !in itemsBeingProcessed
      ensures itemsBeingProcessed.Values <= old(itemsBeingProcessed.Values)
    {
      hide Spec.Inv, QueueItem.Value;
      BusyIsNotListed(qi);
      BusyUnderItsKey();
      Laws.DropKeepsInv(Abs(), qi);
      BusyReduced(itemsBeingProcessed, qi);
      itemsBeingProcessed := itemsBeingProcessed - {qi.key};
      assert Heap() == old(Heap()) - {qi};
    }

    lemma BusyUnderItsKey()
      requires Valid()
      ensures forall k | k in itemsBeingProcessed :: itemsBeingProcessed[k].key == k
      ensures forall q | q in itemsBeingProcessed.Values :: Heap()[q].key == q.key
    {
      forall k | k in itemsBeingProcessed ensures itemsBeingProcessed[k].key == k {
        assert Heap()[itemsBeingProcessed[k]].key == k;
      }
    }

    static lemma BusyReduced(busy: map<Spec.Key, QueueItem>, qi: QueueItem)
      requires qi in busy.Values && forall k | k in busy :: busy[k].key == k
      ensures (busy - {qi.key}).Values == busy.Values - {qi}
    {
      var reduced := busy - {qi.key};
      forall q | q in busy.Values && q != qi ensures q in reduced.Values {
        var k :| k in busy && busy[k] == q;
        assert reduced[k] == q;
      }
    }

    method Requeue(qi: QueueItem, delay: Option<int>, now: int, rate: nat)
      requires Valid() && qi.key !in itemsBeingProcessed && qi !in items && qi !in itemsBeingProcessed.Values
      modifies this, items, itemsBeingProcessed.Values
      ensures Valid() && Abs() == Spec.Requeue(old(Abs()), old(qi.Value()), delay, now, rate)
    {
      hide Spec.Inv, Spec.Insert, Spec.Patch, Values, Heap, IsIndex;
      var newQI := Insert(qi.key, true, delay, now, rate);
      SetRetried(newQI, qi.requeues + 1, qi.originallyAdded);
    }

    method Readd(qi: QueueItem, now: int, rate: nat)
      requires Valid() && qi.key !in itemsBeingProcessed && qi !in items && qi !in itemsBeingProcessed.Values
      requires qi.redirtiedAt.Some?
      modifies this, items, itemsBeingProcessed.Values
      ensures Valid() && Abs() == Spec.Readd(old(Abs()), old(qi.Value()), old(qi.redirtiedAt.value), now, rate)
    {
      hide Spec.Inv, Spec.Insert, Spec.Patch, Values, Heap, IsIndex;
      var delay := qi.redirtiedAt.value - now;
      var newQI := Insert(qi.key, qi.redirtiedWithRatelimit, Some(delay), now, rate);
      SetRedirtied(newQI);
    }

    method SetRetried(newQI: QueueItem, requeues: nat, originallyAdded: int)
      requires Valid() && newQI in items
      modifies newQI`requeues, newQI`originallyAdded
      ensures Valid()
      ensures Abs() == old(Abs()).(items :=
        Spec.Patch(old(Values(items)), newQI.key, Spec.Retried(requeues, originallyAdded)))
    {
      hide Spec.Inv, Spec.Patch, IsIndex;
      ListedIsNotBusy(newQI);
      KeysAreDistinct();
      ghost var vs := Values(items);
      Laws.PatchKeepsInv(Abs(), newQI.key, Spec.Retried(requeues, originallyAdded));
      newQI.requeues := requeues;
      newQI.originallyAdded := originallyAdded;
      PatchedValues(newQI, vs, Spec.Retried(requeues, originallyAdded));
      assert Heap() == old(Heap());
    }

    method SetRedirtied(newQI: QueueItem)
      requires Valid() && newQI in items
      modifies newQI`addedViaRedirty
      ensures Valid()
      ensures Abs() == old(Abs()).(items := Spec.Patch(old(Values(items)), newQI.key, Spec.ViaRedirty))
    {
      hide Spec.Inv, Spec.Patch, IsIndex;
      ListedIsNotBusy(newQI);
      KeysAreDistinct();
      ghost var vs := Values(items);
      Laws.PatchKeepsInv(Abs(), newQI.key, Spec.ViaRedirty);
      newQI.addedViaRedirty := true;
      PatchedValues(newQI, vs, Spec.ViaRedirty);
      assert Heap() == old(Heap());
    }

    lemma PatchedValues(qi: QueueItem, vs: seq<Spec.Item>, a: Spec.Amendment)
      requires |vs| == |items| && forall i | 0 <= i < |items| :: items[i].key == vs[i].key
      requires forall i, j | 0 <= i < j < |items| :: items[i].key != items[j].key
      requires forall i | 0 <= i < |items| :: items[i].Value() == if items[i] == qi then Spec.Amend(vs[i], a) else vs[i]
      requires qi in items
      ensures Values(items) == Spec.Patch(vs, qi.key, a)
    {
      hide QueueItem.Value;
      forall i | 0 <= i < |items| ensures Values(items)[i] == Spec.Patch(vs, qi.key, a)[i] {}
    }

    /** The number of keys in the queue's care, each counted once; the consistency panic cannot happen. */
    method Len() returns (n: nat)
      requires Valid()
      ensures n == |Spec.Keys(Values(items)) + itemsBeingProcessed.Keys|
    {
      Laws.LenCountsKeys(Abs());
      IndexHasKeys();
      if |items| != |itemsInQueue| {
        assert false;
      }
      n := |items| + |itemsBeingProcessed|;
    }

    lemma IndexHasKeys()
      requires Valid()
      ensures itemsInQueue.Keys == Spec.Keys(Values(items))
    {
      forall k ensures k in itemsInQueue <==> Spec.Queued(Values(items), k) { IndexIsLookup(k); }
    }
  }
}

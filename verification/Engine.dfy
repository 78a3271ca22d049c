/**
 * FrankensteinQueue and its two heaps, updated in place (pkg/engine/queue.go), over the algorithms
 * of Go's container/heap. Every method is proved to compute the function of the same name in
 * Scheduling.dfy.
 */
module Engine {
  import opened Model
  import opened Selection
  import opened Scheduling

  datatype Location = InDelayed | InReady

  class Item {
    const msg: Message
    const order: nat
    var loc: Location
    var index: int

    constructor (msg: Message, order: nat)
      ensures this.msg == msg && this.order == order
    {
      this.msg := msg;
      this.order := order;
      loc := InDelayed;
      index := 0;
    }

    function AsEntry(): Entry {
      Entry(msg, order)
    }
  }

  function Members(items: seq<Item>): set<Item> {
    set it | it in items
  }

  function Entries(items: set<Item>): set<Entry> {
    set it | it in items :: it.AsEntry()
  }

  /** (j - 1) / 2 with the division truncating toward zero, so the root is its own parent. */
  function Parent(j: nat): nat {
    if j == 0 then 0 else (j - 1) / 2
  }

  /** The item at k does not precede its parent. */
  predicate Below(rule: Rule, items: seq<Item>, k: int)
    requires 0 <= k < |items|
  {
    !Before(rule, items[k].AsEntry(), items[Parent(k)].AsEntry())
  }

  /** The first n slots form a heap. */
  ghost predicate HeapOrdered(rule: Rule, items: seq<Item>, n: int)
    requires 0 <= n <= |items|
  {
    forall k :: 0 <= k < n ==> Below(rule, items, k)
  }

  /** The first n slots form a heap, but for slot j, which may precede its parent. */
  ghost predicate HeapButUp(rule: Rule, items: seq<Item>, n: int, j: int)
    requires 0 <= n <= |items| && 0 <= j < |items|
  {
    && (forall k {:trigger Below(rule, items, k)} :: 0 <= k < n && k != j ==> Below(rule, items, k))
    && GrandparentsOk(rule, items, n, j)
  }

  /** The first n slots form a heap, but for slot i, which may be misplaced either way. */
  ghost predicate HeapButBoth(rule: Rule, items: seq<Item>, n: int, i: int)
    requires 0 <= n <= |items| && 0 <= i < |items|
  {
    && (forall k {:trigger Below(rule, items, k)} :: 0 <= k < n && k != i && Parent(k) != i ==> Below(rule, items, k))
    && GrandparentsOk(rule, items, n, i)
  }

  /** The children of slot i do not precede its parent. */
  ghost predicate GrandparentsOk(rule: Rule, items: seq<Item>, n: int, i: int)
    requires 0 <= n <= |items| && 0 <= i < |items|
  {
    forall k :: 0 < k < n && Parent(k) == i && i > 0 ==>
      !Before(rule, items[k].AsEntry(), items[Parent(i)].AsEntry())
  }

  lemma {:induction false} RootIsNotPreceded(rule: Rule, items: seq<Item>, k: nat)
    requires HeapOrdered(rule, items, |items|)
    requires k < |items|
    ensures !Before(rule, items[k].AsEntry(), items[0].AsEntry())
  {
    if k > 0 {
      RootIsNotPreceded(rule, items, Parent(k));
      assert Below(rule, items, k);
      BeforeIsStrictOrder(rule, items[0].AsEntry(), items[Parent(k)].AsEntry(), items[k].AsEntry());
    }
  }

  class ItemHeap {
    const rule: Rule
    var items: seq<Item>

    constructor (rule: Rule)
      ensures this.rule == rule && items == []
    {
      this.rule := rule;
      items := [];
    }

    function Loc(): Location {
      if rule.ByMaturity? then InDelayed else InReady
    }

    /** Every item knows its slot and its heap; so no item occurs twice. */
    ghost predicate Indexed()
      reads this, items
    {
      forall i :: 0 <= i < |items| ==> items[i].index == i && items[i].loc == Loc()
    }

    ghost predicate Valid()
      reads this, items
    {
      Indexed() && HeapOrdered(rule, items, |items|)
    }

    predicate Less(i: nat, j: nat)
      requires i < |items| && j < |items|
      reads this
    {
      Before(rule, items[i].AsEntry(), items[j].AsEntry())
    }

    method Swap(i: nat, j: nat)
      requires i < |items| && j < |items|
      requires Indexed()
      modifies this`items, items[i], items[j]
      ensures |items| == |old(items)|
      ensures items == old(items)[i := old(items[j])][j := old(items[i])]
      ensures Members(items) == old(Members(items))
      ensures Indexed()
    {
      items := items[i := items[j]][j := items[i]];
      items[i].index := i;
      items[j].index := j;
      assert forall x :: x in old(items) ==> x in items by {
        forall x | x in old(items) ensures x in items {
          var k :| 0 <= k < |old(items)| && old(items)[k] == x;
          assert items[if k == i then j else if k == j then i else k] == x;
        }
      }
    }

    /** heap.up on the first n slots. */
    method Up(start: nat, ghost n: nat)
      requires Indexed()
      requires start < n <= |items|
      requires HeapButUp(rule, items, n, start)
      modifies this`items, Members(items)
      ensures Indexed()
      ensures |items| == |old(items)| && items[n..] == old(items)[n..]
      ensures Members(items) == old(Members(items))
      ensures HeapOrdered(rule, items, n)
    {
      var j: nat := start;
      while true
        invariant j < n <= |items| == |old(items)|
        invariant Indexed()
        invariant items[n..] == old(items)[n..]
        invariant Members(items) == old(Members(items))
        invariant HeapButUp(rule, items, n, j)
        decreases j
      {
        var i := Parent(j);
        if i == j || !Less(j, i) {
          break;
        }
        ghost var was := items;
        assert {items[i], items[j]} <= Members(items);
        Swap(i, j);
        SwapUpKeeps(rule, was, items, n, j);
        j := i;
      }
    }

    /** heap.down from start on the first n slots; the result tells whether anything moved. */
    method Down(start: nat, n: nat) returns (moved: bool)
      requires Indexed()
      requires start < |items| && n <= |items|
      requires HeapButBoth(rule, items, n, start)
      modifies this`items, Members(items)
      ensures Indexed()
      ensures |items| == |old(items)| && items[n..] == old(items)[n..]
      ensures Members(items) == old(Members(items))
      ensures moved ==> HeapOrdered(rule, items, n)
      ensures !moved ==> items == old(items) && HeapButUp(rule, items, n, start)
      ensures start == 0 ==> HeapOrdered(rule, items, n)
    {
      var i := start;
      while true
        invariant |items| == |old(items)|
        invariant start <= i < |items|
        invariant i > start ==> i < n
        invariant Indexed()
        invariant items[n..] == old(items)[n..]
        invariant Members(items) == old(Members(items))
        invariant i == start ==> items == old(items)
        invariant HeapButBoth(rule, items, n, i)
        invariant i > start ==> Below(rule, items, i)
        decreases |items| - i
      {
        var left := 2 * i + 1;
        if left >= n {
          DownSettles(rule, items, n, i);
          break;
        }
        var j := left;
        var right := left + 1;
        if right < n && Less(right, left) {
          j := right;
        }
        SmallestChild(rule, items, n, i, j);
        if !Less(j, i) {
          DownSettles(rule, items, n, i);
          break;
        }
        assert {items[i], items[j]} <= Members(items);
        Sink(i, j, n);
        i := j;
      }
      return i > start;
    }

    /** One step of heap.down. */
    method Sink(i: nat, j: nat, ghost n: nat)
      requires Indexed()
      requires i < j < n <= |items| && Parent(j) == i
      requires HeapButBoth(rule, items, n, i) && ChildrenFollow(rule, items, n, i, j) && Less(j, i)
      modifies this`items, items[i], items[j]
      ensures Indexed()
      ensures |items| == |old(items)| && items[n..] == old(items)[n..]
      ensures Members(items) == old(Members(items))
      ensures HeapButBoth(rule, items, n, j) && Below(rule, items, j)
    {
      ghost var was := items;
      Swap(i, j);
      SwapDownKeeps(rule, was, items, n, i, j);
    }

    /** readyHeap.Push and delayedHeap.Push: the item learns its heap and its slot. */
    method Append(it: Item)
      requires Indexed() && it !in items
      modifies this`items, it
      ensures Indexed()
      ensures items == old(items) + [it]
    {
      it.loc := Loc();
      it.index := |items|;
      items := items + [it];
    }

    /** readyHeap.Pop and delayedHeap.Pop: drops the last slot. */
    method Chop() returns (it: Item)
      requires Indexed() && items != []
      modifies this`items, items[|items| - 1]
      ensures Indexed() && it !in items
      ensures old(items) == items + [it] && it.index == -1
    {
      it := items[|items| - 1];
      items := items[..|items| - 1];
      it.index := -1;
    }

    /** heap.Push */
    method Push(it: Item)
      requires Valid() && it !in items
      modifies this`items, Members(items), it
      ensures Valid()
      ensures Members(items) == old(Members(items)) + {it}
    {
      ghost var was := items;
      Append(it);
      AppendKeeps(rule, was, items);
      assert Members(items) == Members(was) + {it};
      Up(|items| - 1, |items|);
    }

    /** heap.Pop */
    method Pop() returns (it: Item)
      requires Valid() && items != []
      modifies this`items, Members(items)
      ensures Valid()
      ensures it == old(items[0]) && it.index == -1
      ensures Members(items) == old(Members(items)) - {it}
    {
      ghost var was := items;
      var n := |items| - 1;
      Swap(0, n);
      SwapOutKeeps(rule, was, items, 0);
      var _ := Down(0, n);
      assert items[n] == items[n..][0];
      it := Drop(n, was[0]);
    }

    /** heap.Remove */
    method Remove(i: nat) returns (it: Item)
      requires Valid() && i < |items|
      modifies this`items, Members(items)
      ensures Valid()
      ensures it == old(items[i]) && it.index == -1
      ensures Members(items) == old(Members(items)) - {it}
    {
      ghost var was := items;
      var n := |items| - 1;
      if n != i {
        Swap(i, n);
        SwapOutKeeps(rule, was, items, i);
        var moved := Down(i, n);
        if !moved {
          Up(i, n);
        }
      }
      assert items[n] == items[n..][0];
      it := Drop(n, was[i]);
    }

    /** The last step of heap.Pop and heap.Remove. */
    method Drop(n: nat, ghost last: Item) returns (it: Item)
      requires |items| == n + 1 && items[n..] == [last]
      requires Indexed() && HeapOrdered(rule, items, n)
      modifies this`items, items[n]
      ensures Valid()
      ensures it == last && it.index == -1
      ensures Members(items) == old(Members(items)) - {it}
    {
      assert items[n] == items[n..][0];
      it := Chop();
      assert forall k :: 0 <= k < n ==> items[k] == old(items)[k];
      forall k | 0 <= k < n ensures Below(rule, items, k) {
        assert Below(rule, old(items), k);
      }
    }
  }

  lemma SmallestChild(rule: Rule, items: seq<Item>, n: nat, i: nat, j: nat)
    requires 2 * i + 1 < n <= |items|
    requires j == if 2 * i + 2 < n && Before(rule, items[2 * i + 2].AsEntry(), items[2 * i + 1].AsEntry())
                  then 2 * i + 2 else 2 * i + 1
    ensures i < j < n && Parent(j) == i && ChildrenFollow(rule, items, n, i, j)
    ensures !Before(rule, items[j].AsEntry(), items[i].AsEntry()) ==> ChildrenFollow(rule, items, n, i, i)
  {
    forall k | 0 < k < n && Parent(k) == i
      ensures !Before(rule, items[k].AsEntry(), items[j].AsEntry())
      ensures !Before(rule, items[j].AsEntry(), items[i].AsEntry()) ==>
                !Before(rule, items[k].AsEntry(), items[i].AsEntry())
    {
      assert k == 2 * i + 1 || k == 2 * i + 2;
      var left, right := items[2 * i + 1].AsEntry(), items[k].AsEntry();
      BeforeIsStrictOrder(rule, left, right, left);
      BeforeIsStrictOrder(rule, items[i].AsEntry(), items[j].AsEntry(), items[k].AsEntry());
    }
  }

  /** No child of slot i precedes the item in slot j. */
  ghost predicate ChildrenFollow(rule: Rule, items: seq<Item>, n: int, i: int, j: int)
    requires 0 <= n <= |items| && 0 <= j < |items|
  {
    forall k :: 0 < k < n && Parent(k) == i ==> !Before(rule, items[k].AsEntry(), items[j].AsEntry())
  }

  lemma DownSettles(rule: Rule, items: seq<Item>, n: nat, i: nat)
    requires n <= |items| && i < |items|
    requires HeapButBoth(rule, items, n, i) && ChildrenFollow(rule, items, n, i, i)
    ensures HeapButUp(rule, items, n, i)
    ensures i == 0 || i >= n || Below(rule, items, i) ==> HeapOrdered(rule, items, n)
  {
    forall k | 0 <= k < n && k != i ensures Below(rule, items, k) {
      if Parent(k) == i {
        assert 0 < k;
      }
    }
  }

  lemma AppendKeeps(rule: Rule, was: seq<Item>, items: seq<Item>)
    requires HeapOrdered(rule, was, |was|)
    requires |items| == |was| + 1 && items[..|was|] == was
    ensures HeapButUp(rule, items, |items|, |was|)
  {
    assert forall k :: 0 <= k < |was| ==> items[k] == was[k];
    forall k | 0 <= k < |was| ensures Below(rule, items, k) {
      assert Below(rule, was, k);
    }
  }

  /** With the last slot out of account, swapping it to slot i leaves only slot i out of order. */
  lemma SwapOutKeeps(rule: Rule, was: seq<Item>, items: seq<Item>, i: nat)
    requires HeapOrdered(rule, was, |was|) && i < |was|
    requires items == was[i := was[|was| - 1]][|was| - 1 := was[i]]
    ensures HeapButBoth(rule, items, |was| - 1, i)
  {
    var n := |was| - 1;
    forall k | 0 <= k < n && k != i && Parent(k) != i ensures Below(rule, items, k) {
      assert Below(rule, was, k);
    }
    forall k | 0 < k < n && Parent(k) == i && i > 0
      ensures !Before(rule, items[k].AsEntry(), items[Parent(i)].AsEntry())
    {
      assert Below(rule, was, k) && Below(rule, was, i);
      BeforeIsStrictOrder(rule, was[Parent(i)].AsEntry(), was[i].AsEntry(), was[k].AsEntry());
    }
  }

  lemma SwapUpKeeps(rule: Rule, was: seq<Item>, items: seq<Item>, n: nat, j: nat)
    requires 0 < j < n <= |was|
    requires HeapButUp(rule, was, n, j)
    requires Before(rule, was[j].AsEntry(), was[Parent(j)].AsEntry())
    requires items == was[Parent(j) := was[j]][j := was[Parent(j)]]
    ensures HeapButUp(rule, items, n, Parent(j))
  {
    var i := Parent(j);
    forall k | 0 <= k < n && k != i ensures Below(rule, items, k) {
      if 0 < k {
        assert k != j ==> Below(rule, was, k);
        BeforeIsStrictOrder(rule, was[j].AsEntry(), was[i].AsEntry(), was[k].AsEntry());
      }
    }
    forall k | 0 < k < n && Parent(k) == i && i > 0
      ensures !Before(rule, items[k].AsEntry(), items[Parent(i)].AsEntry())
    {
      assert Below(rule, was, i);
      assert k != j ==> Below(rule, was, k);
      BeforeIsStrictOrder(rule, was[Parent(i)].AsEntry(), was[i].AsEntry(), was[k].AsEntry());
    }
  }

  lemma SwapDownKeeps(rule: Rule, was: seq<Item>, items: seq<Item>, n: nat, i: nat, j: nat)
    requires i < j < n <= |was| && Parent(j) == i
    requires HeapButBoth(rule, was, n, i)
    requires Before(rule, was[j].AsEntry(), was[i].AsEntry())
    requires ChildrenFollow(rule, was, n, i, j)
    requires items == was[i := was[j]][j := was[i]]
    ensures HeapButBoth(rule, items, n, j) && Below(rule, items, j)
  {
    forall k | 0 <= k < n && (k == j || Parent(k) != j) ensures Below(rule, items, k) {
      BeforeIsStrictOrder(rule, was[j].AsEntry(), was[i].AsEntry(), was[k].AsEntry());
      if k != i && Parent(k) != i {
        assert Below(rule, was, k);
      }
    }
    forall k | 0 < k < n && Parent(k) == j
      ensures !Before(rule, items[k].AsEntry(), items[Parent(j)].AsEntry())
    {
      assert Below(rule, was, k);
    }
  }

  // ---------- The queue over the two heaps ----------

  ghost predicate UniqueOrders(items: set<Item>) {
    forall a, b :: a in items && b in items && a.order == b.order ==> a == b
  }

  /** The index is exactly the items keyed by message ID, and the arrival counters are distinct. */
  ghost predicate Linked(byID: map<string, Item>, items: set<Item>, nextOrder: nat) {
    && byID.Values == items
    && (forall id :: id in byID ==> byID[id].msg.id == id)
    && UniqueOrders(items)
    && (forall it :: it in items ==> it.order < nextOrder)
  }

  lemma LinkedGains(byID: map<string, Item>, items: set<Item>, nextOrder: nat, it: Item)
    requires Linked(byID, items, nextOrder)
    requires it.msg.id !in byID && it.order == nextOrder
    ensures it !in items
    ensures Linked(byID[it.msg.id := it], items + {it}, nextOrder + 1)
  {
    var m := byID[it.msg.id := it];
    forall x | x in items ensures x in m.Values {
      var k :| k in byID && byID[k] == x;
      assert m[k] == x;
    }
    assert m[it.msg.id] == it;
  }

  lemma LinkedLoses(byID: map<string, Item>, items: set<Item>, nextOrder: nat, it: Item)
    requires Linked(byID, items, nextOrder)
    requires it in items
    ensures it.msg.id in byID && byID[it.msg.id] == it
    ensures Linked(byID - {it.msg.id}, items - {it}, nextOrder)
  {
    var k :| k in byID && byID[k] == it;
    var m := byID - {it.msg.id};
    forall x | x in items && x != it ensures x in m.Values {
      var i :| i in byID && byID[i] == x;
      assert m[i] == x;
    }
  }

  lemma {:induction false} IndexCounts(byID: map<string, Item>, items: set<Item>, nextOrder: nat)
    requires Linked(byID, items, nextOrder)
    ensures |byID| == |Entries(items)|
    decreases |items|
  {
    if byID.Keys != {} {
      var id :| id in byID;
      var it := byID[id];
      assert it in byID.Values;
      LinkedLoses(byID, items, nextOrder, it);
      IndexCounts(byID - {id}, items - {it}, nextOrder);
      EntriesWithout(items, it);
      assert it.AsEntry() in Entries(items);
      assert (byID - {id}).Keys == byID.Keys - {id};
    } else {
      assert items == {};
    }
  }

  lemma EntriesOfUnion(s: set<Item>, t: set<Item>)
    ensures Entries(s + t) == Entries(s) + Entries(t)
  {
  }

  lemma NotAmong(s: set<Item>, it: Item)
    requires it !in s && UniqueOrders(s + {it})
    ensures it.AsEntry() !in Entries(s)
  {
  }

  lemma EntriesWithout(s: set<Item>, it: Item)
    requires it in s && UniqueOrders(s)
    ensures Entries(s - {it}) == Entries(s) - {it.AsEntry()}
  {
    forall x | x in s ensures x.AsEntry() == it.AsEntry() <==> x == it {
    }
  }

  class FrankensteinQueue {
    const ready: ItemHeap
    const delayed: ItemHeap
    var byID: map<string, Item>
    var nextOrder: nat

    constructor (mode: Mode)
      ensures Valid() && fresh(Footprint())
      ensures State() == Empty(mode)
    {
      ready := new ItemHeap(BySelection(mode));
      delayed := new ItemHeap(ByMaturity);
      byID := map[];
      nextOrder := 0;
    }

    ghost function Footprint(): set<object>
      reads this, ready, delayed
    {
      {this, ready, delayed} + Items()
    }

    ghost function Items(): set<Item>
      reads ready, delayed
    {
      Members(ready.items) + Members(delayed.items)
    }

    /**
     * Both arrays are heaps whose items know their slot; byID is exactly the items of the two heaps
     * keyed by message ID; arrival counters are distinct and below nextOrder.
     */
    ghost predicate Valid()
      reads this, ready, delayed, ready.items, delayed.items
    {
      && ready.rule.BySelection? && delayed.rule == ByMaturity
      && ready.Valid() && delayed.Valid()
      && Linked(byID, Items(), nextOrder)
    }

    ghost function State(): QueueState
      requires ready.rule.BySelection?
      reads this, ready, delayed
    {
      QueueState(ready.rule.mode, Entries(Members(ready.items)), Entries(Members(delayed.items)), nextOrder)
    }

    /** No item is in both heaps, for its loc names one. */
    lemma HeapsAreDisjoint()
      requires Valid()
      ensures Members(ready.items) !! Members(delayed.items)
    {
    }

    lemma StateIsWellFormed()
      requires Valid()
      ensures State().WellFormed()
      ensures State().Held() == Entries(Items())
    {
      HeapsAreDisjoint();
      EntriesOfUnion(Members(ready.items), Members(delayed.items));
      forall id | id in byID ensures byID[id] in Items() {
        assert byID[id] in byID.Values;
      }
    }

    /** Under Valid, byID answers whether a message with this ID is held. */
    lemma HoldsIsInById(id: string)
      requires Valid()
      ensures State().Holds(id) <==> id in byID
      ensures id in byID ==> State().Lookup(id) == byID[id].AsEntry()
    {
      StateIsWellFormed();
      if id in byID {
        assert byID[id] in byID.Values;
        assert byID[id].AsEntry() in State().Held();
        assert SameId(byID[id].AsEntry(), State().Lookup(id));
      }
      if State().Holds(id) {
        var e := State().Lookup(id);
        var it :| it in Items() && it.AsEntry() == e;
        assert it in byID.Values;
      }
    }

    lemma CountsAgree()
      requires Valid()
      ensures |byID| == |State().Held()|
    {
      StateIsWellFormed();
      IndexCounts(byID, Items(), nextOrder);
    }

    /** Storing an ID already present is a no-op; everything enters through the delayed heap. */
    method Push(msg: Message)
      requires Valid()
      modifies this, ready, delayed, Items()
      ensures Valid() && fresh(Items() - old(Items()))
      ensures State() == old(State()).Push(msg)
    {
      HoldsIsInById(msg.id);
      if msg.id in byID {
        return;
      }
      ghost var before, r0, d0 := State(), Members(ready.items), Members(delayed.items);
      var it := new Item(msg, nextOrder);
      LinkedGains(byID, Items(), nextOrder, it);
      nextOrder := nextOrder + 1;
      delayed.Push(it);
      byID := byID[msg.id := it];
      assert Items() == (r0 + d0) + {it};
      EntriesOfUnion(d0, {it});
      assert State() == before.(delayed := before.delayed + {it.AsEntry()}, nextOrder := before.nextOrder + 1);
    }

    /** promoteLocked */
    method Promote(now: Time)
      requires Valid()
      modifies ready, delayed, Items()
      ensures Valid() && Items() == old(Items())
      ensures State() == old(State()).Promote(now)
      ensures forall x :: x in ready.items ==> x in old(Items())
      ensures forall x :: x in delayed.items ==> x in old(Items())
    {
      HeapsAreDisjoint();
      ghost var r0, d0 := Members(ready.items), Members(delayed.items);
      ghost var moved: set<Item> := {};
      while |delayed.items| > 0
        invariant Valid()
        invariant moved <= d0 && forall x :: x in moved ==> x.msg.Available(now)
        invariant Members(ready.items) == r0 + moved
        invariant Members(delayed.items) == d0 - moved
        decreases d0 - moved
      {
        var top := delayed.items[0];
        assert top in Members(delayed.items);
        if !top.msg.Available(now) {
          NothingElseIsDue(delayed, now);
          break;
        }
        var _ := delayed.Pop();
        ready.Push(top);
        moved := moved + {top};
      }
      MovedIsDue(r0, d0, moved, now);
    }

    method Pop(now: Time) returns (r: Option<Message>)
      requires Valid()
      modifies this, ready, delayed, Items()
      ensures Valid() && Items() <= old(Items())
      ensures (State(), r) == old(State()).Pop(now)
    {
      Promote(now);
      RootIsFirst(ready);
      if |ready.items| == 0 {
        return None;
      }
      var it := Take();
      return Some(it.msg);
    }

    /** The root leaves the ready heap and the index. */
    method Take() returns (it: Item)
      requires Valid() && ready.items != []
      modifies this, ready, Members(ready.items)
      ensures Valid() && Items() <= old(Items()) && it == old(ready.items[0])
      ensures State() == old(State()).(ready := old(State()).ready - {it.AsEntry()})
    {
      HeapsAreDisjoint();
      ghost var was, all := Members(ready.items), Items();
      LinkedLoses(byID, all, nextOrder, ready.items[0]);
      EntriesWithout(was, ready.items[0]);
      it := ready.Pop();
      byID := byID - {it.msg.id};
      assert Items() == all - {it};
    }

    method Peek(now: Time) returns (r: Option<Message>)
      requires Valid()
      modifies this, ready, delayed, Items()
      ensures Valid() && Items() == old(Items())
      ensures (State(), r) == old(State()).Peek(now)
    {
      Promote(now);
      RootIsFirst(ready);
      if |ready.items| == 0 {
        return None;
      }
      return Some(ready.items[0].msg);
    }

    method Remove(id: string) returns (was: bool)
      requires Valid()
      modifies this, ready, delayed, Items()
      ensures Valid() && Items() <= old(Items())
      ensures (State(), was) == old(State()).Remove(id)
    {
      HoldsIsInById(id);
      if id !in byID {
        return false;
      }
      var it := byID[id];
      assert it in byID.Values;
      HeapsAreDisjoint();
      ghost var r0, d0 := Members(ready.items), Members(delayed.items);
      LinkedLoses(byID, Items(), nextOrder, it);
      byID := byID - {id};
      match it.loc {
        case InReady =>
          EntriesWithout(r0, it);
          assert it !in d0 && Entries(d0) == Entries(d0) - {it.AsEntry()} by {
            NotAmong(d0, it);
          }
          var _ := ready.Remove(it.index);
        case InDelayed =>
          EntriesWithout(d0, it);
          assert it !in r0 && Entries(r0) == Entries(r0) - {it.AsEntry()} by {
            NotAmong(r0, it);
          }
          var _ := delayed.Remove(it.index);
      }
      assert Items() == old(Items()) - {it};
      return true;
    }

    /** Len */
    method Len() returns (n: nat)
      requires Valid()
      ensures n == |State().Held()|
    {
      n := |byID|;
      CountsAgree();
    }

    method AvailableLen(now: Time) returns (n: nat)
      requires Valid()
      modifies this, ready, delayed, Items()
      ensures Valid() && Items() == old(Items())
      ensures State() == old(State()).Promote(now) && n == |State().ready|
    {
      Promote(now);
      n := |ready.items|;
      SlotsAreEntries(ready);
    }

    method Snapshot(now: Time, limit: int) returns (view: View)
      requires Valid()
      modifies this, ready, delayed, Items()
      ensures Valid() && Items() == old(Items())
      ensures (State(), view) == old(State()).Snapshot(now, limit)
    {
      Promote(now);
      view := Lists(limit);
    }

    /** The two lists and their lengths once everything due is promoted. */
    method Lists(limit: int) returns (view: View)
      requires Valid()
      ensures var q := State();
              view == View(Cut(InOrder(BySelection(q.mode), q.ready), limit),
                           Cut(InOrder(ByMaturity, q.delayed), limit), |q.ready|, |q.delayed|)
      ensures Valid() && Items() == old(Items()) && State() == old(State())
    {
      SlotsAreEntries(ready);
      SlotsAreEntries(delayed);
      ghost var q := State();
      var readyLen, delayedLen := |ready.items|, |delayed.items|;
      var r := OrderedMessages(ready.items, ready.rule, limit);
      var d := OrderedMessages(delayed.items, delayed.rule, limit);
      view := View(r, d, readyLen, delayedLen);
    }
  }

  function Sequence(items: seq<Item>): (es: seq<Entry>)
    ensures |es| == |items|
    ensures forall i :: 0 <= i < |items| ==> es[i] == items[i].AsEntry()
  {
    seq(|items|, i requires 0 <= i < |items| => items[i].AsEntry())
  }

  ghost predicate DistinctSlots(items: seq<Item>) {
    forall i, j :: 0 <= i < j < |items| ==> items[i].order != items[j].order
  }

  /** orderedMessages: the items sorted by less, cut to the limit, as messages. */
  method OrderedMessages(items: seq<Item>, rule: Rule, limit: int) returns (page: Page)
    requires DistinctSlots(items)
    ensures page == Cut(InOrder(rule, Entries(Members(items))), limit)
  {
    if |items| == 0 {
      return Page([], false);
    }
    var sorted := SortFunc(items, rule);
    SortedIsInOrder(rule, items, sorted);
    ghost var whole := sorted;
    var truncated := false;
    if limit > 0 && |sorted| > limit {
      sorted := sorted[..limit];
      truncated := true;
    }
    var out: seq<Message> := [];
    for i := 0 to |sorted|
      invariant |out| == i && forall k :: 0 <= k < i ==> out[k] == sorted[k].msg
    {
      out := out + [sorted[i].msg];
    }
    page := Page(out, truncated);
    PageOfSorted(whole, limit, out);
  }

  lemma PageOfSorted(sorted: seq<Item>, limit: int, out: seq<Message>)
    requires |out| == if limit > 0 && |sorted| > limit then limit else |sorted|
    requires forall k :: 0 <= k < |out| ==> out[k] == sorted[k].msg
    ensures Page(out, limit > 0 && |sorted| > limit) == Cut(Sequence(sorted), limit)
  {
    assert out == Cut(Sequence(sorted), limit).messages;
  }

  lemma SortedIsInOrder(rule: Rule, items: seq<Item>, sorted: seq<Item>)
    requires Members(sorted) == Members(items) && Ascending(rule, Sequence(sorted))
    ensures Sequence(sorted) == InOrder(rule, Entries(Members(items)))
  {
    var es := Sequence(sorted);
    var s := Entries(Members(items));
    forall e ensures e in es <==> e in s {
      if e in es {
        var i :| 0 <= i < |es| && es[i] == e;
        assert sorted[i] in Members(sorted);
      }
      if e in s {
        var it :| it in Members(sorted) && it.AsEntry() == e;
        var i :| 0 <= i < |sorted| && sorted[i] == it;
        assert es[i] == e;
      }
    }
    AscendingIsInOrder(rule, es, s);
  }

  /** What slices.SortFunc promises of a strict total order, met here by insertion. */
  method SortFunc(items: seq<Item>, rule: Rule) returns (sorted: seq<Item>)
    requires DistinctSlots(items)
    ensures Ascending(rule, Sequence(sorted))
    ensures Members(sorted) == Members(items) && |sorted| == |items|
  {
    sorted := [];
    for i := 0 to |items|
      invariant Ascending(rule, Sequence(sorted))
      invariant Members(sorted) == Members(items[..i]) && |sorted| == i
    {
      forall k | 0 <= k < |sorted| ensures sorted[k].order != items[i].order {
        assert sorted[k] in Members(items[..i]);
      }
      assert items[..i + 1] == items[..i] + [items[i]];
      sorted := Insert(sorted, items[i], rule);
    }
    assert items[..|items|] == items;
  }

  method Insert(sorted: seq<Item>, it: Item, rule: Rule) returns (r: seq<Item>)
    requires Ascending(rule, Sequence(sorted))
    requires forall k :: 0 <= k < |sorted| ==> sorted[k].order != it.order
    ensures Ascending(rule, Sequence(r))
    ensures Members(r) == Members(sorted) + {it} && |r| == |sorted| + 1
  {
    var p := |sorted|;
    while p > 0 && Before(rule, it.AsEntry(), sorted[p - 1].AsEntry())
      invariant 0 <= p <= |sorted|
      invariant forall k :: p <= k < |sorted| ==> Before(rule, it.AsEntry(), sorted[k].AsEntry())
    {
      p := p - 1;
    }
    r := sorted[..p] + [it] + sorted[p..];
    ghost var es, fs := Sequence(sorted), Sequence(r);
    forall k | 0 <= k < p ensures Before(rule, es[k], it.AsEntry()) {
      assert k < p - 1 ==> Before(rule, es[k], es[p - 1]);
      BeforeIsStrictOrder(rule, es[k], es[p - 1], it.AsEntry());
      BeforeIsStrictOrder(rule, es[p - 1], it.AsEntry(), it.AsEntry());
    }
    forall i, j | 0 <= i < j < |fs| ensures Before(rule, fs[i], fs[j]) {
      var i', j' := if i < p then i else i - 1, if j < p then j else j - 1;
      assert i != p && j != p ==> Before(rule, es[i'], es[j']);
    }
  }

  /** What the root of a heap is to the set it holds. */
  lemma RootIsFirst(h: ItemHeap)
    requires h.Valid() && UniqueOrders(Members(h.items))
    ensures h.items == [] <==> First(h.rule, Entries(Members(h.items))).None?
    ensures h.items != [] ==> First(h.rule, Entries(Members(h.items))) == Some(h.items[0].AsEntry())
  {
    if h.items != [] {
      var root := h.items[0].AsEntry();
      var s := Entries(Members(h.items));
      forall x | x in s && x != root ensures Before(h.rule, root, x) {
        var it :| it in Members(h.items) && it.AsEntry() == x;
        var k :| 0 <= k < |h.items| && h.items[k] == it;
        RootIsNotPreceded(h.rule, h.items, k);
        BeforeIsStrictOrder(h.rule, root, x, root);
      }
      assert h.items[0] in Members(h.items);
      assert IsFirst(h.rule, s, root);
      FirstIsUnique(h.rule, s, root, First(h.rule, s).value);
    }
  }

  lemma {:induction false} DistinctSlotsCount(items: seq<Item>)
    requires DistinctSlots(items)
    ensures |Entries(Members(items))| == |items|
  {
    if items != [] {
      var n := |items| - 1;
      DistinctSlotsCount(items[..n]);
      var last := items[n].AsEntry();
      assert Members(items) == Members(items[..n]) + {items[n]};
      EntriesOfUnion(Members(items[..n]), {items[n]});
      assert Entries({items[n]}) == {last};
      assert last !in Entries(Members(items[..n]));
    }
  }

  lemma SlotsAreEntries(h: ItemHeap)
    requires h.Valid() && UniqueOrders(Members(h.items))
    ensures |h.items| == |Entries(Members(h.items))| && DistinctSlots(h.items)
  {
    forall i, j | 0 <= i < j < |h.items| ensures h.items[i].order != h.items[j].order {
      assert h.items[i] in Members(h.items) && h.items[j] in Members(h.items);
    }
    DistinctSlotsCount(h.items);
  }

  lemma NothingElseIsDue(h: ItemHeap, now: Time)
    requires h.Valid() && h.rule == ByMaturity && h.items != []
    requires !h.items[0].msg.Available(now)
    ensures forall x :: x in Members(h.items) ==> !x.msg.Available(now)
  {
    forall x | x in Members(h.items) ensures !x.msg.Available(now) {
      var k :| 0 <= k < |h.items| && h.items[k] == x;
      RootIsNotPreceded(h.rule, h.items, k);
    }
  }

  lemma MovedIsDue(r0: set<Item>, d0: set<Item>, moved: set<Item>, now: Time)
    requires UniqueOrders(r0 + d0)
    requires moved <= d0 && forall x :: x in d0 ==> (x in moved <==> x.msg.Available(now))
    ensures Entries(r0 + moved) == Entries(r0) + Due(Entries(d0), now)
    ensures Entries(d0 - moved) == Entries(d0) - Due(Entries(d0), now)
  {
    EntriesOfUnion(r0, moved);
    assert Entries(moved) == Due(Entries(d0), now);
    forall x, y | x in d0 && y in moved && x.AsEntry() == y.AsEntry() ensures x == y {
      assert x in r0 + d0 && y in r0 + d0;
    }
  }
}

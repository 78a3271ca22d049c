/**
 * The client's prediction of a drain (cmd/client/main.go:258-330), a second implementation of the
 * scheduling rule over stably sorted slices and a simulated clock.
 */
module Client {
  import opened Model
  import opened Picking

  const POLL_INTERVAL := 500_000_000

  datatype SimItem = SimItem(id: string, priority: int, seqNo: nat, availableAt: Time)

  function ToSim(m: Message): SimItem {
    SimItem(m.id, m.priority, m.seqNo, m.availableAt)
  }

  function ToSims(ms: seq<Message>): (xs: seq<SimItem>)
    ensures |xs| == |ms|
    ensures forall i :: 0 <= i < |ms| ==> xs[i] == ToSim(ms[i])
  {
    seq(|ms|, i requires 0 <= i < |ms| => ToSim(ms[i]))
  }

  predicate SimBefore(mode: Mode, a: SimItem, b: SimItem) {
    if a.priority != b.priority then a.priority > b.priority
    else if mode == LIFO then a.seqNo > b.seqNo
    else a.seqNo < b.seqNo
  }

  /** lessFor: highest priority first, ties by Seq in the direction of the mode. */
  function LessFor(mode: Mode): (SimItem, SimItem) -> bool {
    (a, b) => SimBefore(mode, a, b)
  }

  /** Which of two items that are both ready goes out first. */
  type Precedence = (SimItem, SimItem) -> bool

  predicate SameKey(x: SimItem, y: SimItem) {
    x.priority == y.priority && x.seqNo == y.seqNo
  }

  predicate Matures(a: SimItem, b: SimItem) {
    a.availableAt < b.availableAt
  }

  // ---------- The drain the client means ----------

  function Ripe(s: set<SimItem>, t: Time): set<SimItem> {
    set x | x in s && x.availableAt <= t
  }

  /** x precedes everything else in s. */
  ghost predicate IsNext(before: Precedence, s: set<SimItem>, x: SimItem) {
    x in s && forall y :: y in s && y != x ==> before(x, y)
  }

  ghost predicate IsSoonest(s: set<SimItem>, t: Time) {
    (exists x :: x in s && x.availableAt == t) && forall x :: x in s ==> t <= x.availableAt
  }

  lemma SoonestIsUnique(s: set<SimItem>, t: Time, u: Time)
    requires IsSoonest(s, t) && IsSoonest(s, u)
    ensures t == u
  {
  }

  /**
   * out drains what is ready and delayed from time t on: what is ripe joins what is ready; while
   * something is ready the next item goes out and one interval passes; when nothing is, the clock
   * jumps to the soonest maturity. What is ready stays ready, whatever its own maturity.
   */
  ghost predicate Drains(before: Precedence, ready: set<SimItem>, delayed: set<SimItem>, t: Time, out: seq<SimItem>)
    decreases |out|, if ready + Ripe(delayed, t) == {} then 1 else 0
  {
    var r, d := ready + Ripe(delayed, t), delayed - Ripe(delayed, t);
    if r != {} then
      out != [] && IsNext(before, r, out[0]) && Drains(before, r - {out[0]}, d, t + POLL_INTERVAL, out[1..])
    else if d == {} then out == []
    else exists u :: IsSoonest(d, u) && Ripe(d, u) != {} && Drains(before, {}, d, u, out)
  }

  /** Moving over what is ripe first makes no difference. */
  lemma DrainsAfterMove(before: Precedence, ready: set<SimItem>, delayed: set<SimItem>, t: Time, out: seq<SimItem>)
    requires Drains(before, ready + Ripe(delayed, t), delayed - Ripe(delayed, t), t, out)
    ensures Drains(before, ready, delayed, t, out)
  {
    var r, d := ready + Ripe(delayed, t), delayed - Ripe(delayed, t);
    assert Ripe(d, t) == {} && r + {} == r && d - {} == d;
  }

  lemma SizesAfterMove(ready: set<SimItem>, delayed: set<SimItem>, t: Time)
    requires ready !! delayed
    ensures var (r, d) := (ready + Ripe(delayed, t), delayed - Ripe(delayed, t));
            r !! d && r + d == ready + delayed && |r| + |d| == |ready| + |delayed|
  {
    assert |ready + Ripe(delayed, t)| == |ready| + |Ripe(delayed, t)|;
    assert |delayed - Ripe(delayed, t)| == |delayed| - |Ripe(delayed, t)|;
  }

  lemma OneMoreOut(r: set<SimItem>, d: set<SimItem>, out: seq<SimItem>)
    requires out != [] && out[0] in r
    requires forall x :: x in out[1..] <==> x in (r - {out[0]}) + d
    ensures forall x :: x in out <==> x in r + d
  {
    assert out == [out[0]] + out[1..];
  }

  /** A drain hands out every item exactly once. */
  lemma {:induction false} DrainIsPermutation(before: Precedence, ready: set<SimItem>, delayed: set<SimItem>, t: Time, out: seq<SimItem>)
    requires Drains(before, ready, delayed, t, out) && ready !! delayed
    ensures |out| == |ready| + |delayed|
    ensures forall x :: x in out <==> x in ready + delayed
    decreases |out|, if ready + Ripe(delayed, t) == {} then 1 else 0
  {
    var r, d := ready + Ripe(delayed, t), delayed - Ripe(delayed, t);
    SizesAfterMove(ready, delayed, t);
    if r != {} {
      DrainIsPermutation(before, r - {out[0]}, d, t + POLL_INTERVAL, out[1..]);
      assert |r - {out[0]}| == |r| - 1;
      OneMoreOut(r, d, out);
    } else if d != {} {
      var u :| IsSoonest(d, u) && Ripe(d, u) != {} && Drains(before, {}, d, u, out);
      DrainIsPermutation(before, {}, d, u, out);
    }
  }

  // ---------- Items with the same priority and Seq ----------

  function Tied(s: set<SimItem>, x: SimItem): set<SimItem> {
    set y | y in s && SameKey(x, y)
  }

  /** Equally many items of every priority and Seq. */
  ghost predicate SameKeys(s: set<SimItem>, s': set<SimItem>) {
    forall x :: |Tied(s, x)| == |Tied(s', x)|
  }

  lemma HasItsKey(s: set<SimItem>, s': set<SimItem>, x: SimItem) returns (x': SimItem)
    requires SameKeys(s, s') && x in s
    ensures x' in s' && SameKey(x, x')
  {
    assert x in Tied(s, x);
    assert |Tied(s', x)| == |Tied(s, x)| != 0;
    x' :| x' in Tied(s', x);
  }

  lemma SameKeysTogether(s: set<SimItem>, s': set<SimItem>, more: set<SimItem>)
    requires SameKeys(s, s') && s !! more && s' !! more
    ensures SameKeys(s + more, s' + more)
  {
    forall x ensures |Tied(s + more, x)| == |Tied(s' + more, x)| {
      assert Tied(s + more, x) == Tied(s, x) + Tied(more, x);
      assert Tied(s' + more, x) == Tied(s', x) + Tied(more, x);
    }
  }

  lemma SameKeysWithout(s: set<SimItem>, s': set<SimItem>, y: SimItem, y': SimItem)
    requires SameKeys(s, s') && y in s && y' in s' && SameKey(y, y')
    ensures SameKeys(s - {y}, s' - {y'})
  {
    forall x ensures |Tied(s - {y}, x)| == |Tied(s' - {y'}, x)| {
      assert Tied(s - {y}, x) == Tied(s, x) - {y};
      assert Tied(s' - {y'}, x) == Tied(s', x) - {y'};
      assert y in Tied(s, x) <==> y' in Tied(s', x);
    }
  }

  /** before never goes against priority and Seq. */
  ghost predicate Respects(before: Precedence, mode: Mode) {
    forall x, y :: before(x, y) ==> !SimBefore(mode, y, x)
  }

  lemma NextHasSameKey(mode: Mode, before: Precedence, before': Precedence, s: set<SimItem>, s': set<SimItem>, x: SimItem, x': SimItem)
    requires Respects(before, mode) && Respects(before', mode)
    requires SameKeys(s, s') && IsNext(before, s, x) && IsNext(before', s', x')
    ensures SameKey(x, x')
  {
    var y' := HasItsKey(s, s', x);
    var y := HasItsKey(s', s, x');
    assert y' != x' ==> before'(x', y');
    assert y != x ==> before(x, y);
  }

  ghost predicate SameKeysInTurn(a: seq<SimItem>, b: seq<SimItem>) {
    |a| == |b| && forall i :: 0 <= i < |a| ==> SameKey(a[i], b[i])
  }

  /** Two drains of the same items differ at most in which of several with the same priority and Seq comes first. */
  lemma {:induction false} DrainsAgreeUpToTies(mode: Mode, before: Precedence, before': Precedence,
                                               ready: set<SimItem>, ready': set<SimItem>, delayed: set<SimItem>, t: Time,
                                               a: seq<SimItem>, b: seq<SimItem>)
    requires Respects(before, mode) && Respects(before', mode)
    requires SameKeys(ready, ready') && ready !! delayed && ready' !! delayed
    requires Drains(before, ready, delayed, t, a) && Drains(before', ready', delayed, t, b)
    ensures SameKeysInTurn(a, b)
    decreases |a|, if ready + Ripe(delayed, t) == {} then 1 else 0
  {
    var r, r', d := ready + Ripe(delayed, t), ready' + Ripe(delayed, t), delayed - Ripe(delayed, t);
    SameKeysTogether(ready, ready', Ripe(delayed, t));
    EmptyTogether(r, r');
    if r != {} {
      NextHasSameKey(mode, before, before', r, r', a[0], b[0]);
      SameKeysWithout(r, r', a[0], b[0]);
      DrainsAgreeUpToTies(mode, before, before', r - {a[0]}, r' - {b[0]}, d, t + POLL_INTERVAL, a[1..], b[1..]);
      SameKeysOneMore(a, b);
    } else if d != {} {
      var u :| IsSoonest(d, u) && Ripe(d, u) != {} && Drains(before, {}, d, u, a);
      var v :| IsSoonest(d, v) && Ripe(d, v) != {} && Drains(before', {}, d, v, b);
      SoonestIsUnique(d, u, v);
      DrainsAgreeUpToTies(mode, before, before', {}, {}, d, u, a, b);
    }
  }

  lemma EmptyTogether(s: set<SimItem>, s': set<SimItem>)
    requires SameKeys(s, s')
    ensures s == {} <==> s' == {}
  {
    if x :| x in s {
      var _ := HasItsKey(s, s', x);
    }
    if x :| x in s' {
      var _ := HasItsKey(s', s, x);
    }
  }

  lemma SameKeysOneMore(a: seq<SimItem>, b: seq<SimItem>)
    requires a != [] && b != [] && SameKey(a[0], b[0]) && SameKeysInTurn(a[1..], b[1..])
    ensures SameKeysInTurn(a, b)
  {
    forall i | 0 <= i < |a| ensures SameKey(a[i], b[i]) {
      assert i > 0 ==> a[i] == a[1..][i - 1] && b[i] == b[1..][i - 1];
    }
  }

  ghost predicate Asymmetric(before: Precedence) {
    forall x, y :: before(x, y) ==> !before(y, x)
  }

  /** A precedence that puts any two items in one order only admits one drain. */
  lemma {:induction false} DrainIsUnique(before: Precedence, ready: set<SimItem>, delayed: set<SimItem>, t: Time,
                                         a: seq<SimItem>, b: seq<SimItem>)
    requires Asymmetric(before) && Drains(before, ready, delayed, t, a) && Drains(before, ready, delayed, t, b)
    ensures a == b
    decreases |a|, if ready + Ripe(delayed, t) == {} then 1 else 0
  {
    var r, d := ready + Ripe(delayed, t), delayed - Ripe(delayed, t);
    if r != {} {
      assert a[0] == b[0];
      DrainIsUnique(before, r - {a[0]}, d, t + POLL_INTERVAL, a[1..], b[1..]);
      assert a == [a[0]] + a[1..] && b == [b[0]] + b[1..];
    } else if d != {} {
      var u :| IsSoonest(d, u) && Ripe(d, u) != {} && Drains(before, {}, d, u, a);
      var v :| IsSoonest(d, v) && Ripe(d, v) != {} && Drains(before, {}, d, v, b);
      SoonestIsUnique(d, u, v);
      DrainIsUnique(before, {}, d, u, a, b);
    }
  }

  /** Whenever out lets an item go while a tied one is ready, before wants it so. */
  ghost predicate TiesKept(before: Precedence, ready: set<SimItem>, delayed: set<SimItem>, t: Time, out: seq<SimItem>)
    decreases |out|, if ready + Ripe(delayed, t) == {} then 1 else 0
  {
    var r, d := ready + Ripe(delayed, t), delayed - Ripe(delayed, t);
    if r != {} then
      && out != []
      && (forall y :: y in r && y != out[0] && SameKey(out[0], y) ==> before(out[0], y))
      && TiesKept(before, r - {out[0]}, d, t + POLL_INTERVAL, out[1..])
    else d == {} || exists u :: IsSoonest(d, u) && Ripe(d, u) != {} && TiesKept(before, {}, d, u, out)
  }

  /** before orders the items of s by priority and Seq, and in some way where these are equal. */
  ghost predicate Extends(before: Precedence, mode: Mode, s: set<SimItem>) {
    forall x, y :: x in s && y in s && SimBefore(mode, x, y) ==> before(x, y)
  }

  /** A drain under one precedence is one under another exactly if it lets tied items go as the other wants. */
  lemma {:induction false} DrainsUnderOtherIff(mode: Mode, before: Precedence, other: Precedence, all: set<SimItem>,
                                               ready: set<SimItem>, delayed: set<SimItem>, t: Time, out: seq<SimItem>)
    requires Respects(before, mode) && Extends(other, mode, all) && ready <= all && delayed <= all
    requires Drains(before, ready, delayed, t, out)
    ensures Drains(other, ready, delayed, t, out) <==> TiesKept(other, ready, delayed, t, out)
    decreases |out|, if ready + Ripe(delayed, t) == {} then 1 else 0
  {
    var r, d := ready + Ripe(delayed, t), delayed - Ripe(delayed, t);
    if r != {} {
      DrainsUnderOtherIff(mode, before, other, all, r - {out[0]}, d, t + POLL_INTERVAL, out[1..]);
      NextUnderOtherIff(mode, before, other, all, r, out[0]);
    } else if d != {} {
      var u :| IsSoonest(d, u) && Ripe(d, u) != {} && Drains(before, {}, d, u, out);
      DrainsUnderOtherIff(mode, before, other, all, {}, d, u, out);
      forall v | IsSoonest(d, v) ensures v == u {
        SoonestIsUnique(d, u, v);
      }
    }
  }

  lemma NextUnderOtherIff(mode: Mode, before: Precedence, other: Precedence, all: set<SimItem>, r: set<SimItem>, x: SimItem)
    requires Respects(before, mode) && Extends(other, mode, all) && r <= all && IsNext(before, r, x)
    ensures IsNext(other, r, x) <==> forall y :: y in r && y != x && SameKey(x, y) ==> other(x, y)
  {
    forall y | y in r && y != x && !SameKey(x, y) ensures other(x, y) {
      assert before(x, y);
      assert SimBefore(mode, x, y);
    }
  }

  // ---------- The client's code ----------

  function Set(xs: seq<SimItem>): set<SimItem> {
    set x | x in xs
  }

  ghost predicate NoRepeats(xs: seq<SimItem>) {
    forall i, j :: 0 <= i < j < |xs| ==> xs[i] != xs[j]
  }

  /** less behaves as sort.SliceStable requires. */
  ghost predicate WeakOrder(less: (SimItem, SimItem) -> bool) {
    && (forall a, b :: less(a, b) ==> !less(b, a))
    && (forall a, b, c :: !less(b, a) && !less(c, b) ==> !less(c, a))
  }

  ghost predicate Sorted(less: (SimItem, SimItem) -> bool, xs: seq<SimItem>) {
    forall i, j :: 0 <= i < j < |xs| ==> !less(xs[j], xs[i])
  }

  /** x stands somewhere before y. */
  predicate Earlier(xs: seq<SimItem>, x: SimItem, y: SimItem) {
    exists i, j :: 0 <= i < j < |xs| && xs[i] == x && xs[j] == y
  }

  /** The items of xs in order, those that less leaves level standing as they stood in xs. */
  ghost predicate IsStableSort(less: Precedence, xs: seq<SimItem>, sorted: seq<SimItem>) {
    && |sorted| == |xs| && Set(sorted) == Set(xs) && NoRepeats(sorted)
    && Sorted(less, sorted)
    && forall i, j :: 0 <= i < j < |xs| && !less(xs[j], xs[i]) ==> Earlier(sorted, xs[i], xs[j])
  }

  /** x put behind everything that it is not less than. */
  function InsertStable(less: Precedence, sorted: seq<SimItem>, x: SimItem): seq<SimItem> {
    var n := |sorted|;
    if n > 0 && less(x, sorted[n - 1]) then InsertStable(less, sorted[..n - 1], x) + [sorted[n - 1]]
    else sorted + [x]
  }

  function StableSort(less: Precedence, xs: seq<SimItem>): seq<SimItem> {
    if xs == [] then [] else InsertStable(less, StableSort(less, xs[..|xs| - 1]), xs[|xs| - 1])
  }

  lemma {:induction false} InsertedAt(less: Precedence, sorted: seq<SimItem>, x: SimItem, p: nat)
    requires p <= |sorted| && (p > 0 ==> !less(x, sorted[p - 1]))
    requires forall k :: p <= k < |sorted| ==> less(x, sorted[k])
    ensures InsertStable(less, sorted, x) == sorted[..p] + [x] + sorted[p..]
  {
    var n := |sorted|;
    if p < n {
      InsertedAt(less, sorted[..n - 1], x, p);
      assert sorted[..n - 1][..p] == sorted[..p] && sorted[..n - 1][p..] + [sorted[n - 1]] == sorted[p..];
    } else {
      assert sorted[..p] == sorted && sorted[p..] == [];
    }
  }

  /** sort.SliceStable: what it promises determines what it returns. */
  method SliceStable(xs: seq<SimItem>, less: Precedence) returns (sorted: seq<SimItem>)
    requires WeakOrder(less) && NoRepeats(xs)
    ensures IsStableSort(less, xs, sorted) && sorted == StableSort(less, xs)
  {
    sorted := [];
    for i := 0 to |xs|
      invariant |sorted| == i && sorted == StableSort(less, xs[..i])
    {
      var p := i;
      while p > 0 && less(xs[i], sorted[p - 1])
        invariant 0 <= p <= i
        invariant forall k :: p <= k < i ==> less(xs[i], sorted[k])
      {
        p := p - 1;
      }
      InsertedAt(less, sorted, xs[i], p);
      assert xs[..i + 1][..i] == xs[..i];
      sorted := sorted[..p] + [xs[i]] + sorted[p..];
    }
    assert xs[..|xs|] == xs;
    StableSortIsStable(less, xs);
  }

  /** The sort of what is ripe, and that of what is delayed. */
  method SortReady(mode: Mode, xs: seq<SimItem>) returns (sorted: seq<SimItem>)
    requires NoRepeats(xs)
    ensures IsStableSort(LessFor(mode), xs, sorted) && sorted == StableSort(LessFor(mode), xs)
  {
    sorted := SliceStable(xs, LessFor(mode));
  }

  method SortDelayed(xs: seq<SimItem>) returns (sorted: seq<SimItem>)
    requires NoRepeats(xs)
    ensures IsStableSort(Matures, xs, sorted) && sorted == StableSort(Matures, xs)
  {
    sorted := SliceStable(xs, Matures);
  }

  /** Where an item is inserted: everything behind it is greater, and what is just before it is not. */
  lemma {:induction false} InsertionPoint(less: Precedence, sorted: seq<SimItem>, x: SimItem) returns (p: nat)
    ensures p <= |sorted| && (p > 0 ==> !less(x, sorted[p - 1]))
    ensures forall k :: p <= k < |sorted| ==> less(x, sorted[k])
  {
    p := |sorted|;
    while p > 0 && less(x, sorted[p - 1])
      invariant 0 <= p <= |sorted|
      invariant forall k :: p <= k < |sorted| ==> less(x, sorted[k])
    {
      p := p - 1;
    }
  }

  lemma {:induction false} StableSortIsStable(less: Precedence, xs: seq<SimItem>)
    requires WeakOrder(less) && NoRepeats(xs)
    ensures IsStableSort(less, xs, StableSort(less, xs))
  {
    if xs != [] {
      var init, x := xs[..|xs| - 1], xs[|xs| - 1];
      NoRepeatsParts(init, [x]);
      assert xs == init + [x];
      StableSortIsStable(less, init);
      OneMoreIsStable(less, init, StableSort(less, init), x);
    }
  }

  lemma OneMoreIsStable(less: Precedence, init: seq<SimItem>, sorted: seq<SimItem>, x: SimItem)
    requires WeakOrder(less) && NoRepeats(init + [x]) && IsStableSort(less, init, sorted)
    ensures IsStableSort(less, init + [x], InsertStable(less, sorted, x))
  {
    var xs := init + [x];
    assert xs[..|xs| - 1] == init;
    var p := InsertionPoint(less, sorted, x);
    InsertedAt(less, sorted, x, p);
    InsertionKeeps(less, sorted, x, p);
    FreshItem(xs, |init|, sorted);
    InsertionIsStable(less, xs, sorted, p);
    InsertionRepeatsNothing(sorted, x, p);
    assert Set(xs) == Set(init) + {x};
  }

  lemma InsertionKeeps(less: Precedence, sorted: seq<SimItem>, x: SimItem, p: nat)
    requires WeakOrder(less) && Sorted(less, sorted) && p <= |sorted|
    requires forall k :: p <= k < |sorted| ==> less(x, sorted[k])
    requires p > 0 ==> !less(x, sorted[p - 1])
    ensures Sorted(less, sorted[..p] + [x] + sorted[p..])
    ensures Set(sorted[..p] + [x] + sorted[p..]) == Set(sorted) + {x}
  {
    var r := sorted[..p] + [x] + sorted[p..];
    forall i, j | 0 <= i < j < |r| ensures !less(r[j], r[i]) {
      if j == p && i < p - 1 {
        assert !less(sorted[p - 1], sorted[i]);
      }
      var i', j' := if i < p then i else i - 1, if j < p then j else j - 1;
      assert i != p && j != p ==> !less(sorted[j'], sorted[i']);
    }
    assert sorted == sorted[..p] + sorted[p..];
  }

  lemma InsertionRepeatsNothing(sorted: seq<SimItem>, x: SimItem, p: nat)
    requires NoRepeats(sorted) && x !in sorted && p <= |sorted|
    ensures NoRepeats(sorted[..p] + [x] + sorted[p..])
  {
  }

  /** What stood in order stays so, and the new item is behind what it is level with. */
  lemma InsertionIsStable(less: Precedence, xs: seq<SimItem>, sorted: seq<SimItem>, p: nat)
    requires xs != [] && p <= |sorted| && IsStableSort(less, xs[..|xs| - 1], sorted)
    requires forall k :: p <= k < |sorted| ==> less(xs[|xs| - 1], sorted[k])
    ensures var r := sorted[..p] + [xs[|xs| - 1]] + sorted[p..];
            forall i, j :: 0 <= i < j < |xs| && !less(xs[j], xs[i]) ==> Earlier(r, xs[i], xs[j])
  {
    var n := |xs| - 1;
    var r := sorted[..p] + [xs[n]] + sorted[p..];
    forall i, j | 0 <= i < j < |xs| && !less(xs[j], xs[i]) ensures Earlier(r, xs[i], xs[j]) {
      assert xs[..n][i] == xs[i];
      if j < n {
        assert xs[..n][j] == xs[j];
        assert Earlier(sorted, xs[i], xs[j]);
        InsertionKeepsEarlier(sorted, xs[n], p, xs[i], xs[j]);
      } else {
        assert xs[i] in Set(xs[..n]);
        assert xs[i] in Set(sorted);
        var k :| 0 <= k < |sorted| && sorted[k] == xs[i];
        assert r[k] == xs[i] && r[p] == xs[n];
      }
    }
  }

  lemma InsertionKeepsEarlier(sorted: seq<SimItem>, x: SimItem, p: nat, a: SimItem, b: SimItem)
    requires p <= |sorted| && Earlier(sorted, a, b)
    ensures Earlier(sorted[..p] + [x] + sorted[p..], a, b)
  {
    var r := sorted[..p] + [x] + sorted[p..];
    var i, j :| 0 <= i < j < |sorted| && sorted[i] == a && sorted[j] == b;
    var i', j' := if i < p then i else i + 1, if j < p then j else j + 1;
    assert r[i'] == a && r[j'] == b;
  }

  /** What is in order already is left as it is. */
  lemma {:induction false} SortedStays(less: Precedence, xs: seq<SimItem>)
    requires Sorted(less, xs)
    ensures StableSort(less, xs) == xs
  {
    if xs != [] {
      var init, x := xs[..|xs| - 1], xs[|xs| - 1];
      PrefixIsSorted(less, init, x, xs);
      SortedStays(less, init);
      InsertedLast(less, init, x);
      assert xs == init + [x];
    }
  }

  lemma PrefixIsSorted(less: Precedence, init: seq<SimItem>, x: SimItem, xs: seq<SimItem>)
    requires Sorted(less, xs) && xs == init + [x]
    ensures Sorted(less, init) && (init != [] ==> !less(x, init[|init| - 1]))
  {
    assert forall i :: 0 <= i < |init| ==> init[i] == xs[i];
    assert xs[|init|] == x;
  }

  lemma InsertedLast(less: Precedence, sorted: seq<SimItem>, x: SimItem)
    requires sorted != [] ==> !less(x, sorted[|sorted| - 1])
    ensures InsertStable(less, sorted, x) == sorted + [x]
  {
  }

  lemma FreshItem(xs: seq<SimItem>, i: nat, sorted: seq<SimItem>)
    requires i < |xs| && NoRepeats(xs) && Set(sorted) == Set(xs[..i])
    ensures xs[i] !in sorted
  {
    forall x | x in sorted ensures x != xs[i] {
      assert x in Set(sorted);
      var k :| 0 <= k < i && xs[..i][k] == x;
      assert xs[k] == x;
    }
  }

  lemma SameSetNoRepeats(a: seq<SimItem>, b: seq<SimItem>, rest: seq<SimItem>)
    requires Set(a) == Set(b) && NoRepeats(b) && NoRepeats(a + rest)
    ensures NoRepeats(b + rest) && Set(b + rest) == Set(a + rest)
  {
    forall x ensures x in a <==> x in b {
      assert x in Set(a) <==> x in Set(b);
    }
    forall i, j | 0 <= i < j < |b + rest| ensures (b + rest)[i] != (b + rest)[j] {
      if i < |b| <= j {
        assert b[i] in a;
        var k :| 0 <= k < |a| && a[k] == b[i];
        assert (a + rest)[k] == b[i] && (a + rest)[|a| + (j - |b|)] == (b + rest)[j];
      } else if |b| <= i {
        assert (a + rest)[|a| + (i - |b|)] == (b + rest)[i];
        assert (a + rest)[|a| + (j - |b|)] == (b + rest)[j];
      }
    }
  }

  lemma NoRepeatsParts(a: seq<SimItem>, b: seq<SimItem>)
    requires NoRepeats(a + b)
    ensures NoRepeats(a) && NoRepeats(b)
  {
    assert forall i :: 0 <= i < |a| ==> (a + b)[i] == a[i];
    assert forall i :: 0 <= i < |b| ==> (a + b)[|a| + i] == b[i];
  }

  // ---------- The invariant of simulateDrain ----------

  /** The items of a snapshot in the order in which they join what is ready. */
  function LineOf(snap: QueueSnapshot): seq<SimItem> {
    ToSims(snap.ready.messages) + StableSort(Matures, ToSims(snap.delayed.messages))
  }

  /** The client's precedence: that of lessFor, and where it leaves two items level the one that joined first. */
  ghost function ClientRule(mode: Mode, line: seq<SimItem>): Precedence {
    (x, y) => SimBefore(mode, x, y) || (SameKey(x, y) && Earlier(line, x, y))
  }

  /** out drains the snapshot. There is one such drain (SnapshotDrainIsUnique). */
  ghost predicate SnapshotDrains(snap: QueueSnapshot, out: seq<SimItem>) {
    Drains(ClientRule(snap.mode, LineOf(snap)),
           Set(ToSims(snap.ready.messages)), Set(ToSims(snap.delayed.messages)), snap.now, out)
  }

  lemma ClientRuleIsOrder(mode: Mode, line: seq<SimItem>)
    requires NoRepeats(line)
    ensures Asymmetric(ClientRule(mode, line)) && Respects(ClientRule(mode, line), mode)
  {
  }

  lemma LineRepeatsNothing(snap: QueueSnapshot)
    requires NoRepeats(ToSims(snap.ready.messages) + ToSims(snap.delayed.messages))
    ensures NoRepeats(LineOf(snap))
  {
    var delayed := ToSims(snap.delayed.messages);
    NoRepeatsParts(ToSims(snap.ready.messages), delayed);
    StableSortIsStable(Matures, delayed);
    DelayedSorted(ToSims(snap.ready.messages), delayed, StableSort(Matures, delayed));
  }

  lemma SnapshotDrainIsUnique(snap: QueueSnapshot, a: seq<SimItem>, b: seq<SimItem>)
    requires NoRepeats(ToSims(snap.ready.messages) + ToSims(snap.delayed.messages))
    requires SnapshotDrains(snap, a) && SnapshotDrains(snap, b)
    ensures a == b
  {
    LineRepeatsNothing(snap);
    ClientRuleIsOrder(snap.mode, LineOf(snap));
    DrainIsUnique(ClientRule(snap.mode, LineOf(snap)),
                  Set(ToSims(snap.ready.messages)), Set(ToSims(snap.delayed.messages)), snap.now, a, b);
  }

  /** What is left drains to the rest of the drain meant. */
  ghost predicate Continues(snap: QueueSnapshot, out: seq<SimItem>, ready: set<SimItem>, delayed: set<SimItem>, t: Time) {
    forall rest :: Drains(ClientRule(snap.mode, LineOf(snap)), ready, delayed, t, rest) ==> SnapshotDrains(snap, out + rest)
  }

  /** Tied items stand as they do in line. */
  ghost predicate InLine(line: seq<SimItem>, xs: seq<SimItem>) {
    forall i, j :: 0 <= i < j < |xs| && SameKey(xs[i], xs[j]) ==> Earlier(line, xs[i], xs[j])
  }

  /** What simulateDrain keeps between two rounds. */
  ghost predicate Round(snap: QueueSnapshot, out: seq<SimItem>, ready: seq<SimItem>, delayed: seq<SimItem>, t: Time) {
    && NoRepeats(ready + delayed)
    && InLine(LineOf(snap), ready + delayed)
    && Sorted(Matures, delayed)
    && Continues(snap, out, Set(ready), Set(delayed), t)
  }

  lemma DisjointParts(a: seq<SimItem>, b: seq<SimItem>)
    requires NoRepeats(a + b)
    ensures Set(a) !! Set(b)
  {
    forall i, j | 0 <= i < |a| && 0 <= j < |b| ensures a[i] != b[j] {
      assert (a + b)[i] == a[i] && (a + b)[|a| + j] == b[j];
    }
  }

  lemma RipeArePrefix(delayed: seq<SimItem>, k: nat, t: Time)
    requires Sorted(Matures, delayed) && NoRepeats(delayed) && k <= |delayed|
    requires forall i :: 0 <= i < k ==> delayed[i].availableAt <= t
    requires k < |delayed| ==> t < delayed[k].availableAt
    ensures Ripe(Set(delayed), t) == Set(delayed[..k])
    ensures Set(delayed) - Set(delayed[..k]) == Set(delayed[k..])
  {
    forall i | k <= i < |delayed| ensures t < delayed[i].availableAt {
      assert i > k ==> !Matures(delayed[i], delayed[k]);
    }
    assert delayed == delayed[..k] + delayed[k..];
    NoRepeatsParts(delayed[..k], delayed[k..]);
    DisjointParts(delayed[..k], delayed[k..]);
  }

  lemma MoveContinues(snap: QueueSnapshot, out: seq<SimItem>, ready: seq<SimItem>, delayed: seq<SimItem>, k: nat, t: Time)
    requires Round(snap, out, ready, delayed, t) && k <= |delayed|
    requires forall i :: 0 <= i < k ==> delayed[i].availableAt <= t
    requires k < |delayed| ==> t < delayed[k].availableAt
    ensures Round(snap, out, ready + delayed[..k], delayed[k..], t)
  {
    NoRepeatsParts(ready, delayed);
    RipeArePrefix(delayed, k, t);
    assert ready + delayed[..k] + delayed[k..] == ready + delayed;
    assert Set(ready + delayed[..k]) == Set(ready) + Set(delayed[..k]);
    var before := ClientRule(snap.mode, LineOf(snap));
    forall rest | Drains(before, Set(ready + delayed[..k]), Set(delayed[k..]), t, rest)
      ensures SnapshotDrains(snap, out + rest)
    {
      DrainsAfterMove(before, Set(ready), Set(delayed), t, rest);
    }
  }

  /** Nothing ripe: the clock jumps, and the next round finds something. */
  lemma JumpRound(snap: QueueSnapshot, out: seq<SimItem>, delayed: seq<SimItem>, t: Time)
    requires Round(snap, out, [], delayed, t)
    requires delayed != [] && t < delayed[0].availableAt
    ensures Round(snap, out, [], delayed, delayed[0].availableAt)
  {
    var s, u := Set(delayed), delayed[0].availableAt;
    forall x | x in s ensures u <= x.availableAt {
      var i :| 0 <= i < |delayed| && delayed[i] == x;
      assert i > 0 ==> !Matures(delayed[i], delayed[0]);
    }
    assert delayed[0] in s && delayed[0] in Ripe(s, u);
    JumpDrains(ClientRule(snap.mode, LineOf(snap)), s, t, u);
    var none: seq<SimItem> := [];
    assert Set(none) == {};
  }

  lemma JumpDrains(before: Precedence, s: set<SimItem>, t: Time, u: Time)
    requires IsSoonest(s, u) && t < u && Ripe(s, u) != {}
    ensures forall rest :: Drains(before, {}, s, u, rest) ==> Drains(before, {}, s, t, rest)
  {
    assert Ripe(s, t) == {} && s - {} == s;
  }

  lemma OneOutContinues(snap: QueueSnapshot, out: seq<SimItem>, ready: set<SimItem>, delayed: set<SimItem>, t: Time, x: SimItem)
    requires Continues(snap, out, ready, delayed, t)
    requires IsNext(ClientRule(snap.mode, LineOf(snap)), ready, x) && Ripe(delayed, t) == {}
    ensures Continues(snap, out + [x], ready - {x}, delayed, t + POLL_INTERVAL)
  {
    var before := ClientRule(snap.mode, LineOf(snap));
    forall rest | Drains(before, ready - {x}, delayed, t + POLL_INTERVAL, rest)
      ensures SnapshotDrains(snap, out + [x] + rest)
    {
      var more := [x] + rest;
      assert more[1..] == rest && ready + {} == ready && delayed - {} == delayed;
      assert Drains(before, ready, delayed, t, more);
      assert out + [x] + rest == out + more;
    }
  }

  lemma FirstIsNext(mode: Mode, line: seq<SimItem>, ready: seq<SimItem>)
    requires ready != [] && Sorted(LessFor(mode), ready) && InLine(line, ready)
    ensures IsNext(ClientRule(mode, line), Set(ready), ready[0])
  {
    forall y | y in Set(ready) && y != ready[0] ensures ClientRule(mode, line)(ready[0], y) {
      var i :| 0 <= i < |ready| && ready[i] == y;
      assert !LessFor(mode)(ready[i], ready[0]);
      assert SameKey(ready[0], ready[i]) ==> Earlier(line, ready[0], ready[i]);
    }
  }

  lemma InLineParts(line: seq<SimItem>, a: seq<SimItem>, b: seq<SimItem>)
    requires InLine(line, a + b)
    ensures InLine(line, a)
  {
    assert forall i :: 0 <= i < |a| ==> (a + b)[i] == a[i];
  }

  lemma InLineWithoutFirst(line: seq<SimItem>, xs: seq<SimItem>)
    requires xs != [] && InLine(line, xs)
    ensures InLine(line, xs[1..])
  {
    assert forall i :: 0 <= i < |xs| - 1 ==> xs[1..][i] == xs[i + 1];
  }

  lemma EarlierIsNotLater(xs: seq<SimItem>, i: nat, j: nat)
    requires NoRepeats(xs) && i < j < |xs|
    ensures !Earlier(xs, xs[j], xs[i])
  {
  }

  /** A stable sort moves no tied item past another. */
  lemma SortStaysInLine(mode: Mode, line: seq<SimItem>, unsorted: seq<SimItem>, ready: seq<SimItem>, delayed: seq<SimItem>)
    requires InLine(line, unsorted + delayed) && IsStableSort(LessFor(mode), unsorted, ready)
    ensures InLine(line, ready + delayed)
  {
    var was, xs := unsorted + delayed, ready + delayed;
    forall i, j | 0 <= i < j < |xs| && SameKey(xs[i], xs[j]) ensures Earlier(line, xs[i], xs[j]) {
      var a := PlaceBefore(unsorted, ready, delayed, i);
      var b := PlaceBefore(unsorted, ready, delayed, j);
      if b < a && a < |unsorted| {
        assert !LessFor(mode)(unsorted[a], unsorted[b]);
        EarlierIsNotLater(ready, i, j);
        assert false;
      }
      assert a != b;
      assert SameKey(was[a], was[b]);
    }
  }

  lemma PlaceBefore(unsorted: seq<SimItem>, ready: seq<SimItem>, delayed: seq<SimItem>, i: nat) returns (a: nat)
    requires Set(ready) == Set(unsorted) && |ready| == |unsorted| && i < |ready + delayed|
    ensures a < |unsorted + delayed| && (unsorted + delayed)[a] == (ready + delayed)[i]
    ensures if i < |ready| then a < |unsorted| && unsorted[a] == ready[i] else a == i
  {
    if i < |ready| {
      assert ready[i] in Set(unsorted);
      a :| 0 <= a < |unsorted| && unsorted[a] == ready[i];
    } else {
      a := i;
    }
  }

  lemma DropFirst(ready: seq<SimItem>, delayed: seq<SimItem>)
    requires ready != [] && NoRepeats(ready + delayed)
    ensures Set(ready[1..]) == Set(ready) - {ready[0]} && NoRepeats(ready[1..] + delayed)
  {
    var all := ready + delayed;
    assert all[1..] == ready[1..] + delayed && ready == [ready[0]] + ready[1..];
    forall i | 1 <= i < |ready| ensures ready[i] != ready[0] {
      assert all[i] == ready[i] && all[0] == ready[0];
    }
  }

  lemma NothingIsRipe(delayed: seq<SimItem>, t: Time)
    requires Sorted(Matures, delayed) && (delayed != [] ==> t < delayed[0].availableAt)
    ensures Ripe(Set(delayed), t) == {}
  {
    forall x | x in delayed ensures t < x.availableAt {
      var i :| 0 <= i < |delayed| && delayed[i] == x;
      assert i > 0 ==> !Matures(delayed[i], delayed[0]);
    }
  }

  /** Sorting what is ready and handing out its first item. */
  lemma TakeFirst(snap: QueueSnapshot, out: seq<SimItem>, unsorted: seq<SimItem>, ready: seq<SimItem>, delayed: seq<SimItem>, t: Time)
    requires Round(snap, out, unsorted, delayed, t) && (delayed != [] ==> t < delayed[0].availableAt)
    requires ready != [] && IsStableSort(LessFor(snap.mode), unsorted, ready)
    ensures Round(snap, out + [ready[0]], ready[1..], delayed, t + POLL_INTERVAL)
  {
    var line := LineOf(snap);
    SameSetNoRepeats(unsorted, ready, delayed);
    SortStaysInLine(snap.mode, line, unsorted, ready, delayed);
    InLineParts(line, ready, delayed);
    FirstIsNext(snap.mode, line, ready);
    NothingIsRipe(delayed, t);
    DropFirst(ready, delayed);
    InLineWithoutFirst(line, ready + delayed);
    assert (ready + delayed)[1..] == ready[1..] + delayed;
    OneOutContinues(snap, out, Set(ready), Set(delayed), t, ready[0]);
  }

  /** The promotion at the head of a round: what has matured moves over, in order. */
  method MoveRipe(ghost snap: QueueSnapshot, ghost out: seq<SimItem>, ready0: seq<SimItem>, delayed0: seq<SimItem>, t: Time)
      returns (ready: seq<SimItem>, delayed: seq<SimItem>)
    requires Round(snap, out, ready0, delayed0, t)
    ensures Round(snap, out, ready, delayed, t)
    ensures delayed != [] ==> t < delayed[0].availableAt
    ensures |ready| + |delayed| == |ready0| + |delayed0|
    ensures ready == [] ==> ready0 == [] && delayed == delayed0
  {
    ready, delayed := ready0, delayed0;
    ghost var k := 0;
    while |delayed| > 0 && !(t < delayed[0].availableAt)
      invariant k <= |delayed0| && ready == ready0 + delayed0[..k] && delayed == delayed0[k..]
      invariant forall i :: 0 <= i < k ==> delayed0[i].availableAt <= t
    {
      assert delayed0[..k + 1] == delayed0[..k] + [delayed[0]];
      ready := ready + [delayed[0]];
      delayed := delayed[1..];
      k := k + 1;
    }
    MoveContinues(snap, out, ready0, delayed0, k, t);
  }

  /** Something ready: it is sorted and its first item goes out. */
  method SortRound(mode: Mode, ghost snap: QueueSnapshot, ghost out: seq<SimItem>,
                   unsorted: seq<SimItem>, ghost delayed: seq<SimItem>, ghost t: Time) returns (ready: seq<SimItem>)
    requires mode == snap.mode && Round(snap, out, unsorted, delayed, t) && unsorted != []
    requires delayed != [] ==> t < delayed[0].availableAt
    ensures |ready| == |unsorted|
    ensures Round(snap, out + [ready[0]], ready[1..], delayed, t + POLL_INTERVAL)
  {
    NoRepeatsParts(unsorted, delayed);
    ready := SortReady(mode, unsorted);
    TakeFirst(snap, out, unsorted, ready, delayed, t);
  }

  /** The two slices simulateDrain starts from. */
  method FirstRound(snap: QueueSnapshot) returns (ready: seq<SimItem>, delayed: seq<SimItem>)
    requires NoRepeats(ToSims(snap.ready.messages) + ToSims(snap.delayed.messages))
    ensures Round(snap, [], ready, delayed, snap.now)
  {
    ready, delayed := ToSims(snap.ready.messages), ToSims(snap.delayed.messages);
    NoRepeatsParts(ready, delayed);
    delayed := SortDelayed(delayed);
    DelayedSorted(ready, ToSims(snap.delayed.messages), delayed);
    WholeLineIsInLine(LineOf(snap));
    NothingOutYet(snap, delayed);
  }

  function Idle(ready: seq<SimItem>, delayed: seq<SimItem>, t: Time): nat {
    if ready == [] && delayed != [] && t < delayed[0].availableAt then 1 else 0
  }

  /** One round of the loop: a jump of the clock, which leaves it less to do next time, or an item out. */
  method OneRound(snap: QueueSnapshot, out0: seq<SimItem>, ready0: seq<SimItem>, delayed0: seq<SimItem>, t0: Time)
      returns (out: seq<SimItem>, ready: seq<SimItem>, delayed: seq<SimItem>, t: Time)
    requires Round(snap, out0, ready0, delayed0, t0) && |ready0| + |delayed0| > 0
    ensures Round(snap, out, ready, delayed, t)
    ensures |ready| + |delayed| <= |ready0| + |delayed0|
    ensures |ready| + |delayed| == |ready0| + |delayed0| ==> Idle(ready, delayed, t) < Idle(ready0, delayed0, t0)
  {
    out, t := out0, t0;
    ready, delayed := MoveRipe(snap, out, ready0, delayed0, t);
    if |ready| == 0 {
      JumpRound(snap, out, delayed, t);
      t := delayed[0].availableAt;
      return;
    }
    ready := SortRound(snap.mode, snap, out, ready, delayed, t);
    out := out + [ready[0]];
    ready := ready[1..];
    t := t + POLL_INTERVAL;
  }

  /**
   * simulateDrain: terminates though the clock jump removes nothing, and returns the drain of the
   * snapshot, whenever it lists no item twice.
   */
  method SimulateDrain(snap: QueueSnapshot) returns (out: seq<SimItem>)
    requires NoRepeats(ToSims(snap.ready.messages) + ToSims(snap.delayed.messages))
    ensures SnapshotDrains(snap, out)
  {
    var ready, delayed := FirstRound(snap);
    var t := snap.now;
    out := [];
    while |ready| > 0 || |delayed| > 0
      invariant Round(snap, out, ready, delayed, t)
      decreases |ready| + |delayed|, Idle(ready, delayed, t)
    {
      out, ready, delayed, t := OneRound(snap, out, ready, delayed, t);
    }
    NothingLeft(snap, out, ready, delayed, t);
  }

  lemma WholeLineIsInLine(line: seq<SimItem>)
    ensures InLine(line, line)
  {
  }

  lemma NothingOutYet(snap: QueueSnapshot, delayed: seq<SimItem>)
    requires Set(delayed) == Set(ToSims(snap.delayed.messages))
    ensures Continues(snap, [], Set(ToSims(snap.ready.messages)), Set(delayed), snap.now)
  {
    var none: seq<SimItem> := [];
    assert forall rest :: none + rest == rest;
  }

  lemma NothingLeft(snap: QueueSnapshot, out: seq<SimItem>, ready: seq<SimItem>, delayed: seq<SimItem>, t: Time)
    requires Round(snap, out, ready, delayed, t) && |ready| == 0 && |delayed| == 0
    ensures SnapshotDrains(snap, out)
  {
    var none: seq<SimItem> := [];
    assert Set(ready) == {} && Set(delayed) == {};
    assert Drains(ClientRule(snap.mode, LineOf(snap)), {}, {}, t, none);
    assert out + none == out;
  }

  lemma DelayedSorted(ready: seq<SimItem>, was: seq<SimItem>, delayed: seq<SimItem>)
    requires NoRepeats(ready + was) && NoRepeats(delayed) && Set(delayed) == Set(was)
    ensures NoRepeats(ready + delayed)
  {
    forall x ensures x in delayed <==> x in was {
      assert x in Set(delayed) <==> x in Set(was);
    }
    forall i, j | 0 <= i < j < |ready + delayed| ensures (ready + delayed)[i] != (ready + delayed)[j] {
      if i < |ready| <= j {
        assert delayed[j - |ready|] in was;
        var k :| 0 <= k < |was| && was[k] == delayed[j - |ready|];
        assert (ready + was)[|ready| + k] == was[k] && (ready + was)[i] == ready[i];
      } else if j < |ready| {
        assert (ready + was)[i] == ready[i] && (ready + was)[j] == ready[j];
      }
    }
  }

  // ---------- predictLabels ----------

  /** The labels of this run's own items, in the order of the items. */
  function LabelsOf(mine: map<string, string>, items: seq<SimItem>): seq<string> {
    if items == [] then []
    else
      var x := items[|items| - 1];
      LabelsOf(mine, items[..|items| - 1]) + if x.id in mine then [mine[x.id]] else []
  }

  /** The labels are those of the items that are ours, one to an item, in their order; at tells where they stand. */
  ghost predicate LabelsAt(mine: map<string, string>, ids: seq<string>, labels: seq<string>, at: seq<nat>) {
    && |at| == |labels|
    && (forall k :: 0 <= k < |at| ==> at[k] < |ids| && ids[at[k]] in mine && labels[k] == mine[ids[at[k]]])
    && (forall k, l :: 0 <= k < l < |at| ==> at[k] < at[l])
    && (forall i :: 0 <= i < |ids| && ids[i] in mine ==> i in at)
  }

  function IdsOf(items: seq<SimItem>): (ids: seq<string>)
    ensures |ids| == |items| && forall i :: 0 <= i < |items| ==> ids[i] == items[i].id
  {
    seq(|items|, i requires 0 <= i < |items| => items[i].id)
  }

  lemma LabelsArePicked(mine: map<string, string>, items: seq<SimItem>) returns (at: seq<nat>)
    ensures LabelsAt(mine, IdsOf(items), LabelsOf(mine, items), at)
  {
    at := PickLabels(mine, (x: SimItem) => if x.id in mine then Some(mine[x.id]) else None, items);
  }

  lemma {:induction false} PickLabels(mine: map<string, string>, value: SimItem -> Option<string>, items: seq<SimItem>) returns (at: seq<nat>)
    requires forall x :: value(x) == if x.id in mine then Some(mine[x.id]) else None
    ensures Picks(items, value, LabelsOf(mine, items), at)
  {
    at := [];
    if items != [] {
      var init, x := items[..|items| - 1], items[|items| - 1];
      at := PickLabels(mine, value, init);
      PicksOneMore(init, x, value, LabelsOf(mine, init), at);
      assert items == init + [x] && LabelsOf(mine, init) + [] == LabelsOf(mine, init);
      if value(x).Some? {
        at := at + [|init|];
      }
    }
  }

  method PredictLabels(snap: QueueSnapshot, mine: map<string, string>) returns (labels: seq<string>)
    requires NoRepeats(ToSims(snap.ready.messages) + ToSims(snap.delayed.messages))
    ensures exists drain :: SnapshotDrains(snap, drain) && labels == LabelsOf(mine, drain)
    ensures forall drain :: SnapshotDrains(snap, drain) ==>
              labels == LabelsOf(mine, drain) && exists at :: LabelsAt(mine, IdsOf(drain), labels, at)
  {
    var items := SimulateDrain(snap);
    forall drain | SnapshotDrains(snap, drain) ensures drain == items {
      SnapshotDrainIsUnique(snap, drain, items);
    }
    labels := [];
    for i := 0 to |items|
      invariant labels == LabelsOf(mine, items[..i])
    {
      assert items[..i + 1][..i] == items[..i];
      if items[i].id in mine {
        labels := labels + [mine[items[i].id]];
      }
    }
    assert items[..|items|] == items;
    ghost var at := LabelsArePicked(mine, items);
  }
}

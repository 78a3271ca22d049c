/**
 * The two orders of the engine (pkg/engine/queue.go): selection order for visible messages and
 * maturity order for delayed ones. Both are strict total orders on entries with distinct arrival
 * counters, so "the first of a set" and "the set in order" are well defined.
 */
module Selection {
  import opened Model

  /** A held message with the arrival counter it was given by Push. */
  datatype Entry = Entry(msg: Message, order: nat)

  datatype Rule = BySelection(mode: Mode) | ByMaturity

  /** readyHeap.less and delayedHeap.less. */
  predicate Before(rule: Rule, a: Entry, b: Entry) {
    match rule
    case BySelection(mode) =>
      if a.msg.priority != b.msg.priority then a.msg.priority > b.msg.priority
      else if mode == LIFO then
        if a.msg.seqNo != b.msg.seqNo then a.msg.seqNo > b.msg.seqNo else a.order > b.order
      else
        if a.msg.seqNo != b.msg.seqNo then a.msg.seqNo < b.msg.seqNo else a.order < b.order
    case ByMaturity =>
      if a.msg.availableAt != b.msg.availableAt then a.msg.availableAt < b.msg.availableAt
      else a.order < b.order
  }

  lemma BeforeIsStrictOrder(rule: Rule, a: Entry, b: Entry, c: Entry)
    ensures !Before(rule, a, a)
    ensures Before(rule, a, b) && Before(rule, b, c) ==> Before(rule, a, c)
    ensures !Before(rule, b, a) && !Before(rule, c, b) ==> !Before(rule, c, a)
    ensures a.order != b.order ==> Before(rule, a, b) || Before(rule, b, a)
    ensures Before(rule, a, b) ==> !Before(rule, b, a)
  {
  }

  predicate SameOrder(a: Entry, b: Entry) {
    a.order == b.order
  }

  ghost predicate DistinctOrders(s: set<Entry>) {
    forall a, b {:trigger SameOrder(a, b)} :: a in s && b in s && SameOrder(a, b) ==> a == b
  }

  /** e is in s and precedes everything else in it. */
  ghost predicate IsFirst(rule: Rule, s: set<Entry>, e: Entry) {
    e in s && forall x :: x in s && x != e ==> Before(rule, e, x)
  }

  lemma FirstIsUnique(rule: Rule, s: set<Entry>, a: Entry, b: Entry)
    requires IsFirst(rule, s, a) && IsFirst(rule, s, b)
    ensures a == b
  {
    BeforeIsStrictOrder(rule, a, b, a);
  }

  lemma {:induction false} FirstExists(rule: Rule, s: set<Entry>)
    requires s != {} && DistinctOrders(s)
    ensures exists e :: IsFirst(rule, s, e)
    decreases |s|
  {
    var x :| x in s;
    var rest := s - {x};
    if rest == {} {
      assert s == {x};
      assert IsFirst(rule, s, x);
    } else {
      FirstExists(rule, rest);
      var y :| IsFirst(rule, rest, y);
      var e := if Before(rule, x, y) then x else y;
      forall z | z in s && z != e ensures Before(rule, e, z) {
        assert !SameOrder(x, y);
        BeforeIsStrictOrder(rule, x, y, z);
        BeforeIsStrictOrder(rule, y, x, z);
      }
      assert IsFirst(rule, s, e);
    }
  }

  /** The entry that precedes all others in s, if there is one. */
  ghost function First(rule: Rule, s: set<Entry>): (r: Option<Entry>)
    ensures r.Some? ==> IsFirst(rule, s, r.value)
  {
    if exists e :: IsFirst(rule, s, e) then
      var e :| IsFirst(rule, s, e);
      Some(e)
    else None
  }

  /** With distinct arrival counters only the empty set has no first entry. */
  lemma FirstOfNonEmpty(rule: Rule, s: set<Entry>)
    requires DistinctOrders(s)
    ensures First(rule, s).None? <==> s == {}
  {
    if s != {} {
      FirstExists(rule, s);
    }
  }

  /** The members of s, first to last. */
  ghost function InOrder(rule: Rule, s: set<Entry>): (es: seq<Entry>)
    ensures forall i :: 0 <= i < |es| ==> es[i] in s
    decreases |s|
  {
    match First(rule, s)
    case None => []
    case Some(e) => [e] + InOrder(rule, s - {e})
  }

  ghost predicate Ascending(rule: Rule, es: seq<Entry>) {
    forall i, j :: 0 <= i < j < |es| ==> Before(rule, es[i], es[j])
  }

  lemma {:induction false} InOrderListsAll(rule: Rule, s: set<Entry>, e: Entry)
    requires DistinctOrders(s)
    ensures |InOrder(rule, s)| == |s|
    ensures e in InOrder(rule, s) <==> e in s
    decreases |s|
  {
    FirstOfNonEmpty(rule, s);
    if s != {} {
      var f := First(rule, s).value;
      InOrderListsAll(rule, s - {f}, e);
      assert InOrder(rule, s) == [f] + InOrder(rule, s - {f});
    }
  }

  lemma {:induction false} InOrderAscends(rule: Rule, s: set<Entry>)
    ensures Ascending(rule, InOrder(rule, s))
    decreases |s|
  {
    if First(rule, s).Some? {
      var e := First(rule, s).value;
      var rest := InOrder(rule, s - {e});
      InOrderAscends(rule, s - {e});
      var es := InOrder(rule, s);
      assert es == [e] + rest;
      forall i, j | 0 <= i < j < |es| ensures Before(rule, es[i], es[j]) {
        assert es[j] == rest[j - 1];
        if i == 0 {
          assert es[j] in s - {e};
        } else {
          assert es[i] == rest[i - 1];
        }
      }
    }
  }

  /** Any ascending listing of a set is the one InOrder gives. */
  lemma {:induction false} AscendingIsInOrder(rule: Rule, es: seq<Entry>, s: set<Entry>)
    requires Ascending(rule, es)
    requires forall e :: e in es <==> e in s
    ensures es == InOrder(rule, s)
  {
    if es == [] {
      assert s == {};
    } else {
      AscendingStartsWithFirst(rule, es, s);
      var rest := s - {es[0]};
      forall x ensures x in es[1..] <==> x in rest {
        BeforeIsStrictOrder(rule, es[0], x, x);
        if x in rest {
          var i :| 0 <= i < |es| && es[i] == x;
          assert es[1..][i - 1] == x;
        }
        if x in es[1..] {
          assert x in es;
          var i :| 0 <= i < |es[1..]| && es[1..][i] == x;
          assert Before(rule, es[0], es[i + 1]);
        }
      }
      AscendingIsInOrder(rule, es[1..], rest);
    }
  }

  lemma AscendingStartsWithFirst(rule: Rule, es: seq<Entry>, s: set<Entry>)
    requires Ascending(rule, es) && es != []
    requires forall e :: e in es <==> e in s
    ensures First(rule, s) == Some(es[0])
  {
    assert es[0] in s;
    forall x | x in s && x != es[0] ensures Before(rule, es[0], x) {
      var i :| 0 <= i < |es| && es[i] == x;
    }
    assert IsFirst(rule, s, es[0]);
    FirstIsUnique(rule, s, es[0], First(rule, s).value);
  }
}

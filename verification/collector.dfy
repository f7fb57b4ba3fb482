/**
  The record collector: the two append-only bags of one compilation.

  Each bag is a sequence, filled one invocation at a time; the order of
  insertion carries no meaning (the validator is shown to ignore it).
 */
module Collector {
  import opened Wrappers
  import opened Records
  import opened Classifier

  datatype Bags = Bags(subs: seq<SubscriptionData>, unSubs: seq<SubscriptionData>)

  /**
    ValidateInvocation: classifies one invocation and adds its record, if any,
    to the subscribe bag or the unsubscribe bag according to its kind.
   */
  function ValidateInvocation(inv: Invocation, bags: Bags): (r: Bags)
    ensures TrackingAttributeName !in inv.targetAttributes ==> r == bags
    ensures bags.subs <= r.subs && bags.unSubs <= r.unSubs
    ensures |r.subs| + |r.unSubs| <= |bags.subs| + |bags.unSubs| + 1
    ensures r.subs == bags.subs || r.unSubs == bags.unSubs
    ensures |r.subs| > |bags.subs| <==> Classify(inv).Some? && inv.targetName == SubscribeMethodName
    ensures |r.unSubs| > |bags.unSubs| <==> Classify(inv).Some? && inv.targetName == UnsubscribeMethodName
    ensures |r.subs| > |bags.subs| ==> r.subs[|bags.subs|] == Classify(inv).value.data
    ensures |r.unSubs| > |bags.unSubs| ==> r.unSubs[|bags.unSubs|] == Classify(inv).value.data
  {
    match Classify(inv)
    case None => bags
    case Some(Classified(kind, data)) =>
      match kind
      case Subscribe => bags.(subs := bags.subs + [data])
      case Unsubscribe => bags.(unSubs := bags.unSubs + [data])
      case Unspecified => bags
  }

  /** What ValidateInvocation adds, record by record: the old contents and the invocation's own record. */
  lemma ValidateInvocationMembers(inv: Invocation, bags: Bags)
    ensures forall d :: d in ValidateInvocation(inv, bags).subs <==>
              d in bags.subs || Classify(inv) == Some(Classified(Subscribe, d))
    ensures forall d :: d in ValidateInvocation(inv, bags).unSubs <==>
              d in bags.unSubs || Classify(inv) == Some(Classified(Unsubscribe, d))
  {
    match Classify(inv)
    case None =>
    case Some(Classified(kind, data)) =>
  }

  /** The bags after ValidateInvocation has run on every analysed invocation of a compilation, in order, from empty bags. */
  function CollectAll(invs: seq<Invocation>): (bags: Bags)
    ensures |bags.subs| + |bags.unSubs| <= |invs|
  {
    if |invs| == 0 then Bags([], [])
    else ValidateInvocation(invs[|invs| - 1], CollectAll(invs[..|invs| - 1]))
  }

  /** The tracked call with role `kind` and record d occurs among the invocations. */
  ghost predicate Tracked(invs: seq<Invocation>, kind: MethodKind, d: SubscriptionData) {
    exists i :: 0 <= i < |invs| && Classify(invs[i]) == Some(Classified(kind, d))
  }

  /**
    The collected bags hold exactly the records of the tracked invocations:
    a record is in the subscribe bag iff some invocation classifies to it as a
    subscribe, and likewise for the unsubscribe bag.
   */
  lemma {:induction false} CollectAllMembers(invs: seq<Invocation>, d: SubscriptionData)
    ensures d in CollectAll(invs).subs <==> Tracked(invs, Subscribe, d)
    ensures d in CollectAll(invs).unSubs <==> Tracked(invs, Unsubscribe, d)
  {
    if |invs| > 0 {
      var init, last := invs[..|invs| - 1], invs[|invs| - 1];
      CollectAllMembers(init, d);
      ValidateInvocationMembers(last, CollectAll(init));
      assert invs == init + [last];
      forall kind | Tracked(invs, kind, d) && Classify(last) != Some(Classified(kind, d))
        ensures Tracked(init, kind, d)
      {
        var i :| 0 <= i < |invs| && Classify(invs[i]) == Some(Classified(kind, d));
        assert i < |init| && init[i] == invs[i];
      }
      forall kind | Tracked(init, kind, d)
        ensures Tracked(invs, kind, d)
      {
        var i :| 0 <= i < |init| && Classify(init[i]) == Some(Classified(kind, d));
        assert invs[i] == init[i];
      }
      if Classify(last).Some? {
        assert Tracked(invs, Classify(last).value.kind, Classify(last).value.data) by {
          assert invs[|invs| - 1] == last;
        }
      }
    }
  }

  /** The positions of the elements of s that satisfy p. */
  ghost function IndexSet<T>(s: seq<T>, p: T -> bool): set<int> {
    set i | 0 <= i < |s| && p(s[i])
  }

  /** The last element adds its own position exactly when it satisfies p. */
  lemma IndexSetLast<T>(s: seq<T>, p: T -> bool)
    requires |s| > 0
    ensures |IndexSet(s, p)| == |IndexSet(s[..|s| - 1], p)| + (if p(s[|s| - 1]) then 1 else 0)
  {
    var n := |s| - 1;
    var before := IndexSet(s[..n], p);
    var extra := if p(s[n]) then {n} else {};
    forall i
      ensures i in IndexSet(s, p) <==> i in before + extra
    {
      if 0 <= i < n {
        assert s[..n][i] == s[i];
      }
    }
    assert IndexSet(s, p) == before + extra;
    assert n !in before;
  }

  /** The positions of the invocations that classify to record d with role `kind`. */
  ghost function TrackedAt(invs: seq<Invocation>, kind: MethodKind, d: SubscriptionData): set<int> {
    IndexSet(invs, inv => Classify(inv) == Some(Classified(kind, d)))
  }

  /** One step adds one occurrence of d to a bag exactly when the invocation classifies to d with that bag's role. */
  lemma ValidateInvocationCounts(inv: Invocation, bags: Bags, d: SubscriptionData)
    ensures multiset(ValidateInvocation(inv, bags).subs)[d]
            == multiset(bags.subs)[d] + (if Classify(inv) == Some(Classified(Subscribe, d)) then 1 else 0)
    ensures multiset(ValidateInvocation(inv, bags).unSubs)[d]
            == multiset(bags.unSubs)[d] + (if Classify(inv) == Some(Classified(Unsubscribe, d)) then 1 else 0)
  {
    match Classify(inv)
    case None =>
    case Some(Classified(kind, x)) =>
      assert multiset(bags.subs + [x]) == multiset(bags.subs) + multiset{x};
      assert multiset(bags.unSubs + [x]) == multiset(bags.unSubs) + multiset{x};
  }

  /**
    The bags never merge equal records: a record occurs in a bag as many
    times as there are invocations that classify to it with that bag's role.
   */
  lemma {:induction false} CollectAllCounts(invs: seq<Invocation>, d: SubscriptionData)
    ensures multiset(CollectAll(invs).subs)[d] == |TrackedAt(invs, Subscribe, d)|
    ensures multiset(CollectAll(invs).unSubs)[d] == |TrackedAt(invs, Unsubscribe, d)|
  {
    if |invs| == 0 {
      assert TrackedAt(invs, Subscribe, d) == {};
      assert TrackedAt(invs, Unsubscribe, d) == {};
    } else {
      var init, last := invs[..|invs| - 1], invs[|invs| - 1];
      CollectAllCounts(init, d);
      ValidateInvocationCounts(last, CollectAll(init), d);
      IndexSetLast(invs, inv => Classify(inv) == Some(Classified(Subscribe, d)));
      IndexSetLast(invs, inv => Classify(inv) == Some(Classified(Unsubscribe, d)));
    }
  }

  lemma IgnoredLastInvocation(a: seq<Invocation>, inv: Invocation)
    requires Classify(inv).None?
    ensures CollectAll(a + [inv]) == CollectAll(a)
  {
    assert (a + [inv])[..|a|] == a;
  }

  /** An invocation that classifies to nothing leaves both bags as they would be without it. */
  lemma {:induction false} IgnoredInvocationChangesNothing(a: seq<Invocation>, inv: Invocation, b: seq<Invocation>)
    requires Classify(inv).None?
    ensures CollectAll(a + [inv] + b) == CollectAll(a + b)
    decreases |b|
  {
    if |b| == 0 {
      assert a + [inv] + b == a + [inv];
      assert a + b == a;
      IgnoredLastInvocation(a, inv);
    } else {
      var init, last := b[..|b| - 1], b[|b| - 1];
      IgnoredInvocationChangesNothing(a, inv, init);
      assert a + [inv] + b == (a + [inv] + init) + [last];
      assert a + b == (a + init) + [last];
      CollectAllSnoc(a + [inv] + init, last);
      CollectAllSnoc(a + init, last);
    }
  }

  /** Collecting one more invocation appends its record, if any, to the bag of its kind. */
  lemma CollectAllAppends(invs: seq<Invocation>, inv: Invocation, kind: MethodKind, d: SubscriptionData)
    requires Classify(inv) == Some(Classified(kind, d))
    ensures kind == Subscribe ==>
              CollectAll(invs + [inv]) == Bags(CollectAll(invs).subs + [d], CollectAll(invs).unSubs)
    ensures kind == Unsubscribe ==>
              CollectAll(invs + [inv]) == Bags(CollectAll(invs).subs, CollectAll(invs).unSubs + [d])
  {
    CollectAllSnoc(invs, inv);
  }

  /** The bags after the first k invocations are those after the first k - 1, plus the k-th invocation. */
  lemma CollectAllPrefix(invs: seq<Invocation>, k: int)
    requires 0 < k <= |invs|
    ensures CollectAll(invs[..k]) == ValidateInvocation(invs[k - 1], CollectAll(invs[..k - 1]))
  {
    assert invs[..k][..k - 1] == invs[..k - 1];
  }

  /** The k-th invocation, when tracked, appends its record to the bag of its kind. */
  lemma CollectAllPrefixAppends(invs: seq<Invocation>, k: int, kind: MethodKind, d: SubscriptionData)
    requires 0 < k <= |invs|
    requires Classify(invs[k - 1]) == Some(Classified(kind, d))
    ensures kind == Subscribe ==>
              CollectAll(invs[..k]) == Bags(CollectAll(invs[..k - 1]).subs + [d], CollectAll(invs[..k - 1]).unSubs)
    ensures kind == Unsubscribe ==>
              CollectAll(invs[..k]) == Bags(CollectAll(invs[..k - 1]).subs, CollectAll(invs[..k - 1]).unSubs + [d])
  {
    CollectAllPrefix(invs, k);
  }

  lemma CollectAllSnoc(invs: seq<Invocation>, inv: Invocation)
    ensures CollectAll(invs + [inv]) == ValidateInvocation(inv, CollectAll(invs))
  {
    assert (invs + [inv])[..|invs|] == invs;
  }
}

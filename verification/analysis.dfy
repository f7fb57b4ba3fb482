/**
  One validation over a compilation's complete bags: every analysed
  (non-generated) invocation of the compilation is classified and collected
  into the two bags, then the validator runs once over them. The sequence of
  invocations stands for the invocations the host analyses; the model is the
  single validation that sees all of their records, not each of the
  per-syntax-tree validations the host may schedule.
 */
module Analysis {
  import opened Wrappers
  import opened Records
  import opened Classifier
  import opened Collector
  import opened Validator

  /** The findings of a compilation: the spans of its unmatched subscribe records. */
  ghost function Findings(invs: seq<Invocation>): multiset<Span> {
    var bags := CollectAll(invs);
    UnmatchedSpans(bags.subs, bags.unSubs)
  }

  /** Some unsubscribe call of the compilation yields a record that covers d. */
  ghost predicate CoveredInCompilation(invs: seq<Invocation>, d: SubscriptionData) {
    exists u :: Tracked(invs, Unsubscribe, u) && Covers(u, d)
  }

  /**
    The analysis of one compilation: fill the bags from empty with every analysed invocation,
    then validate once.
   */
  method Analyze(invs: seq<Invocation>) returns (spans: multiset<Span>)
    ensures spans == Findings(invs)
  {
    var bags := Bags([], []);
    for i := 0 to |invs|
      invariant bags == CollectAll(invs[..i])
    {
      CollectAllPrefix(invs, i + 1);
      bags := ValidateInvocation(invs[i], bags);
    }
    assert invs[..|invs|] == invs;
    spans := FinishValidation(bags.subs, bags.unSubs);
  }

  lemma CoveredInCompilationIffHasUnsubscribe(invs: seq<Invocation>, d: SubscriptionData)
    ensures CoveredInCompilation(invs, d) <==> HasUnsubscribe(CollectAll(invs).unSubs, d)
  {
    if CoveredInCompilation(invs, d) {
      var u :| Tracked(invs, Unsubscribe, u) && Covers(u, d);
      CollectAllMembers(invs, u);
    }
    if HasUnsubscribe(CollectAll(invs).unSubs, d) {
      var u :| u in CollectAll(invs).unSubs && Covers(u, d);
      CollectAllMembers(invs, u);
    }
  }

  /**
    End to end, a span is reported exactly when some subscribe call at that
    span yields a record that no unsubscribe call of the compilation covers.
   */
  lemma FindingIffUncoveredSubscribe(invs: seq<Invocation>, span: Span)
    ensures span in Findings(invs) <==>
            exists d :: Tracked(invs, Subscribe, d) && d.targetSpan == span && !CoveredInCompilation(invs, d)
  {
    var bags := CollectAll(invs);
    if span in Findings(invs) {
      ReportedSpanIsUnmatched(bags.subs, bags.unSubs, span);
      var k :| 0 <= k < |bags.subs| && bags.subs[k].targetSpan == span && !HasUnsubscribe(bags.unSubs, bags.subs[k]);
      CollectAllMembers(invs, bags.subs[k]);
      CoveredInCompilationIffHasUnsubscribe(invs, bags.subs[k]);
    }
    if exists d :: Tracked(invs, Subscribe, d) && d.targetSpan == span && !CoveredInCompilation(invs, d) {
      var d :| Tracked(invs, Subscribe, d) && d.targetSpan == span && !CoveredInCompilation(invs, d);
      CollectAllMembers(invs, d);
      CoveredInCompilationIffHasUnsubscribe(invs, d);
      var k :| 0 <= k < |bags.subs| && bags.subs[k] == d;
      UnmatchedSubscribeIsReported(bags.subs, bags.unSubs, k);
    }
  }

  /** Invocation i is a tracked subscribe call at `span` whose record no unsubscribe call covers. */
  ghost predicate UncoveredSubscribeCall(invs: seq<Invocation>, i: int, span: Span) {
    && 0 <= i < |invs|
    && Classify(invs[i]).Some?
    && Classify(invs[i]).value.kind == Subscribe
    && Classify(invs[i]).value.data.targetSpan == span
    && !CoveredInCompilation(invs, Classify(invs[i]).value.data)
  }

  /** The call is a tracked subscribe at `span` whose record no record of unSubs covers. */
  ghost predicate ReportedAgainst(inv: Invocation, unSubs: seq<SubscriptionData>, span: Span) {
    && Classify(inv).Some?
    && Classify(inv).value.kind == Subscribe
    && Classify(inv).value.data.targetSpan == span
    && !HasUnsubscribe(unSubs, Classify(inv).value.data)
  }

  /** The positions of the invocations reported against unSubs at span. */
  ghost function ReportedAt(invs: seq<Invocation>, unSubs: seq<SubscriptionData>, span: Span): set<int> {
    IndexSet(invs, inv => ReportedAgainst(inv, unSubs, span))
  }

  /** One step adds one finding at span exactly when the invocation is reported against unSubs. */
  lemma ValidateInvocationReports(inv: Invocation, bags: Bags, unSubs: seq<SubscriptionData>, span: Span)
    ensures UnmatchedSpans(ValidateInvocation(inv, bags).subs, unSubs)[span]
            == UnmatchedSpans(bags.subs, unSubs)[span] + (if ReportedAgainst(inv, unSubs, span) then 1 else 0)
  {
    match Classify(inv)
    case None =>
    case Some(Classified(kind, x)) =>
      if kind == Subscribe {
        UnmatchedSpansSnoc(bags.subs, unSubs, x);
      }
  }

  lemma {:induction false} UnmatchedSpansOfCalls(invs: seq<Invocation>, unSubs: seq<SubscriptionData>, span: Span)
    ensures UnmatchedSpans(CollectAll(invs).subs, unSubs)[span] == |ReportedAt(invs, unSubs, span)|
  {
    if |invs| == 0 {
      assert ReportedAt(invs, unSubs, span) == {};
    } else {
      var init, last := invs[..|invs| - 1], invs[|invs| - 1];
      UnmatchedSpansOfCalls(init, unSubs, span);
      ValidateInvocationReports(last, CollectAll(init), unSubs, span);
      IndexSetLast(invs, inv => ReportedAgainst(inv, unSubs, span));
    }
  }

  /**
    Findings are never merged: each span is reported as many times as there
    are tracked subscribe calls at that span whose record no unsubscribe call
    of the compilation covers.
   */
  lemma FindingsCountUncoveredCalls(invs: seq<Invocation>, span: Span)
    ensures Findings(invs)[span] == |set i | 0 <= i < |invs| && UncoveredSubscribeCall(invs, i, span)|
  {
    var unSubs := CollectAll(invs).unSubs;
    UnmatchedSpansOfCalls(invs, unSubs, span);
    forall i | 0 <= i < |invs| && Classify(invs[i]).Some?
      ensures UncoveredSubscribeCall(invs, i, span) <==> ReportedAgainst(invs[i], unSubs, span)
    {
      CoveredInCompilationIffHasUnsubscribe(invs, Classify(invs[i]).value.data);
    }
    assert (set i | 0 <= i < |invs| && UncoveredSubscribeCall(invs, i, span)) == ReportedAt(invs, unSubs, span);
  }

  /**
    A call whose target lacks the tracking attribute never changes the
    findings, wherever it occurs in the compilation.
   */
  lemma UntrackedCallNeverChangesFindings(a: seq<Invocation>, inv: Invocation, b: seq<Invocation>)
    requires TrackingAttributeName !in inv.targetAttributes
    ensures Findings(a + [inv] + b) == Findings(a + b)
  {
    IgnoredInvocationChangesNothing(a, inv, b);
  }

  /** A compilation whose calls all lack the tracking attribute has no findings. */
  lemma {:induction false} UntrackedCallsNeverWarn(invs: seq<Invocation>)
    requires forall i :: 0 <= i < |invs| ==> TrackingAttributeName !in invs[i].targetAttributes
    ensures Findings(invs) == multiset{}
  {
    if |invs| > 0 {
      var init := invs[..|invs| - 1];
      UntrackedCallsNeverWarn(init);
      assert invs == init + [invs[|invs| - 1]] + [];
      IgnoredInvocationChangesNothing(init, invs[|invs| - 1], []);
      assert init + [] == init;
    }
  }

  // The unit-test scenarios. A call `EventManager.Subscribe<T>(this, Handle)`
  // inside class Sample has, below it in preorder: the first argument, the
  // implicit conversion of `this` to `object`, the `this` reference, the second
  // argument, the delegate creation, the method reference to Handle and its
  // instance. `EventManager.Unsubscribe<T>(Handle)` has one argument, the
  // delegate creation, the method reference and its instance. Only the absence
  // of a method reference before Handle's matters to the classifier. Type.Name
  // of `object` is "Object" and of `int` is "Int32".

  function SubscribeCall(attributes: seq<string>, typeName: string, handler: string, parameterType: string, span: Span): Invocation {
    Invocation(SubscribeMethodName, attributes, typeName,
               [OtherOperation, OtherOperation, OtherOperation, OtherOperation, OtherOperation,
                MethodReference(MethodSymbol(handler, [parameterType])), OtherOperation],
               span)
  }

  function UnsubscribeCall(attributes: seq<string>, typeName: string, handler: string, parameterType: string, span: Span): Invocation {
    Invocation(UnsubscribeMethodName, attributes, typeName,
               [OtherOperation, OtherOperation,
                MethodReference(MethodSymbol(handler, [parameterType])), OtherOperation],
               span)
  }

  const Tracking: seq<string> := [TrackingAttributeName]

  lemma SubscribeCallClassifies(typeName: string, handler: string, parameterType: string, span: Span)
    ensures Classify(SubscribeCall(Tracking, typeName, handler, parameterType, span))
            == Some(Classified(Subscribe, SubscriptionData(typeName, parameterType, handler, span)))
  {
    var inv := SubscribeCall(Tracking, typeName, handler, parameterType, span);
    assert IsFirstMethodReference(inv.descendants, 5);
    assert TrackingAttributeName in inv.targetAttributes;
  }

  lemma UnsubscribeCallClassifies(typeName: string, handler: string, parameterType: string, span: Span)
    ensures Classify(UnsubscribeCall(Tracking, typeName, handler, parameterType, span))
            == Some(Classified(Unsubscribe, SubscriptionData(typeName, parameterType, handler, span)))
  {
    var inv := UnsubscribeCall(Tracking, typeName, handler, parameterType, span);
    assert IsFirstMethodReference(inv.descendants, 2);
    assert TrackingAttributeName in inv.targetAttributes;
  }

  /** The findings of a compilation of one subscribe call followed by one unsubscribe call. */
  lemma SubscribeThenUnsubscribe(sub: Invocation, unsub: Invocation, d: SubscriptionData, u: SubscriptionData)
    requires Classify(sub) == Some(Classified(Subscribe, d))
    requires Classify(unsub) == Some(Classified(Unsubscribe, u))
    ensures Findings([sub, unsub]) == if Covers(u, d) then multiset{} else multiset{d.targetSpan}
  {
    assert [] + [sub] == [sub] && [sub] + [unsub] == [sub, unsub];
    assert CollectAll([]) == Bags([], []);
    CollectAllAppends([], sub, Subscribe, d);
    assert CollectAll([sub]) == Bags([d], []);
    CollectAllAppends([sub], unsub, Unsubscribe, u);
    assert CollectAll([sub, unsub]) == Bags([d], [u]);
    UnmatchedSpansOfOne(d, u);
    assert Findings([sub, unsub]) == UnmatchedSpans([d], [u]);
  }

  lemma TwoSubscribes(invs: seq<Invocation>, d1: SubscriptionData, d2: SubscriptionData)
    requires |invs| >= 2
    requires Classify(invs[0]) == Some(Classified(Subscribe, d1))
    requires Classify(invs[1]) == Some(Classified(Subscribe, d2))
    ensures CollectAll(invs[..2]) == Bags([d1, d2], [])
  {
    assert CollectAll(invs[..1]) == Bags([d1], []) by {
      CollectAllPrefixAppends(invs, 1, Subscribe, d1);
      assert invs[..0] == [] && [] + [d1] == [d1];
    }
    CollectAllPrefixAppends(invs, 2, Subscribe, d2);
    assert [d1] + [d2] == [d1, d2];
  }

  /** The bags of a compilation of two subscribe calls followed by one unsubscribe call. */
  lemma TwoSubscribesThenUnsubscribe(invs: seq<Invocation>, d1: SubscriptionData, d2: SubscriptionData, u: SubscriptionData)
    requires |invs| == 3
    requires Classify(invs[0]) == Some(Classified(Subscribe, d1))
    requires Classify(invs[1]) == Some(Classified(Subscribe, d2))
    requires Classify(invs[2]) == Some(Classified(Unsubscribe, u))
    ensures CollectAll(invs) == Bags([d1, d2], [u])
  {
    TwoSubscribes(invs, d1, d2);
    CollectAllPrefixAppends(invs, 3, Unsubscribe, u);
    assert invs[..3] == invs;
    assert [] + [u] == [u];
  }

  /** Of two subscribe calls, only the one the single unsubscribe call does not cover is reported. */
  lemma TwoSubscribesOneCovered(invs: seq<Invocation>, d1: SubscriptionData, d2: SubscriptionData, u: SubscriptionData)
    requires |invs| == 3
    requires Classify(invs[0]) == Some(Classified(Subscribe, d1))
    requires Classify(invs[1]) == Some(Classified(Subscribe, d2))
    requires Classify(invs[2]) == Some(Classified(Unsubscribe, u))
    requires Covers(u, d1) && !Covers(u, d2)
    ensures Findings(invs) == multiset{d2.targetSpan}
  {
    TwoSubscribesThenUnsubscribe(invs, d1, d2, u);
    UnmatchedSpansOfOne(d1, u);
    assert !HasUnsubscribe([u], d2) by {
      assert forall x :: x in [u] <==> x == u;
    }
    assert [d1] + [d2] == [d1, d2];
    UnmatchedSpansSnoc([d1], [u], d2);
  }

  /** No unsubscribe call: the one subscribe call is reported. */
  lemma NoUnsubscribeCallWarns(typeName: string, handler: string, parameterType: string, span: Span)
    ensures Findings([SubscribeCall(Tracking, typeName, handler, parameterType, span)]) == multiset{span}
  {
    var inv := SubscribeCall(Tracking, typeName, handler, parameterType, span);
    var d := SubscriptionData(typeName, parameterType, handler, span);
    SubscribeCallClassifies(typeName, handler, parameterType, span);
    assert [] + [inv] == [inv];
    assert CollectAll([]) == Bags([], []);
    CollectAllAppends([], inv, Subscribe, d);
    assert !HasUnsubscribe([], d);
    assert [] + [d] == [d];
    UnmatchedSpansSnoc([], [], d);
  }

  /**
    Two subscribes of one handler name with different parameter types (Object
    and Int32 in the tests), one unsubscribe matching the first: only the
    second subscribe is reported.
   */
  lemma NotEnoughUnsubscribeCallsWarnsOnce(
    typeName: string, handler: string, firstType: string, secondType: string,
    firstSpan: Span, secondSpan: Span, unsubscribeSpan: Span)
    requires firstType != secondType
    ensures Findings([SubscribeCall(Tracking, typeName, handler, firstType, firstSpan),
                      SubscribeCall(Tracking, typeName, handler, secondType, secondSpan),
                      UnsubscribeCall(Tracking, typeName, handler, firstType, unsubscribeSpan)])
            == multiset{secondSpan}
  {
    SubscribeCallClassifies(typeName, handler, firstType, firstSpan);
    SubscribeCallClassifies(typeName, handler, secondType, secondSpan);
    UnsubscribeCallClassifies(typeName, handler, firstType, unsubscribeSpan);
    TwoSubscribesOneCovered(
      [SubscribeCall(Tracking, typeName, handler, firstType, firstSpan),
       SubscribeCall(Tracking, typeName, handler, secondType, secondSpan),
       UnsubscribeCall(Tracking, typeName, handler, firstType, unsubscribeSpan)],
      SubscriptionData(typeName, firstType, handler, firstSpan),
      SubscriptionData(typeName, secondType, handler, secondSpan),
      SubscriptionData(typeName, firstType, handler, unsubscribeSpan));
  }

  /** Subscribe one handler, unsubscribe another of the same parameter type: reported. */
  lemma NotMatchingHandlersWarns(
    typeName: string, subscribed: string, unsubscribed: string, parameterType: string,
    subscribeSpan: Span, unsubscribeSpan: Span)
    requires subscribed != unsubscribed
    ensures Findings([SubscribeCall(Tracking, typeName, subscribed, parameterType, subscribeSpan),
                      UnsubscribeCall(Tracking, typeName, unsubscribed, parameterType, unsubscribeSpan)])
            == multiset{subscribeSpan}
  {
    SubscribeCallClassifies(typeName, subscribed, parameterType, subscribeSpan);
    UnsubscribeCallClassifies(typeName, unsubscribed, parameterType, unsubscribeSpan);
    SubscribeThenUnsubscribe(
      SubscribeCall(Tracking, typeName, subscribed, parameterType, subscribeSpan),
      UnsubscribeCall(Tracking, typeName, unsubscribed, parameterType, unsubscribeSpan),
      SubscriptionData(typeName, parameterType, subscribed, subscribeSpan),
      SubscriptionData(typeName, parameterType, unsubscribed, unsubscribeSpan));
  }

  /** A subscribe with its matching unsubscribe: nothing is reported. */
  lemma MatchedUnsubscribeIsSilent(
    typeName: string, handler: string, parameterType: string, subscribeSpan: Span, unsubscribeSpan: Span)
    ensures Findings([SubscribeCall(Tracking, typeName, handler, parameterType, subscribeSpan),
                      UnsubscribeCall(Tracking, typeName, handler, parameterType, unsubscribeSpan)])
            == multiset{}
  {
    SubscribeCallClassifies(typeName, handler, parameterType, subscribeSpan);
    UnsubscribeCallClassifies(typeName, handler, parameterType, unsubscribeSpan);
    SubscribeThenUnsubscribe(
      SubscribeCall(Tracking, typeName, handler, parameterType, subscribeSpan),
      UnsubscribeCall(Tracking, typeName, handler, parameterType, unsubscribeSpan),
      SubscriptionData(typeName, parameterType, handler, subscribeSpan),
      SubscriptionData(typeName, parameterType, handler, unsubscribeSpan));
  }

  /** A subscribe call to a method without the tracking attribute: nothing is reported. */
  lemma OutOfScopeCallIsSilent(typeName: string, handler: string, parameterType: string, span: Span)
    ensures Findings([SubscribeCall([], typeName, handler, parameterType, span)]) == multiset{}
  {
    UntrackedCallsNeverWarn([SubscribeCall([], typeName, handler, parameterType, span)]);
  }

  /** An unsubscribe in another declaring type never covers: the subscribe is reported. */
  lemma OtherTypeUnsubscribeDoesNotCover(
    subscriberType: string, otherType: string, handler: string, parameterType: string,
    subscribeSpan: Span, unsubscribeSpan: Span)
    requires subscriberType != otherType
    ensures Findings([SubscribeCall(Tracking, subscriberType, handler, parameterType, subscribeSpan),
                      UnsubscribeCall(Tracking, otherType, handler, parameterType, unsubscribeSpan)])
            == multiset{subscribeSpan}
  {
    SubscribeCallClassifies(subscriberType, handler, parameterType, subscribeSpan);
    UnsubscribeCallClassifies(otherType, handler, parameterType, unsubscribeSpan);
    SubscribeThenUnsubscribe(
      SubscribeCall(Tracking, subscriberType, handler, parameterType, subscribeSpan),
      UnsubscribeCall(Tracking, otherType, handler, parameterType, unsubscribeSpan),
      SubscriptionData(subscriberType, parameterType, handler, subscribeSpan),
      SubscriptionData(otherType, parameterType, handler, unsubscribeSpan));
  }
}

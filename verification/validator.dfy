/**
  The match validator: groups both record collections by declaring type and
  reports the span of every subscribe record that no unsubscribe record of the
  same type covers.

  Each bag is given as a sequence, one of the orders in which it may be
  enumerated; the findings are a multiset of spans, and they are shown below
  not to depend on either order.
 */
module Validator {
  import opened Records

  /** The handler identity that matching compares: name and first-parameter type. */
  predicate SameHandler(u: SubscriptionData, s: SubscriptionData) {
    u.handlerName == s.handlerName && u.handlerType == s.handlerType
  }

  /** Unsubscribe record u covers subscribe record s. Spans play no part. */
  predicate Covers(u: SubscriptionData, s: SubscriptionData) {
    u.typeName == s.typeName && SameHandler(u, s)
  }

  /** Reference definition of a match, on the flat collection: some unsubscribe record covers s. */
  ghost predicate HasUnsubscribe(unSubs: seq<SubscriptionData>, s: SubscriptionData) {
    exists u :: u in unSubs && Covers(u, s)
  }

  /** The records whose declaring type is one of `types`, in their original order. */
  ghost function InTypes(records: seq<SubscriptionData>, types: set<string>): seq<SubscriptionData> {
    if |records| == 0 then []
    else
      var last := records[|records| - 1];
      InTypes(records[..|records| - 1], types) + (if last.typeName in types then [last] else [])
  }

  /** The records declared in type t, in their original order. */
  ghost function OfType(records: seq<SubscriptionData>, t: string): seq<SubscriptionData> {
    InTypes(records, {t})
  }

  /**
    Reference definition of the findings: one span per subscribe record that
    no unsubscribe record covers, none for covered ones, never deduplicated.
   */
  ghost function UnmatchedSpans(subs: seq<SubscriptionData>, unSubs: seq<SubscriptionData>): multiset<Span> {
    if |subs| == 0 then multiset{}
    else
      var last := subs[|subs| - 1];
      UnmatchedSpans(subs[..|subs| - 1], unSubs)
        + (if HasUnsubscribe(unSubs, last) then multiset{} else multiset{last.targetSpan})
  }

  /**
    GroupBy(TypeName) followed by ToDictionary: one entry per declaring type
    that occurs, holding that type's records in their original order.
   */
  function GroupByType(records: seq<SubscriptionData>): (groups: map<string, seq<SubscriptionData>>)
    ensures forall t :: t in groups <==> OfType(records, t) != []
    ensures forall t :: t in groups ==> groups[t] == OfType(records, t)
  {
    if |records| == 0 then map[]
    else
      var groups := GroupByType(records[..|records| - 1]);
      var last := records[|records| - 1];
      var previous := if last.typeName in groups then groups[last.typeName] else [];
      groups[last.typeName := previous + [last]]
  }

  /** The keys of the grouping are exactly the declaring types that occur. */
  lemma {:induction false} GroupByTypeKeys(records: seq<SubscriptionData>)
    ensures GroupByType(records).Keys == set i | 0 <= i < |records| :: records[i].typeName
  {
    var groups := GroupByType(records);
    forall t | t in groups
      ensures exists i :: 0 <= i < |records| && records[i].typeName == t
    {
      var x := groups[t][0];
      InTypesMembers(records, {t}, x);
    }
    forall i | 0 <= i < |records|
      ensures records[i].typeName in groups
    {
      InTypesMembers(records, {records[i].typeName}, records[i]);
    }
  }

  /** A record is kept by the type filter exactly when it occurs and its type is selected. */
  lemma {:induction false} InTypesMembers(records: seq<SubscriptionData>, types: set<string>, x: SubscriptionData)
    ensures x in InTypes(records, types) <==> x in records && x.typeName in types
  {
    if |records| > 0 {
      var init := records[..|records| - 1];
      InTypesMembers(init, types, x);
      assert records == init + [records[|records| - 1]];
    }
  }

  /** The loop body of IsUnsubFound: does some record of the group have s's handler? */
  function AnyHandlerMatches(group: seq<SubscriptionData>, s: SubscriptionData): (found: bool)
    ensures found <==> exists u :: u in group && SameHandler(u, s)
  {
    if |group| == 0 then false
    else SameHandler(group[0], s) || AnyHandlerMatches(group[1..], s)
  }

  /** Looks s's declaring type up in the per-type dictionary; no entry means no match. */
  function IsUnsubFound(s: SubscriptionData, unSubsPerType: map<string, seq<SubscriptionData>>): (found: bool)
    ensures s.typeName !in unSubsPerType ==> !found
  {
    s.typeName in unSubsPerType && AnyHandlerMatches(unSubsPerType[s.typeName], s)
  }

  /**
    The dictionary lookup agrees with the flat search: s is found exactly when
    some unsubscribe record has the same declaring type, handler name and
    handler type. Records of other types never match.
   */
  lemma IsUnsubFoundIffCovered(s: SubscriptionData, unSubs: seq<SubscriptionData>)
    ensures IsUnsubFound(s, GroupByType(unSubs)) <==> HasUnsubscribe(unSubs, s)
  {
    var groups := GroupByType(unSubs);
    var t := s.typeName;
    if HasUnsubscribe(unSubs, s) {
      var u :| u in unSubs && Covers(u, s);
      InTypesMembers(unSubs, {t}, u);
      assert t in groups;
    }
    if IsUnsubFound(s, groups) {
      var u :| u in groups[t] && SameHandler(u, s);
      InTypesMembers(unSubs, {t}, u);
    }
  }

  /** Spans take no part in matching, on either side. */
  lemma CoverageIgnoresSpans(u: SubscriptionData, s: SubscriptionData, a: Span, b: Span)
    ensures Covers(u.(targetSpan := a), s.(targetSpan := b)) <==> Covers(u, s)
  {
  }

  /** Two records built from the same type, handler type and handler name cover each other. */
  lemma SameArgumentsCover(typeName: string, handlerType: string, handlerName: string, a: Span, b: Span)
    ensures Covers(SubscriptionData(typeName, handlerType, handlerName, a),
                   SubscriptionData(typeName, handlerType, handlerName, b))
  {
  }

  lemma UnmatchedSpansSnoc(subs: seq<SubscriptionData>, unSubs: seq<SubscriptionData>, x: SubscriptionData)
    ensures UnmatchedSpans(subs + [x], unSubs)
            == UnmatchedSpans(subs, unSubs) + (if HasUnsubscribe(unSubs, x) then multiset{} else multiset{x.targetSpan})
  {
    assert (subs + [x])[..|subs|] == subs;
  }

  /** A single subscribe record is reported exactly when a single unsubscribe record does not cover it. */
  lemma UnmatchedSpansOfOne(d: SubscriptionData, u: SubscriptionData)
    ensures UnmatchedSpans([d], [u]) == if Covers(u, d) then multiset{} else multiset{d.targetSpan}
  {
    assert HasUnsubscribe([u], d) <==> Covers(u, d) by {
      assert forall x :: x in [u] <==> x == u;
    }
    assert [] + [d] == [d];
    UnmatchedSpansSnoc([], [u], d);
  }

  lemma {:induction false} UnmatchedSpansAppend(a: seq<SubscriptionData>, b: seq<SubscriptionData>, unSubs: seq<SubscriptionData>)
    ensures UnmatchedSpans(a + b, unSubs) == UnmatchedSpans(a, unSubs) + UnmatchedSpans(b, unSubs)
    decreases |b|
  {
    if |b| == 0 {
      assert a + b == a;
    } else {
      var init, y := b[..|b| - 1], b[|b| - 1];
      assert a + b == (a + init) + [y];
      UnmatchedSpansSnoc(a + init, unSubs, y);
      UnmatchedSpansAppend(a, init, unSubs);
    }
  }

  /** Adding one more declaring type to the filter adds that type's findings. */
  lemma {:induction false} UnmatchedSpansOfOneMoreType(
    subs: seq<SubscriptionData>, unSubs: seq<SubscriptionData>, types: set<string>, t: string)
    requires t !in types
    ensures UnmatchedSpans(InTypes(subs, types + {t}), unSubs)
            == UnmatchedSpans(InTypes(subs, types), unSubs) + UnmatchedSpans(OfType(subs, t), unSubs)
  {
    if |subs| > 0 {
      var init, x := subs[..|subs| - 1], subs[|subs| - 1];
      var wider, narrower, single := InTypes(init, types + {t}), InTypes(init, types), OfType(init, t);
      UnmatchedSpansOfOneMoreType(init, unSubs, types, t);
      if x.typeName in types {
        assert InTypes(subs, types + {t}) == wider + [x];
        assert InTypes(subs, types) == narrower + [x];
        assert OfType(subs, t) == single;
        UnmatchedSpansSnoc(wider, unSubs, x);
        UnmatchedSpansSnoc(narrower, unSubs, x);
      } else if x.typeName == t {
        assert InTypes(subs, types + {t}) == wider + [x];
        assert InTypes(subs, types) == narrower;
        assert OfType(subs, t) == single + [x];
        UnmatchedSpansSnoc(wider, unSubs, x);
        UnmatchedSpansSnoc(single, unSubs, x);
      } else {
        assert InTypes(subs, types + {t}) == wider;
        assert InTypes(subs, types) == narrower;
        assert OfType(subs, t) == single;
      }
    }
  }

  lemma {:induction false} InTypesOfNoTypes(records: seq<SubscriptionData>)
    ensures InTypes(records, {}) == []
  {
    if |records| > 0 {
      InTypesOfNoTypes(records[..|records| - 1]);
    }
  }

  /** Filtering by a set of types that contains every record's type keeps everything. */
  lemma {:induction false} InTypesOfAllTypes(records: seq<SubscriptionData>, types: set<string>)
    requires forall i :: 0 <= i < |records| ==> records[i].typeName in types
    ensures InTypes(records, types) == records
  {
    if |records| > 0 {
      InTypesOfAllTypes(records[..|records| - 1], types);
      assert records == records[..|records| - 1] + [records[|records| - 1]];
    }
  }

  /**
    The inner loop of FinishValidation over one type's subscribe records:
    reports each record that IsUnsubFound rejects, at its own span.
   */
  method ReportUnmatched(
    subsForType: seq<SubscriptionData>, unSubs: seq<SubscriptionData>,
    unSubsPerType: map<string, seq<SubscriptionData>>)
    returns (spans: multiset<Span>)
    requires unSubsPerType == GroupByType(unSubs)
    ensures spans == UnmatchedSpans(subsForType, unSubs)
  {
    spans := multiset{};
    var j := 0;
    while j < |subsForType|
      invariant 0 <= j <= |subsForType|
      invariant spans == UnmatchedSpans(subsForType[..j], unSubs)
    {
      var subData := subsForType[j];
      IsUnsubFoundIffCovered(subData, unSubs);
      UnmatchedSpansSnoc(subsForType[..j], unSubs, subData);
      assert subsForType[..j + 1] == subsForType[..j] + [subData];
      if !IsUnsubFound(subData, unSubsPerType) {
        spans := spans + multiset{subData.targetSpan};
      }
      j := j + 1;
    }
    assert subsForType[..|subsForType|] == subsForType;
  }

  /**
    FinishValidation: groups both collections by declaring type, walks the
    subscribe groups in whatever order the dictionary yields them, and reports
    each subscribe record that IsUnsubFound rejects at its own span. The
    result is exactly the reference findings.
   */
  method FinishValidation(subs: seq<SubscriptionData>, unSubs: seq<SubscriptionData>) returns (spans: multiset<Span>)
    ensures spans == UnmatchedSpans(subs, unSubs)
  {
    var subsPerType := GroupByType(subs);
    var unSubsPerType := GroupByType(unSubs);
    var pending := subsPerType.Keys;
    spans := multiset{};
    InTypesOfNoTypes(subs);
    assert subsPerType.Keys - pending == {};
    while pending != {}
      invariant pending <= subsPerType.Keys
      invariant spans == UnmatchedSpans(InTypes(subs, subsPerType.Keys - pending), unSubs)
      decreases pending
    {
      var typeName :| typeName in pending;
      var done := subsPerType.Keys - pending;
      var found := ReportUnmatched(subsPerType[typeName], unSubs, unSubsPerType);
      UnmatchedSpansOfOneMoreType(subs, unSubs, done, typeName);
      spans := spans + found;
      assert done + {typeName} == subsPerType.Keys - (pending - {typeName});
      pending := pending - {typeName};
    }
    assert subsPerType.Keys - pending == subsPerType.Keys;
    GroupByTypeKeys(subs);
    assert forall i :: 0 <= i < |subs| ==> subs[i].typeName in subsPerType.Keys;
    InTypesOfAllTypes(subs, subsPerType.Keys);
  }

  /** Every subscribe record that nothing covers is reported at its span. */
  lemma {:induction false} UnmatchedSubscribeIsReported(subs: seq<SubscriptionData>, unSubs: seq<SubscriptionData>, k: int)
    requires 0 <= k < |subs| && !HasUnsubscribe(unSubs, subs[k])
    ensures subs[k].targetSpan in UnmatchedSpans(subs, unSubs)
  {
    if k < |subs| - 1 {
      UnmatchedSubscribeIsReported(subs[..|subs| - 1], unSubs, k);
    }
  }

  /** Every reported span belongs to a subscribe record that nothing covers. */
  lemma {:induction false} ReportedSpanIsUnmatched(subs: seq<SubscriptionData>, unSubs: seq<SubscriptionData>, span: Span)
    requires span in UnmatchedSpans(subs, unSubs)
    ensures exists k :: 0 <= k < |subs| && subs[k].targetSpan == span && !HasUnsubscribe(unSubs, subs[k])
  {
    var init := subs[..|subs| - 1];
    if span in UnmatchedSpans(init, unSubs) {
      ReportedSpanIsUnmatched(init, unSubs, span);
      var k :| 0 <= k < |init| && init[k].targetSpan == span && !HasUnsubscribe(unSubs, init[k]);
      assert subs[k] == init[k];
    } else {
      assert subs[|subs| - 1].targetSpan == span;
    }
  }

  /** There are no findings exactly when every subscribe record is covered. */
  lemma NoFindingsIffAllCovered(subs: seq<SubscriptionData>, unSubs: seq<SubscriptionData>)
    ensures UnmatchedSpans(subs, unSubs) == multiset{}
            <==> forall k :: 0 <= k < |subs| ==> HasUnsubscribe(unSubs, subs[k])
  {
    if UnmatchedSpans(subs, unSubs) != multiset{} {
      var span :| span in UnmatchedSpans(subs, unSubs);
      ReportedSpanIsUnmatched(subs, unSubs, span);
    }
    if exists k :: 0 <= k < |subs| && !HasUnsubscribe(unSubs, subs[k]) {
      var k :| 0 <= k < |subs| && !HasUnsubscribe(unSubs, subs[k]);
      UnmatchedSubscribeIsReported(subs, unSubs, k);
    }
  }

  /** The findings never outnumber the subscribe records. */
  lemma {:induction false} AtMostOneFindingPerSubscribe(subs: seq<SubscriptionData>, unSubs: seq<SubscriptionData>)
    ensures |UnmatchedSpans(subs, unSubs)| <= |subs|
  {
    if |subs| > 0 {
      AtMostOneFindingPerSubscribe(subs[..|subs| - 1], unSubs);
    }
  }

  /**
    Coverage is an existence test: adding unsubscribe records can only remove
    findings, never add one.
   */
  lemma {:induction false} MoreUnsubscribesNeverAddFindings(
    subs: seq<SubscriptionData>, unSubs: seq<SubscriptionData>, extra: seq<SubscriptionData>)
    ensures UnmatchedSpans(subs, unSubs + extra) <= UnmatchedSpans(subs, unSubs)
  {
    if |subs| > 0 {
      var x := subs[|subs| - 1];
      MoreUnsubscribesNeverAddFindings(subs[..|subs| - 1], unSubs, extra);
      if HasUnsubscribe(unSubs, x) {
        var u :| u in unSubs && Covers(u, x);
        assert u in unSubs + extra;
      }
    }
  }

  /** One unsubscribe record covers every subscribe record with its type and handler. */
  lemma {:induction false} OneUnsubscribeCoversAll(subs: seq<SubscriptionData>, unSubs: seq<SubscriptionData>, u: SubscriptionData)
    requires u in unSubs
    requires forall k :: 0 <= k < |subs| ==> Covers(u, subs[k])
    ensures UnmatchedSpans(subs, unSubs) == multiset{}
  {
    if |subs| > 0 {
      OneUnsubscribeCoversAll(subs[..|subs| - 1], unSubs, u);
      assert Covers(u, subs[|subs| - 1]);
    }
  }

  lemma {:induction false} UnmatchedSpansSameUnsubscribes(
    subs: seq<SubscriptionData>, unSubs: seq<SubscriptionData>, unSubs': seq<SubscriptionData>)
    requires multiset(unSubs) == multiset(unSubs')
    ensures UnmatchedSpans(subs, unSubs) == UnmatchedSpans(subs, unSubs')
  {
    if |subs| > 0 {
      var x := subs[|subs| - 1];
      UnmatchedSpansSameUnsubscribes(subs[..|subs| - 1], unSubs, unSubs');
      assert forall u :: u in unSubs <==> u in multiset(unSubs');
    }
  }

  /** Removing the element at k removes one occurrence of it from the multiset. */
  lemma MultisetWithout<T>(s: seq<T>, k: int)
    requires 0 <= k < |s|
    ensures multiset(s[..k] + s[k + 1..]) == multiset(s) - multiset{s[k]}
  {
    assert s == s[..k] + [s[k]] + s[k + 1..];
    assert multiset(s) == multiset(s[..k]) + multiset{s[k]} + multiset(s[k + 1..]);
  }

  /** The findings of a collection split into those of the record at k and those of the rest. */
  lemma UnmatchedSpansWithout(subs: seq<SubscriptionData>, k: int, unSubs: seq<SubscriptionData>)
    requires 0 <= k < |subs|
    ensures UnmatchedSpans(subs, unSubs)
            == UnmatchedSpans(subs[..k] + subs[k + 1..], unSubs) + UnmatchedSpans([subs[k]], unSubs)
  {
    var before, x, after := subs[..k], subs[k], subs[k + 1..];
    assert subs == (before + [x]) + after;
    UnmatchedSpansAppend(before + [x], after, unSubs);
    UnmatchedSpansAppend(before, [x], unSubs);
    UnmatchedSpansAppend(before, after, unSubs);
  }

  lemma {:induction false} UnmatchedSpansPermutation(
    subs: seq<SubscriptionData>, subs': seq<SubscriptionData>, unSubs: seq<SubscriptionData>)
    requires multiset(subs) == multiset(subs')
    ensures UnmatchedSpans(subs, unSubs) == UnmatchedSpans(subs', unSubs)
    decreases |subs|
  {
    if |subs| == 0 {
      assert |subs'| == |multiset(subs')|;
    } else {
      var n := |subs| - 1;
      var x := subs[n];
      assert x in multiset(subs') by {
        assert x in subs;
      }
      var k :| 0 <= k < |subs'| && subs'[k] == x;
      var rest, rest' := subs[..n] + subs[n + 1..], subs'[..k] + subs'[k + 1..];
      MultisetWithout(subs, n);
      MultisetWithout(subs', k);
      UnmatchedSpansPermutation(rest, rest', unSubs);
      UnmatchedSpansWithout(subs, n, unSubs);
      UnmatchedSpansWithout(subs', k, unSubs);
    }
  }

  /**
    The findings do not depend on the order in which either bag is enumerated:
    collections with the same elements, counted with multiplicity, give the
    same multiset of spans.
   */
  lemma FindingsAreOrderIndependent(
    subs: seq<SubscriptionData>, subs': seq<SubscriptionData>,
    unSubs: seq<SubscriptionData>, unSubs': seq<SubscriptionData>)
    requires multiset(subs) == multiset(subs')
    requires multiset(unSubs) == multiset(unSubs')
    ensures UnmatchedSpans(subs, unSubs) == UnmatchedSpans(subs', unSubs')
  {
    UnmatchedSpansPermutation(subs, subs', unSubs);
    UnmatchedSpansSameUnsubscribes(subs', unSubs, unSubs');
  }
}

/**
  The call-site classifier: from one resolved invocation to at most one
  SubscriptionData record, tagged Subscribe or Unsubscribe.

  The compiler's symbol and operation queries are replaced by plain data: the
  target method's name and attribute class names, the caller's containing type
  name, the operations below the invocation in the order the compiler lists
  its descendants, and the call's span.
 */
module Classifier {
  import opened Wrappers
  import opened Records

  datatype MethodKind = Unspecified | Subscribe | Unsubscribe

  const SubscribeMethodName: string := "Subscribe"
  const UnsubscribeMethodName: string := "Unsubscribe"
  const TrackingAttributeName: string := "TrackingSubscriptionAttribute"

  /** A method as a method reference sees it: its name and the simple names of its parameter types. */
  datatype MethodSymbol = MethodSymbol(name: string, parameterTypes: seq<string>)

  /** One descendant operation of an invocation; only method references matter. */
  datatype Operation =
    | MethodReference(target: MethodSymbol)
    | OtherOperation

  datatype Invocation = Invocation(
    targetName: string,          // name of the invoked method
    targetAttributes: seq<string>, // class names of the attributes on the invoked method
    containingTypeName: string,  // name of the type whose code holds the call
    descendants: seq<Operation>, // descendant operations, in the compiler's order
    span: Span)                  // span of the invocation syntax

  /** Exact, case-sensitive recognition of the two tracked method names. */
  function DetectTargetMethod(name: string): (kind: MethodKind)
    ensures kind == Subscribe <==> name == SubscribeMethodName
    ensures kind == Unsubscribe <==> name == UnsubscribeMethodName
    ensures kind == Unspecified <==> name != SubscribeMethodName && name != UnsubscribeMethodName
  {
    if name == SubscribeMethodName then Subscribe
    else if name == UnsubscribeMethodName then Unsubscribe
    else Unspecified
  }

  /** Only the exact spellings are tracked: other casings and padded names are not. */
  lemma DetectTargetMethodIsExact()
    ensures DetectTargetMethod("subscribe") == Unspecified
    ensures DetectTargetMethod("UnSubscribe") == Unspecified
    ensures DetectTargetMethod("Subscribe ") == Unspecified
    ensures DetectTargetMethod("SubscribeAll") == Unspecified
    ensures DetectTargetMethod("Subscribe") == Subscribe
    ensures DetectTargetMethod("Unsubscribe") == Unsubscribe
  {
  }

  /** Whether any attribute on the method has the tracking attribute's class name. */
  function HasTargetAttribute(attributes: seq<string>): (has: bool)
    ensures has <==> TrackingAttributeName in attributes
  {
    if |attributes| == 0 then false
    else attributes[0] == TrackingAttributeName || HasTargetAttribute(attributes[1..])
  }

  /** Position i holds the first method reference among the operations. */
  ghost predicate IsFirstMethodReference(ops: seq<Operation>, i: int) {
    && 0 <= i < |ops|
    && ops[i].MethodReference?
    && forall j :: 0 <= j < i ==> !ops[j].MethodReference?
  }

  lemma FirstMethodReferenceIsUnique(ops: seq<Operation>, i: int, k: int)
    requires IsFirstMethodReference(ops, i) && IsFirstMethodReference(ops, k)
    ensures i == k
  {
  }

  /** The method of the first method-reference descendant, if there is one. */
  function FirstMethodReference(ops: seq<Operation>): (r: Option<MethodSymbol>)
    ensures r.None? <==> forall i :: 0 <= i < |ops| ==> !ops[i].MethodReference?
    ensures r.Some? ==> exists i :: IsFirstMethodReference(ops, i) && ops[i].target == r.value
    ensures forall i :: IsFirstMethodReference(ops, i) ==> r == Some(ops[i].target)
  {
    if |ops| == 0 then None
    else if ops[0].MethodReference? then
      assert IsFirstMethodReference(ops, 0);
      Some(ops[0].target)
    else
      assert forall i :: IsFirstMethodReference(ops, i) ==> IsFirstMethodReference(ops[1..], i - 1);
      assert forall i :: IsFirstMethodReference(ops[1..], i) ==> IsFirstMethodReference(ops, i + 1);
      FirstMethodReference(ops[1..])
  }

  /** A tracked call-site: the role it plays and the record it contributes. */
  datatype Classified = Classified(kind: MethodKind, data: SubscriptionData)

  /**
    The gating and record construction of ValidateInvocation: name gating,
    attribute gating, the first method-reference descendant, its first
    parameter, then the record. ClassifyCharacterized states what the record
    is in terms of the first method reference.
   */
  function Classify(inv: Invocation): (r: Option<Classified>)
    ensures DetectTargetMethod(inv.targetName) == Unspecified ==> r.None?
    ensures TrackingAttributeName !in inv.targetAttributes ==> r.None?
    ensures r.Some? ==>
              && (r.value.kind == Subscribe <==> inv.targetName == SubscribeMethodName)
              && (r.value.kind == Unsubscribe <==> inv.targetName == UnsubscribeMethodName)
  {
    var kind := DetectTargetMethod(inv.targetName);
    if kind == Unspecified then None
    else if !HasTargetAttribute(inv.targetAttributes) then None
    else
      match FirstMethodReference(inv.descendants)
      case None => None
      case Some(handler) =>
        if |handler.parameterTypes| == 0 then None
        else Some(Classified(kind, SubscriptionData(
                                     inv.containingTypeName,
                                     handler.parameterTypes[0],
                                     handler.name,
                                     inv.span)))
  }

  /**
    Classify in terms of the first method reference: no method reference gives
    no record; given the first one, a record exists iff the name is tracked,
    the attribute is present and that method has a parameter; and a record is
    built from the caller's type, that method's first parameter type and name,
    and the call's span.
   */
  lemma ClassifyCharacterized(inv: Invocation)
    ensures (forall i :: 0 <= i < |inv.descendants| ==> !inv.descendants[i].MethodReference?) ==> Classify(inv).None?
    ensures forall i :: IsFirstMethodReference(inv.descendants, i) ==>
              (Classify(inv).Some? <==>
                 && (inv.targetName == SubscribeMethodName || inv.targetName == UnsubscribeMethodName)
                 && TrackingAttributeName in inv.targetAttributes
                 && |inv.descendants[i].target.parameterTypes| > 0)
    ensures Classify(inv).Some? ==>
              exists i :: && IsFirstMethodReference(inv.descendants, i)
                          && |inv.descendants[i].target.parameterTypes| > 0
                          && Classify(inv).value.data == SubscriptionData(
                               inv.containingTypeName,
                               inv.descendants[i].target.parameterTypes[0],
                               inv.descendants[i].target.name,
                               inv.span)
  {
  }

  /**
    Only the first method reference is consulted: whatever follows it may be
    replaced without changing the outcome. In particular, when the first one
    has no parameters, a later one with parameters is never tried.
   */
  lemma OnlyFirstMethodReferenceMatters(inv: Invocation, i: int, rest: seq<Operation>)
    requires IsFirstMethodReference(inv.descendants, i)
    ensures Classify(inv.(descendants := inv.descendants[..i + 1] + rest)) == Classify(inv)
  {
    var inv' := inv.(descendants := inv.descendants[..i + 1] + rest);
    assert inv'.descendants[..i + 1] == inv.descendants[..i + 1];
    assert IsFirstMethodReference(inv'.descendants, i);
    assert inv'.descendants[i] == inv.descendants[i];
    var r, r' := Classify(inv), Classify(inv');
    if r.Some? {
      var k :| IsFirstMethodReference(inv.descendants, k)
               && |inv.descendants[k].target.parameterTypes| > 0
               && r.value.data == SubscriptionData(inv.containingTypeName, inv.descendants[k].target.parameterTypes[0],
                                                   inv.descendants[k].target.name, inv.span);
      var k' :| IsFirstMethodReference(inv'.descendants, k')
               && |inv'.descendants[k'].target.parameterTypes| > 0
               && r'.value.data == SubscriptionData(inv'.containingTypeName, inv'.descendants[k'].target.parameterTypes[0],
                                                    inv'.descendants[k'].target.name, inv'.span);
      FirstMethodReferenceIsUnique(inv.descendants, i, k);
      FirstMethodReferenceIsUnique(inv'.descendants, i, k');
    }
  }

  /** A first method reference to a parameterless method yields no record. */
  lemma ParameterlessHandlerIsIgnored(inv: Invocation, i: int)
    requires IsFirstMethodReference(inv.descendants, i)
    requires |inv.descendants[i].target.parameterTypes| == 0
    ensures Classify(inv).None?
  {
  }
}

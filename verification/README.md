# SubscriptionAnalyzer, modelled in Dafny

SubscriptionAnalyzer is a C# compiler analyzer. It warns when an event handler is passed to a
`Subscribe` call but no matching `Unsubscribe` call exists in the same class. Only methods that
carry the `TrackingSubscriptionAttribute` are tracked. This project models the analyzer's
decision logic as pure Dafny and proves what that logic promises.

- `Records` (records.dfy): the immutable `SubscriptionData` record. It holds the declaring type
  name, the handler's first-parameter type name, the handler name and the call's span.
- `Classifier` (classifier.dfy): the call-site classifier. `DetectTargetMethod` recognises the
  method name, `HasTargetAttribute` gates on the attribute, and `FirstMethodReference` finds the
  first method-reference descendant. `Classify` is the gating and record construction of
  `ValidateInvocation`, and `ClassifyCharacterized` states it in terms of the first method
  reference.
- `Collector` (collector.dfy): the two bags of one compilation. `ValidateInvocation` adds the
  classified record to the subscribe bag or the unsubscribe bag. `CollectAll` runs it over
  every analysed (non-generated) invocation of a compilation, starting from empty bags.
- `Validator` (validator.dfy): `GroupByType` (GroupBy plus ToDictionary), `IsUnsubFound` and
  `FinishValidation`. Each is checked against a flat reference definition: a subscribe record is
  reported at its span exactly when no unsubscribe record has the same declaring type, handler
  name and handler type.
- `Analysis` (analysis.dfy): one validation over a compilation's complete bags, end-to-end
  properties, and the unit-test scenarios as lemmas.

Modelling choices:
- The compiler's view of an invocation is an `Invocation` value. It holds the target method
  name, the class names of the target's attributes, the caller's containing type name, the
  descendant operations in the compiler's order (`MethodReference(MethodSymbol(name,
  parameterTypes))` or `OtherOperation`), and the span.
- A `ConcurrentBag` is a sequence, taken as one possible enumeration order. The findings are a
  multiset of spans. `FindingsAreOrderIndependent` proves that the findings depend only on the
  bags' contents, not on their order.
- Dictionary enumeration order in `FinishValidation` is left open: the loop picks any remaining
  key.
- `SubscriptionData` is a Dafny datatype. Its constructor stores the four arguments unchanged,
  and a value never changes afterwards, like the `readonly struct` with `readonly` fields.
- Declaring types and handler parameter types are identified by their simple names, as in the
  code. So two types with the same simple name in different namespaces, or two instantiations
  of one generic type, count as the same type for matching. The model keeps this behaviour.
- A `TextSpan` is a `Span(start, length)` pair. Spans are only carried to the report.
- Classification is a Dafny function, so classifying the same invocation twice always gives the
  same result. This holds by construction.
- The code searches every descendant operation of the invocation (`Descendants()`), not only
  the argument expressions. The model follows the code.

## Model

| member | source | states |
|---|---|---|
| Classifier.DetectTargetMethod | SubscriptionAnalyzer.Analyzer/SubscriptionAnalyzer.cs:75-82 | The kind is Subscribe exactly for the name "Subscribe", Unsubscribe exactly for "Unsubscribe", and Unspecified for every other string. |
| Classifier.DetectTargetMethodIsExact | SubscriptionAnalyzer.Analyzer/SubscriptionAnalyzer.cs:77-80 | Matching is case-sensitive and exact: "subscribe", "UnSubscribe", "Subscribe " and "SubscribeAll" are not tracked. |
| Classifier.HasTargetAttribute | SubscriptionAnalyzer.Analyzer/SubscriptionAnalyzer.cs:84-86 | True exactly when some attribute's class name is "TrackingSubscriptionAttribute". |
| Classifier.FirstMethodReference | SubscriptionAnalyzer.Analyzer/SubscriptionAnalyzer.cs:48-50 | None exactly when no descendant is a method reference. Otherwise it is the method of the earliest method reference, and that position is unique. |
| Classifier.FirstMethodReferenceIsUnique | SubscriptionAnalyzer.Analyzer/SubscriptionAnalyzer.cs:48-50 | At most one position can be the first method reference. |
| Classifier.Classify | SubscriptionAnalyzer.Analyzer/SubscriptionAnalyzer.cs:37-64 | No record for an untracked name or a missing attribute. The kind of a record follows the name: Subscribe exactly for "Subscribe", Unsubscribe exactly for "Unsubscribe". |
| Classifier.ClassifyCharacterized | SubscriptionAnalyzer.Analyzer/SubscriptionAnalyzer.cs:37-64 | No record when there is no method reference. Given the first method reference, a record exists iff the name is tracked, the attribute is present and that method has a parameter. The record is (caller's type, first parameter type name, handler name, call span). |
| Classifier.OnlyFirstMethodReferenceMatters | SubscriptionAnalyzer.Analyzer/SubscriptionAnalyzer.cs:48-58 | Replacing everything after the first method reference never changes the outcome, so a later method reference is never tried. |
| Classifier.ParameterlessHandlerIsIgnored | SubscriptionAnalyzer.Analyzer/SubscriptionAnalyzer.cs:54-58 | When the first method reference names a parameterless method, no record is produced. |
| Collector.ValidateInvocation | SubscriptionAnalyzer.Analyzer/SubscriptionAnalyzer.cs:64-72 | Bags only grow. At most one record is added, to one bag only. The subscribe bag grows iff the call is a tracked Subscribe, and the unsubscribe bag iff it is a tracked Unsubscribe. The added record is the classified one. A call without the attribute changes nothing. |
| Collector.ValidateInvocationMembers | SubscriptionAnalyzer.Analyzer/SubscriptionAnalyzer.cs:64-72 | After the call, each bag holds its old records plus, if the role matches, the invocation's own record. |
| Collector.CollectAll | SubscriptionAnalyzer.Analyzer/SubscriptionAnalyzer.cs:31-33 | A compilation never has more records than invocations. |
| Collector.CollectAllMembers | SubscriptionAnalyzer.Analyzer/SubscriptionAnalyzer.cs:64-72 | A record is in the subscribe bag iff some invocation of the compilation classifies to it as a Subscribe. The same holds for the unsubscribe bag and Unsubscribe. |
| Collector.CollectAllCounts | SubscriptionAnalyzer.Analyzer/SubscriptionAnalyzer.cs:64-72 | Equal records are never merged: a record occurs in a bag as many times as there are invocations that classify to it with that bag's role. |
| Collector.CollectAllAppends | SubscriptionAnalyzer.Analyzer/SubscriptionAnalyzer.cs:65-71 | Collecting one more tracked call appends its record to the bag of its kind and leaves the other bag alone. |
| Collector.IgnoredInvocationChangesNothing | SubscriptionAnalyzer.Analyzer/SubscriptionAnalyzer.cs:41-58 | An invocation that classifies to nothing leaves both bags as they would be without it, wherever it occurs. |
| Validator.GroupByType | SubscriptionAnalyzer.Analyzer/SubscriptionAnalyzer.cs:89-94 | A type is a key iff it has records. Its group is exactly the records of that type, in their original order. |
| Validator.GroupByTypeKeys | SubscriptionAnalyzer.Analyzer/SubscriptionAnalyzer.cs:89-94 | The dictionary's keys are exactly the declaring types that occur. |
| Validator.InTypesMembers | SubscriptionAnalyzer.Analyzer/SubscriptionAnalyzer.cs:89-91 | A record is in a type's group iff it is in the collection and declared in that type. |
| Validator.AnyHandlerMatches | SubscriptionAnalyzer.Analyzer/SubscriptionAnalyzer.cs:114-123 | True iff some record of the group has the same handler name and handler type. |
| Validator.IsUnsubFound | SubscriptionAnalyzer.Analyzer/SubscriptionAnalyzer.cs:110-113 | A type without an unsubscribe group is never found. |
| Validator.IsUnsubFoundIffCovered | SubscriptionAnalyzer.Analyzer/SubscriptionAnalyzer.cs:110-124 | Looking up the per-type dictionary is true iff some record in the flat unsubscribe collection has the same type, handler name and handler type. Records of other types never match, and spans play no part. |
| Validator.CoverageIgnoresSpans | SubscriptionAnalyzer.Analyzer/SubscriptionAnalyzer.cs:115-118 | Changing the span of either record never changes whether one covers the other. |
| Validator.SameArgumentsCover | SubscriptionAnalyzer.Analyzer/SubscriptionData.cs:10-15 | Two records built from the same type, handler type and handler name cover each other, whatever their spans. |
| Validator.UnmatchedSpansOfOne | SubscriptionAnalyzer.Analyzer/SubscriptionAnalyzer.cs:97-105 | One subscribe record against one unsubscribe record: reported iff not covered. |
| Validator.ReportUnmatched | SubscriptionAnalyzer.Analyzer/SubscriptionAnalyzer.cs:97-106 | Over one type's subscribe records, the reported spans are exactly those of records with no covering unsubscribe. |
| Validator.FinishValidation | SubscriptionAnalyzer.Analyzer/SubscriptionAnalyzer.cs:88-108 | Whatever order the types are visited in, the result is one span per subscribe record with no covering unsubscribe, and none for covered records. |
| Validator.UnmatchedSubscribeIsReported | SubscriptionAnalyzer.Analyzer/SubscriptionAnalyzer.cs:97-105 | Every uncovered subscribe record's span is reported. |
| Validator.ReportedSpanIsUnmatched | SubscriptionAnalyzer.Analyzer/SubscriptionAnalyzer.cs:97-105 | Every reported span belongs to an uncovered subscribe record. |
| Validator.NoFindingsIffAllCovered | SubscriptionAnalyzer.Analyzer/SubscriptionAnalyzer.cs:95-107 | Nothing is reported iff every subscribe record is covered. |
| Validator.AtMostOneFindingPerSubscribe | SubscriptionAnalyzer.Analyzer/SubscriptionAnalyzer.cs:97-106 | There are never more findings than subscribe records. |
| Validator.MoreUnsubscribesNeverAddFindings | SubscriptionAnalyzer.Analyzer/SubscriptionAnalyzer.cs:114-122 | Adding unsubscribe records can only remove findings. |
| Validator.OneUnsubscribeCoversAll | SubscriptionAnalyzer.Analyzer/SubscriptionAnalyzer.cs:114-122 | Matching is an existence test: one unsubscribe record silences every subscribe record it covers. |
| Validator.FindingsAreOrderIndependent | SubscriptionAnalyzer.Analyzer/SubscriptionAnalyzer.cs:88-108 | Bags with the same contents, counted with multiplicity, give the same multiset of findings, whatever their enumeration order. |
| Analysis.Analyze | SubscriptionAnalyzer.Analyzer/SubscriptionAnalyzer.cs:30-34 | Filling empty bags with every analysed invocation and then validating once gives exactly the compilation's findings. |
| Analysis.CoveredInCompilationIffHasUnsubscribe | SubscriptionAnalyzer.Analyzer/SubscriptionAnalyzer.cs:110-124 | A subscribe record is covered by the collected unsubscribe bag iff some unsubscribe call of the compilation yields a covering record. |
| Analysis.FindingIffUncoveredSubscribe | SubscriptionAnalyzer.Analyzer/SubscriptionAnalyzer.cs:37-108 | A span is reported iff some tracked subscribe call at that span yields a record that no unsubscribe call of the compilation covers. |
| Analysis.FindingsCountUncoveredCalls | SubscriptionAnalyzer.Analyzer/SubscriptionAnalyzer.cs:37-108 | Findings are never deduplicated: a span is reported as many times as there are tracked subscribe calls at that span whose record no unsubscribe call of the compilation covers. |
| Analysis.UntrackedCallNeverChangesFindings | SubscriptionAnalyzer.Analyzer/SubscriptionAnalyzer.cs:44-46 | Inserting a call without the tracking attribute anywhere in a compilation leaves the findings unchanged. |
| Analysis.UntrackedCallsNeverWarn | SubscriptionAnalyzer.Tests/Tests.cs:151-171 | A compilation whose calls all lack the tracking attribute has no findings. |
| Analysis.OutOfScopeCallIsSilent | SubscriptionAnalyzer.Tests/Tests.cs:151-171 | A lone Subscribe call to an un-attributed method gives no warning. |
| Analysis.SubscribeCallClassifies | SubscriptionAnalyzer.Tests/Tests.cs:30-33 | A tracked `Subscribe(this, Handle)` call yields a Subscribe record for Handle's first-parameter type. |
| Analysis.UnsubscribeCallClassifies | SubscriptionAnalyzer.Tests/Tests.cs:70-72 | A tracked `Unsubscribe(Handle)` call yields an Unsubscribe record for Handle's first-parameter type. |
| Analysis.SubscribeThenUnsubscribe | SubscriptionAnalyzer.Analyzer/SubscriptionAnalyzer.cs:95-107 | A compilation with one subscribe and one unsubscribe call warns at the subscribe span iff the unsubscribe record does not cover it. |
| Analysis.NoUnsubscribeCallWarns | SubscriptionAnalyzer.Tests/Tests.cs:15-43 | A lone tracked subscribe call warns exactly once, at its span. |
| Analysis.NotEnoughUnsubscribeCallsWarnsOnce | SubscriptionAnalyzer.Tests/Tests.cs:49-81 | With subscribes of (Object, Handle) and (Int32, Handle) and one unsubscribe of (Object, Handle), exactly one warning is given, at the Int32 subscribe. |
| Analysis.NotMatchingHandlersWarns | SubscriptionAnalyzer.Tests/Tests.cs:85-116 | Subscribe Handle1 with unsubscribe Handle2 of the same parameter type warns once, at the subscribe. |
| Analysis.MatchedUnsubscribeIsSilent | SubscriptionAnalyzer.Tests/Tests.cs:120-147 | A subscribe with a matching unsubscribe gives no warning. |
| Analysis.OtherTypeUnsubscribeDoesNotCover | SubscriptionAnalyzer.Analyzer/SubscriptionAnalyzer.cs:110-113 | An unsubscribe in another declaring type, even with the same handler name and type, leaves the subscribe reported. |

## Left out

- Host wiring: `Initialize`, `RegisterCompilationStartAction`, `RegisterOperationAction` and `RegisterSemanticModelAction` are compiler callbacks. `Analyze` fills the two bags of one compilation with all of its analysed (non-generated) invocations, then validates once.
- Reporting: `DiagnosticDescriptor` (id SA1001, message, Warning severity), `Location.Create` and `ReportDiagnostic` are output plumbing. A finding is its span.
- Symbol and operation resolution: `Descendants()`, `GetAttributes()`, `Parameters`, `Type.Name` and `ContainingSymbol` are compiler services. They are replaced by the fields of `Invocation`. The preorder flattening of the operation tree is taken as given.
- Classifier.HasTargetAttribute: an attribute whose class is unresolved (a null `AttributeClass`) would make the C# code fail. The model only sees attribute class names and does not model that failure.
- Thread safety of `ConcurrentBag`: its only purpose is concurrent insertion. The bags are filled one invocation at a time. Enumeration order is covered by `FindingsAreOrderIndependent`.
- Generated code: `Initialize` calls `ConfigureGeneratedCodeAnalysis(GeneratedCodeAnalysisFlags.None)` (SubscriptionAnalyzer.cs:26). So the host never runs `ValidateInvocation` on invocations in generated code. The model's invocation sequence holds only the invocations the host analyses. An unsubscribe that sits only in a generated part of a partial class therefore covers nothing, and the hand-written subscribe is still reported.
- Per-syntax-tree validation: the bags belong to the whole compilation (SubscriptionAnalyzer.cs:31-32), but `FinishValidation` is registered as a semantic-model action (line 34). So it runs once per syntax tree, and it reports each finding in that tree (lines 101-103). Nothing in the code makes every invocation callback finish before such a run, so one run may see incomplete bags. In a compilation of several files, each unmatched subscribe is then reported once per tree. The model is a single validation over a compilation's complete bags. It does not model the repetition per tree, the placement of reports in the current tree, or runs over partly filled bags.
- SubscriptionAnalyzer.Samples/Samples.cs is sample input with no logic. The unit tests appear only as the scenario lemmas of `Analysis`. Those lemmas are stated for all names that meet each scenario's distinctness condition, and the tests' "Sample", "Handle", "Object" and "Int32" are one instance.

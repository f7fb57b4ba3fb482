/**
  The record one tracked call-site leaves behind (the SubscriptionData struct).

  A Dafny datatype value is immutable, as the readonly struct with readonly fields is:
  a record never changes after construction, and the constructor stores its four
  arguments unchanged in the four fields.
 */
module Records {

  /** A source location, kept as the start offset and length of a text span.
      It only locates a finding and never takes part in matching. */
  datatype Span = Span(start: nat, length: nat)

  datatype SubscriptionData = SubscriptionData(
    typeName: string,     // name of the type that contains the call-site
    handlerType: string,  // simple name of the type of the handler's first parameter
    handlerName: string,  // name of the handler method
    targetSpan: Span)     // span of the call, for reporting only
}

/** The errors of the network layer and the hand-written equality the source gives them. */
module NetworkErrors {
  import opened Wrappers
  import opened Http

  /**
   * An error raised by code outside the model (a transport failure of the session, say).
   * Its content is opaque; `description` only tells one such error from another.
   */
  datatype ForeignError = ForeignError(description: string)

  datatype NetworkError =
    | MissingUrl
    | NoData
    | ResponseIssue(issue: NetworkResponse)
    | UnknownError(cause: Option<ForeignError>)

  /** Anything a throwing call can raise: one of the layer's own errors, or a foreign one. */
  datatype Thrown = Raised(error: NetworkError) | Foreign(cause: ForeignError)

  /** `NetworkError.==`: the payload of `unknownError` is not compared. */
  predicate Equal(lhs: NetworkError, rhs: NetworkError) {
    match (lhs, rhs)
    case (NoData, NoData) => true
    case (MissingUrl, MissingUrl) => true
    case (ResponseIssue(a), ResponseIssue(b)) => a == b
    case (UnknownError(_), UnknownError(_)) => true
    case _ => false
  }

  /** The error with its `unknownError` payload forgotten. */
  function Erased(e: NetworkError): (r: NetworkError)
    ensures r.UnknownError? <==> e.UnknownError?
    ensures !e.UnknownError? ==> r == e
  {
    if e.UnknownError? then UnknownError(None) else e
  }

  /** The equality is exactly structural equality once payloads of `unknownError` are forgotten. */
  lemma EqualIsErasedEquality(a: NetworkError, b: NetworkError)
    ensures Equal(a, b) <==> Erased(a) == Erased(b)
  {
  }

  /** The four cases of the table: same simple case, same classified status, any two unknown errors, nothing across cases. */
  lemma EqualCases(a: NetworkError, b: NetworkError, s: NetworkResponse, t: NetworkResponse, x: Option<ForeignError>, y: Option<ForeignError>)
    ensures Equal(MissingUrl, MissingUrl) && Equal(NoData, NoData)
    ensures Equal(ResponseIssue(s), ResponseIssue(t)) <==> s == t
    ensures Equal(UnknownError(x), UnknownError(y))
    ensures a.MissingUrl? != b.MissingUrl? || a.NoData? != b.NoData? || a.ResponseIssue? != b.ResponseIssue? ==> !Equal(a, b)
  {
  }

  /** `Equatable` demands an equivalence relation, and this one is. */
  lemma EqualIsEquivalence(a: NetworkError, b: NetworkError, c: NetworkError)
    ensures Equal(a, a)
    ensures Equal(a, b) ==> Equal(b, a)
    ensures Equal(a, b) && Equal(b, c) ==> Equal(a, c)
  {
    EqualIsErasedEquality(a, b);
    EqualIsErasedEquality(b, c);
    EqualIsErasedEquality(a, c);
    EqualIsErasedEquality(b, a);
    EqualIsErasedEquality(a, a);
  }
}

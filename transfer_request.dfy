/**
 * The transfer request record and the field constraints that bean
 * validation enforces on it before the transfer engine runs: both account
 * identifiers `@NotBlank`, the amount `@NotNull` and `@Min(0)`.
 * Java fields may be null, so each field is an `Option`; amounts are exact
 * integers in the smallest currency unit.
 */
module TransferRequests {
  import opened Wrappers
  import JavaStrings

  datatype TransferRequest = TransferRequest(
    senderAccountId: Option<string>,
    recipientAccountId: Option<string>,
    amount: Option<int>)
  {
    /** No field is null. */
    predicate IsComplete()
    {
      senderAccountId.Some? && recipientAccountId.Some? && amount.Some?
    }

    /** The request passes bean validation. */
    predicate IsValid()
    {
      NotBlank(senderAccountId) && NotBlank(recipientAccountId) && NotNull(amount) && Min(amount, 0)
    }
  }

  /** `@NotBlank`: not null, and something is left after `trim()`. */
  predicate NotBlank(s: Option<string>)
  {
    s.Some? && JavaStrings.Trim(s.value) != []
  }

  /** `@NotNull`. */
  predicate NotNull<T>(v: Option<T>)
  {
    v.Some?
  }

  /** `@Min(min)`: a null value passes; otherwise the value is at least `min`. */
  predicate Min(v: Option<int>, min: int)
  {
    v.None? || v.value >= min
  }

  /** An identifier is non-blank exactly when it is present and holds a character above U+0020. */
  lemma NotBlankIff(s: Option<string>)
    ensures NotBlank(s) <==> s.Some? && exists i :: 0 <= i < |s.value| && !JavaStrings.TrimRemoves(s.value[i])
  {
    if s.Some? {
      JavaStrings.TrimEmptyIff(s.value);
    }
  }

  /**
   * Validity, field by field: both identifiers contain a character above
   * U+0020, and the amount is present and non-negative (zero included).
   */
  lemma {:induction false} ValidIff(req: TransferRequest)
    ensures req.IsValid() <==>
      && req.senderAccountId.Some?
      && (exists i :: 0 <= i < |req.senderAccountId.value| && !JavaStrings.TrimRemoves(req.senderAccountId.value[i]))
      && req.recipientAccountId.Some?
      && (exists i :: 0 <= i < |req.recipientAccountId.value| && !JavaStrings.TrimRemoves(req.recipientAccountId.value[i]))
      && req.amount.Some?
      && req.amount.value >= 0
  {
    NotBlankIff(req.senderAccountId);
    NotBlankIff(req.recipientAccountId);
  }

  /** A valid request has no null field, so the engine can read all three. */
  lemma ValidIsComplete(req: TransferRequest)
    ensures req.IsValid() ==> req.IsComplete()
  {
  }

  /** A zero amount is accepted, although the constraint's message says "must be positive". */
  lemma ZeroAmountAccepted()
    ensures TransferRequest(Some("1111"), Some("3333"), Some(0)).IsValid()
  {
    assert JavaStrings.Trim("1111") != [] by { JavaStrings.TrimEmptyIff("1111"); }
    assert JavaStrings.Trim("3333") != [] by { JavaStrings.TrimEmptyIff("3333"); }
  }

  /** A negative amount, an all-space identifier or a null identifier is rejected. */
  lemma InvalidExamples()
    ensures !TransferRequest(Some("1111"), Some("3333"), Some(-1)).IsValid()
    ensures !TransferRequest(Some(" \t"), Some("3333"), Some(1)).IsValid()
    ensures !TransferRequest(Some("1111"), None, Some(1)).IsValid()
  {
    JavaStrings.TrimEmptyIff(" \t");
  }
}

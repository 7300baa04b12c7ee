/** The immutable outcome of one audit, checked once when it is created. */
module Reports {
  import opened Wrappers
  import opened Domain

  /** Minimum number of days between an audit and the report's expiration. */
  const MinimumValidityDays: nat := 180

  datatype EvaluationReport = EvaluationReport(
    rating: Rating,
    auditDate: Instant,
    expirationDate: Instant,
    standardId: StandardId)

  /**
   * The creation-time checks, in the order the source runs them: an audit
   * date after `now` first, then an expiration earlier than 180 days after
   * the audit.
   */
  function Validate(auditDate: Instant, expirationDate: Instant, now: Instant): (r: Outcome<DomainError>)
    ensures r.Pass? <==> auditDate <= now && auditDate + 180 <= expirationDate
    ensures auditDate > now ==> r == Fail(AuditDateCannotBeInFuture)
    ensures auditDate <= now && r.Fail? ==> r == Fail(ExpirationDateTooEarly)
  {
    if auditDate > now then Fail(AuditDateCannotBeInFuture)
    else if expirationDate < auditDate + MinimumValidityDays then Fail(ExpirationDateTooEarly)
    else Pass
  }

  function Create(rating: Rating, auditDate: Instant, expirationDate: Instant, standardId: StandardId, now: Instant)
    : (r: Result<EvaluationReport, DomainError>)
    // an audit date in the future is rejected, and wins over a short validity
    ensures auditDate > now ==> r == Failure(AuditDateCannotBeInFuture)
    ensures auditDate <= now && expirationDate < auditDate + 180 ==> r == Failure(ExpirationDateTooEarly)
    // today, any past day, and exactly 180 days of validity are all accepted
    ensures r.Success? <==> auditDate <= now && auditDate + 180 <= expirationDate
    ensures r.Success? ==> r.value == EvaluationReport(rating, auditDate, expirationDate, standardId)
  {
    match Validate(auditDate, expirationDate, now)
    case Fail(e) => Failure(e)
    case Pass => Success(EvaluationReport(rating, auditDate, expirationDate, standardId))
  }

  /** Neither the rating nor the standard takes part in validation. */
  lemma CreateIgnoresRatingAndStandard(
    r1: Rating, r2: Rating, s1: StandardId, s2: StandardId,
    auditDate: Instant, expirationDate: Instant, now: Instant)
    ensures Create(r1, auditDate, expirationDate, s1, now).ToOutcome()
         == Create(r2, auditDate, expirationDate, s2, now).ToOutcome()
  {
  }

  /** A report that exists lies strictly before its expiration. */
  lemma CreatedReportOutlivesAuditDate(
    rating: Rating, auditDate: Instant, expirationDate: Instant, standardId: StandardId, now: Instant)
    requires Create(rating, auditDate, expirationDate, standardId, now).Success?
    ensures Create(rating, auditDate, expirationDate, standardId, now).value.auditDate
          < Create(rating, auditDate, expirationDate, standardId, now).value.expirationDate
  {
  }
}

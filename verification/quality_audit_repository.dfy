/**
 * The in-memory store of quality audits, one per (client, standard) pair.
 * It holds references: a caller that mutates a found audit mutates the
 * stored one.
 */
module QualityAuditRepository {
  import opened Wrappers
  import opened Domain
  import opened Audits

  /** The (client, standard) pair an audit is stored under. */
  datatype AuditKey = AuditKey(clientId: ClientId, standardId: StandardId)

  function KeyOf(audit: QualityAudit): (key: AuditKey)
    ensures key.clientId == audit.clientId && key.standardId == audit.standardId
  {
    AuditKey(audit.clientId, audit.standardId)
  }

  class InMemoryQualityAuditRepository {
    var audits: map<AuditKey, QualityAudit>
    /** Every audit passed to `save`, in call order. */
    ghost var saveLog: seq<QualityAudit>

    constructor ()
      ensures audits == map[] && saveLog == []
    {
      audits := map[];
      saveLog := [];
    }

    /** Each audit is stored under its own pair. */
    ghost predicate Keyed()
      reads this
    {
      forall key :: key in audits ==> KeyOf(audits[key]) == key
    }

    /** The objects a caller may change through the audit stored under `key`. */
    ghost function StoredAt(key: AuditKey): set<object>
      reads this, if key in audits then {audits[key]} else {}
    {
      if key in audits then {audits[key] as object} + set e | e in audits[key].evaluations :: e as object
      else {}
    }

    ghost predicate ValidAt(key: AuditKey)
      reads this, StoredAt(key)
    {
      assert key in audits ==> forall e :: e in audits[key].evaluations ==> e in StoredAt(key);
      Keyed() && (key in audits ==> audits[key].Valid())
    }

    /** The value of the audit stored under `key`, if any. */
    ghost function ModelAt(key: AuditKey): Option<AuditState>
      reads this, StoredAt(key)
    {
      assert key in audits ==> forall e :: e in audits[key].evaluations ==> e in StoredAt(key);
      if key in audits then Some(audits[key].Model()) else None
    }

    /** Neither the store nor its save log changed. */
    twostate predicate Untouched()
      reads this
    {
      audits == old(audits) && saveLog == old(saveLog)
    }

    /** Exactly one `save(audit)` happened. */
    twostate predicate SavedOnce(new audit: QualityAudit)
      reads this
    {
      audits == old(audits)[KeyOf(audit) := audit] && saveLog == old(saveLog) + [audit]
    }

    method Save(audit: QualityAudit)
      modifies this
      ensures SavedOnce(audit)
      ensures FindFor(audit.clientId, audit.standardId) == Some(audit)
      ensures forall c, s :: AuditKey(c, s) != KeyOf(audit) ==> FindFor(c, s) == old(FindFor(c, s))
      ensures old(Keyed()) ==> Keyed()
      ensures ModelAt(KeyOf(audit)) == Some(audit.Model())
      ensures old(Keyed()) && audit.Valid() ==> ValidAt(KeyOf(audit))
    {
      audits := audits[KeyOf(audit) := audit];
      saveLog := saveLog + [audit];
    }

    function FindFor(clientId: ClientId, standardId: StandardId): (found: Option<QualityAudit>)
      reads this
      ensures found.None? <==> AuditKey(clientId, standardId) !in audits
      ensures found.Some? ==> found.value == audits[AuditKey(clientId, standardId)]
      ensures found.Some? && Keyed() ==>
        found.value.clientId == clientId && found.value.standardId == standardId
    {
      var key := AuditKey(clientId, standardId);
      if key in audits then Some(audits[key]) else None
    }
  }

  /** Nothing is found in a store nothing was saved to. */
  lemma EmptyStoreFindsNothing(repo: InMemoryQualityAuditRepository, c: ClientId, s: StandardId)
    requires repo.audits == map[]
    ensures repo.FindFor(c, s) == None
  {
  }
}

/** The administrator's account service: blocking and unblocking an
    account with a stated reason, and reading the audit trail. */
module AccountAdmin {
  import opened Errs
  import opened Domain
  import opened Repository

  const ReasonRequiredText: string := "reason is required for account blocking/unblocking"

  /** The audit action named by the flag's new value. */
  function ActionFor(block: bool): (action: string)
    ensures action == "block" <==> block
    ensures action == "unblock" <==> !block
  {
    if block then "block" else "unblock"
  }

  /** BlockUnblockAccount: refuse an empty reason before touching the
      store; otherwise the repository's outcome, with an audit row that
      carries the account, the administrator and the reason unchanged.
      `auditInsert` is the database's answer to the audit INSERT. */
  method BlockUnblockAccount(store: Store, accountId: int, block: bool, adminId: int, reason: string,
                             auditInsert: Option<Error>, now: Instant) returns (err: Option<Error>)
    modifies store
    ensures reason == "" ==> err == Some(Plain(ReasonRequiredText)) && unchanged(store)
    ensures reason != "" ==>
      store.SetBlockDone(accountId, block, AuditEntry(accountId, adminId, ActionFor(block), reason), auditInsert, now, err)
  {
    if reason == "" {
      return Some(Plain(ReasonRequiredText));
    }
    var entry := AuditEntry(accountId, adminId, ActionFor(block), reason);
    err := store.SetAccountBlock(accountId, block, entry, auditInsert, now);
  }

  /** AuditLogs: the audit rows as the repository reads them, newest
      first when the rows were written in time order. */
  method AuditLogs(store: Store) returns (rows: seq<AuditRecord>)
    ensures rows == Reverse(store.audit)
    ensures AuditChronological(store.audit) ==>
      forall m, n | 0 <= m < n < |rows| :: NotAfter(rows[n].createdAt, rows[m].createdAt)
  {
    rows := store.GetAuditLogs();
    if AuditChronological(store.audit) {
      forall m, n | 0 <= m < n < |rows|
        ensures NotAfter(rows[n].createdAt, rows[m].createdAt)
      {
        AuditNewestFirst(store.audit, m, n);
      }
    }
  }

  /** A successful block or unblock appends exactly the row that names the
      account, the administrator, the action and the reason. */
  lemma AuditRowOfBlock(audit: seq<AuditRecord>, accountId: int, block: bool, adminId: int, reason: string, now: Instant)
    ensures var entry := AuditEntry(accountId, adminId, ActionFor(block), reason);
      var row := (audit + [AuditRecord(entry.accountId, entry.adminId, entry.action, entry.reason, now)])[|audit|];
      row.accountId == accountId && row.adminId == adminId && row.reason == reason
      && (row.action == "block" <==> block)
  {
  }
}

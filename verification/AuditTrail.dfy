/** The audit trail: one row per authentication event in the caller's unit of work, then the
    same event to the mirror. */
module AuditTrail {
  import opened Sorting
  import opened Wrappers
  import opened IdentityProvider
  import opened RoleStore
  import opened Uuids

  /** Detail keys that must never reach the trail. */
  const FORBIDDEN: set<string> := {
    "password", "plaintext", "new_password", "old_password", "totp_secret", "secret", "password_hash", "code", "totp_code"
  }

  function LowerChar(c: char): char {
    if 'A' <= c <= 'Z' then (c as int + 32) as char else c
  }

  function LowerKey(s: string): string {
    seq(|s|, i requires 0 <= i < |s| => LowerChar(s[i]))
  }

  predicate CarriesCredential(details: Details) {
    exists k :: k in details && LowerKey(k) in FORBIDDEN
  }

  /** The row of an event, its user as the uuid column reads it. */
  function RowOf(e: AuditEvent): AuditRow {
    AuditRow(e.eventId, e.kind, e.occurredAt, match ReadOptional(e.userId) case None => None case Some(u) => u, e.details)
  }

  /** The row is refused by an aborted transaction, by an unreadable id, by the foreign key of
      its user, or by a fault of the statement; the mirror gets what was inserted. */
  predicate Refused(tx: Tx, e: AuditEvent, fault: bool) {
    tx.aborted || fault || ReadOptional(e.userId).None? || (RowOf(e).userId.Some? && RowOf(e).userId.value !in tx.tables.users)
  }

  function Recorded(tx: Tx, mirrored: seq<AuditEvent>, e: AuditEvent, fault: bool): (Tx, seq<AuditEvent>, Result<AuditEvent>) {
    if CarriesCredential(e.details) then (tx, mirrored, Raise(CredentialInDetails))
    else if Refused(tx, e, fault) then (tx.(aborted := true), mirrored, Raise(DatabaseError))
    else
      (tx.(tables := tx.tables.(audit := tx.tables.audit + [RowOf(e)])), mirrored + [e], Ok(e))
  }

  class Trail {
    var mirrored: seq<AuditEvent>

    constructor ()
      ensures mirrored == []
    {
      mirrored := [];
    }

    method Record(connection: Connection, e: AuditEvent, fault: bool) returns (r: Result<AuditEvent>)
      modifies this, connection
      ensures (connection.State(), mirrored, r) == Recorded(old(connection.State()), old(mirrored), e, fault)
      ensures connection.committed == old(connection.committed)
    {
      if CarriesCredential(e.details) { return Raise(CredentialInDetails); }
      if Refused(connection.State(), e, fault) {
        connection.aborted := true;
        return Raise(DatabaseError);
      }
      connection.audit := connection.audit + [RowOf(e)];
      mirrored := mirrored + [e];
      return Ok(e);
    }
  }

  // ---- Rows and mirror ---------------------------------------------------------------------

  /** a is b with some elements left out. */
  predicate Subsequence(a: seq<AuditRow>, b: seq<AuditRow>) {
    if |a| == 0 then true
    else if |b| == 0 then false
    else
      (a[|a| - 1] == b[|b| - 1] && Subsequence(a[..|a| - 1], b[..|b| - 1])) || Subsequence(a, b[..|b| - 1])
  }

  lemma SubsequenceBoth(a: seq<AuditRow>, b: seq<AuditRow>, e: AuditRow)
    requires Subsequence(a, b)
    ensures Subsequence(a + [e], b + [e]) && Subsequence(a, b + [e])
  {
    assert (a + [e])[..|a|] == a && (b + [e])[..|b|] == b;
  }

  lemma {:induction false} SubsequencePrefix(a: seq<AuditRow>, k: nat, b: seq<AuditRow>)
    requires k <= |a| && Subsequence(a, b)
    ensures Subsequence(a[..k], b)
    decreases |a| + |b|
  {
    if k == |a| {
      assert a[..k] == a;
    } else if a[|a| - 1] == b[|b| - 1] && Subsequence(a[..|a| - 1], b[..|b| - 1]) {
      SubsequencePrefix(a[..|a| - 1], k, b[..|b| - 1]);
      assert a[..|a| - 1][..k] == a[..k];
      assert Subsequence(a[..k], b[..|b| - 1]);
    } else {
      SubsequencePrefix(a, k, b[..|b| - 1]);
    }
  }

  /** Nothing is left out exactly when the lengths agree; and only what is in b is in a. */
  lemma {:induction false} SubsequenceFacts(a: seq<AuditRow>, b: seq<AuditRow>)
    requires Subsequence(a, b)
    ensures |a| <= |b|
    ensures |a| == |b| <==> a == b
    ensures forall x :: x in a ==> x in b
    decreases |a| + |b|
  {
    if |a| > 0 {
      var a', b' := a[..|a| - 1], b[..|b| - 1];
      assert a == a' + [a[|a| - 1]] && b == b' + [b[|b| - 1]];
      if a[|a| - 1] == b[|b| - 1] && Subsequence(a', b') {
        SubsequenceFacts(a', b');
      } else {
        SubsequenceFacts(a, b');
      }
    }
  }

  predicate AboutRole(e: AuditRow, userId: Uuid, role: Text) {
    e.userId == Some(userId) && "role" in e.details && e.details["role"] == TextDetail(role)
  }

  function Weight(e: AuditRow, userId: Uuid, role: Text): int {
    if !AboutRole(e, userId, role) then 0
    else if e.kind == RoleGrant then 1
    else if e.kind == RoleRevoke then -1
    else 0
  }

  /** Grants minus revocations of a role to a user, by the audit rows. */
  function Balance(audit: seq<AuditRow>, userId: Uuid, role: Text): int {
    if |audit| == 0 then 0
    else Balance(audit[..|audit| - 1], userId, role) + Weight(audit[|audit| - 1], userId, role)
  }

  lemma BalanceAppend(audit: seq<AuditRow>, e: AuditRow, userId: Uuid, role: Text)
    ensures Balance(audit + [e], userId, role) == Balance(audit, userId, role) + Weight(e, userId, role)
  {
    assert (audit + [e])[..|audit|] == audit;
  }

  /** The audit rows account for the live grants of every user and role. */
  ghost predicate Conserves(t: Tables) {
    forall u, r :: Balance(t.audit, u, r) == LiveCount(t.roles, u, r)
  }
}

/** What holds after every run of the authentication service, across commits, rollbacks and
    failed statements. */
module AuthRuns {
  import opened Sorting
  import opened Wrappers
  import opened Rbac
  import opened Uuids
  import opened IdentityProvider
  import opened RoleStore
  import opened AuditTrail
  import opened AuthService
  import opened AuthSafety

  const NO_TABLES := Tables(map[], [], [])

  function Fresh(clock: int): World {
    World(Scene(EMPTY_PROVIDER, Tx(NO_TABLES, false), []), NO_TABLES, clock)
  }

  function Run(y: System, w: World, steps: seq<Step>): World
    decreases |steps|
  {
    if |steps| == 0 then w else Run(y, Next(y, w, steps[0]), steps[1..])
  }

  /** No random UUID of the run repeats one that is taken. */
  predicate AllAdmissible(y: System, w: World, steps: seq<Step>)
    decreases |steps|
  {
    |steps| == 0 || (Admissible(w, steps[0]) && AllAdmissible(y, Next(y, w, steps[0]), steps[1..]))
  }

  lemma FreshInv(y: System, clock: int)
    ensures Inv(y, Fresh(clock))
  {
    assert RowsOk(y.catalogues, NO_TABLES.users, NO_TABLES.roles);
    assert Conserves(NO_TABLES);
    assert Map(RowOf, Fresh(clock).scene.mirrored) == [];
    assert Subsequence(NO_TABLES.audit, Map(RowOf, Fresh(clock).scene.mirrored));
  }

  lemma {:induction false} RunKeepsInv(y: System, w: World, steps: seq<Step>)
    requires Inv(y, w) && AllAdmissible(y, w, steps)
    ensures Inv(y, Run(y, w, steps))
    ensures Evolves(w.scene.provider, Run(y, w, steps).scene.provider, w.clock)
    decreases |steps|
  {
    if |steps| == 0 {
      UnchangedEvolves(w.scene.provider, w.clock);
    } else {
      var v := Next(y, w, steps[0]);
      StepKeepsInv(y, w, steps[0]);
      RunKeepsInv(y, v, steps[1..]);
      EvolvesTransitive(w.scene.provider, v.scene.provider, Run(y, w, steps).scene.provider, w.clock, v.clock);
    }
  }

  // ---- Sessions ---------------------------------------------------------------------------

  /** The provider compares ids as texts, the tables compare uuids. */
  predicate SameUser(a: Id, b: Id) {
    ReadUuid(a).Some? && ReadUuid(a) == ReadUuid(b)
  }

  /** The event names its user by the provider's own text: always so for the operations that
      look the account up, and so for a role revocation if the caller passes it. */
  predicate NamesOwnText(e: AuditEvent) {
    e.kind == RoleRevoke ==> e.userId.Some? && IsOwn(e.userId.value)
  }

  lemma SameUserSameText(p: Provider, e: AuditEvent, s: Id)
    requires OwnIds(p.accounts.Keys) && SessionsOk(p.accounts, p.sessions) && s in p.sessions
    requires EventTrue(p, e) && EndsSessions(e.kind) && NamesOwnText(e) && SameUser(e.userId.value, p.sessions[s].userId)
    ensures e.userId.value == p.sessions[s].userId
  {
    assert SessionOk(p.accounts, s, p.sessions[s]);
    assert IsOwn(p.sessions[s].userId);
    if e.kind != RoleRevoke { assert IsOwn(e.userId.value); }
    OwnTextsAgree(e.userId.value, p.sessions[s].userId);
  }

  /** Session safety for every run and every event that was ever mirrored: a password change,
      account disable or role revocation of a user, the last by the provider's own text of the
      id, means that no session issued to the user before it answers, at any later instant. */
  lemma EventSafety(y: System, clock: int, steps: seq<Step>, w: World, e: AuditEvent, s: Id, now: int)
    requires AllAdmissible(y, Fresh(clock), steps) && w == Run(y, Fresh(clock), steps)
    requires e in w.scene.mirrored && EndsSessions(e.kind) && NamesOwnText(e)
    requires s in w.scene.provider.sessions && e.userId.Some? && SameUser(e.userId.value, w.scene.provider.sessions[s].userId)
    requires w.scene.provider.sessions[s].issuedAt < e.occurredAt
    ensures SessionFound(w.scene.provider, s, now) == Raise(SessionRevoked)
  {
    FreshInv(y, clock);
    RunKeepsInv(y, Fresh(clock), steps);
    var i :| 0 <= i < |w.scene.mirrored| && w.scene.mirrored[i] == e;
    assert EventTrue(w.scene.provider, w.scene.mirrored[i]);
    SameUserSameText(w.scene.provider, e, s);
  }

  /** Cross-store session safety, for every run and every committed row: unconditional for
      password changes and disables, and for a role revocation provided that the events it was
      committed from name the provider's own text. */
  lemma SessionSafety(y: System, clock: int, steps: seq<Step>, w: World, row: AuditRow, s: Id, now: int)
    requires AllAdmissible(y, Fresh(clock), steps) && w == Run(y, Fresh(clock), steps)
    requires row in w.committed.audit && EndsSessions(row.kind)
    requires forall e :: e in w.scene.mirrored && RowOf(e) == row ==> NamesOwnText(e)
    requires s in w.scene.provider.sessions && row.userId.Some? && row.userId == ReadUuid(w.scene.provider.sessions[s].userId)
    requires w.scene.provider.sessions[s].issuedAt < row.occurredAt
    ensures SessionFound(w.scene.provider, s, now) == Raise(SessionRevoked)
  {
    FreshInv(y, clock);
    RunKeepsInv(y, Fresh(clock), steps);
    CommittedIsMirrored(w);
    var i :| 0 <= i < |w.scene.mirrored| && Map(RowOf, w.scene.mirrored)[i] == row;
    var e := w.scene.mirrored[i];
    assert EventTrue(w.scene.provider, e);
    EventSafety(y, clock, steps, w, e, s, now);
  }

  lemma CommittedIsMirrored(w: World)
    requires MirrorOk(w)
    ensures Subsequence(w.committed.audit, Map(RowOf, w.scene.mirrored))
    ensures forall row :: row in w.committed.audit ==> row in Map(RowOf, w.scene.mirrored)
  {
    RollbackKeepsMirror(w);
    SubsequenceFacts(w.committed.audit, Map(RowOf, w.scene.mirrored));
  }

  /** A role revocation that reaches its one live grant. */
  predicate RevokeHits(w: World, step: Step) {
    step.action.Revoke? && !w.scene.tx.aborted && !step.fault && ReadUuid(step.action.userId).Some?
    && RowCount(w.scene.tx.tables.roles, ReadUuid(step.action.userId).value, step.action.role, step.action.grantedAt) == 1
  }

  lemma NextOfRevoke(y: System, w: World, step: Step)
    requires step.action.Revoke?
    ensures var a := step.action;
            var stamp := Stamp(step.eventId, Finish(step, w), step.auditFault);
            Next(y, w, step)
            == World(RevokedRole(w.scene, a.userId, a.role, a.grantedAt, a.revokedBy, Start(step, w), step.fault, stamp).0, w.committed, Finish(step, w))
  {}

  lemma RevokedRoleEndsAll(s: Scene, userId: Id, role: Text, grantedAt: int, revokedBy: Option<Id>, moment: int, stamp: Stamp)
    requires Revoked(s.tx, userId, role, grantedAt, moment, false).1 == Ok(true)
    ensures RevokedRole(s, userId, role, grantedAt, revokedBy, moment, false, stamp).0.provider == AllSessionsEnded(s.provider, userId)
  {}

  lemma HitRevokes(tx: Tx, userId: Id, role: Text, grantedAt: int, moment: int)
    requires !tx.aborted && ReadUuid(userId).Some? && RowCount(tx.tables.roles, ReadUuid(userId).value, role, grantedAt) == 1
    ensures Revoked(tx, userId, role, grantedAt, moment, false).1 == Ok(true)
  {}

  lemma RevokeEndsAll(y: System, w: World, step: Step)
    requires RevokeHits(w, step)
    ensures Next(y, w, step).scene.provider == AllSessionsEnded(w.scene.provider, step.action.userId)
  {
    var a := step.action;
    NextOfRevoke(y, w, step);
    HitRevokes(w.scene.tx, a.userId, a.role, a.grantedAt, Start(step, w));
    RevokedRoleEndsAll(w.scene, a.userId, a.role, a.grantedAt, a.revokedBy, Start(step, w), Stamp(step.eventId, Finish(step, w), step.auditFault));
  }

  /** The exact condition: a role revocation ends a live session of its user if and only if the
      caller spelled the user's id as the provider does. */
  lemma RevokeEndsSessionIff(y: System, w: World, step: Step, s: Id)
    requires RevokeHits(w, step) && s in w.scene.provider.sessions && !w.scene.provider.sessions[s].revoked
    ensures var p := Next(y, w, step).scene.provider;
            s in p.sessions && (p.sessions[s].revoked <==> step.action.userId == w.scene.provider.sessions[s].userId)
  {
    RevokeEndsAll(y, w, step);
  }

  /** The failing family: in any reachable state with a live session and a live grant, revoking
      the grant by another spelling of the user's id and committing leaves a committed
      role_revoke row for the user, and the session still answers. */
  lemma RevokeByOtherSpelling(y: System, w: World, step: Step, commit: Step, s: Id, now: int)
    requires Inv(y, w) && RevokeHits(w, step) && !step.auditFault && commit.action.Commit?
    requires s in w.scene.provider.sessions && SessionFound(w.scene.provider, s, now).Ok?
    requires SameUser(step.action.userId, w.scene.provider.sessions[s].userId) && step.action.userId != w.scene.provider.sessions[s].userId
    ensures var v := Next(y, Next(y, w, step), commit);
            && (exists row :: row in v.committed.audit && row.kind == RoleRevoke
                              && row.userId == ReadUuid(w.scene.provider.sessions[s].userId) && row.occurredAt == Finish(step, w))
            && SessionFound(v.scene.provider, s, now).Ok?
  {
    var a := step.action;
    var u := ReadUuid(a.userId).value;
    var p := w.scene.provider;
    RevokeRecords(y, w, step);
    RevokeEndsSessionIff(y, w, step, s);
    var v := Next(y, Next(y, w, step), commit);
    var e := AuditEvent(step.eventId, RoleRevoke, Finish(step, w), Some(a.userId), RevokeDetails(a.role, a.revokedBy));
    assert v.committed.audit == w.scene.tx.tables.audit + [RowOf(e)];
    assert RowOf(e) in v.committed.audit;
    assert v.scene.provider.sessions[s] == p.sessions[s];
  }

  lemma RevokedRoleRecords(s: Scene, userId: Id, role: Text, grantedAt: int, revokedBy: Option<Id>, moment: int, stamp: Stamp)
    requires Revoked(s.tx, userId, role, grantedAt, moment, false).1 == Ok(true) && !stamp.fault
    requires ReadUuid(userId).Some? && ReadUuid(userId).value in s.tx.tables.users && !CarriesCredential(RevokeDetails(role, revokedBy))
    ensures var t := RevokedRole(s, userId, role, grantedAt, revokedBy, moment, false, stamp).0;
            var e := AuditEvent(stamp.eventId, RoleRevoke, stamp.at, Some(userId), RevokeDetails(role, revokedBy));
            !t.tx.aborted && t.tx.tables.audit == s.tx.tables.audit + [RowOf(e)]
  {}

  lemma HitUserExists(y: System, tx: Tx, u: Uuid, role: Text, grantedAt: int)
    requires TxOk(y, tx) && RowCount(tx.tables.roles, u, role, grantedAt) == 1
    ensures u in tx.tables.users
  {
    AtMostOneHit(y.catalogues, tx.tables.users, tx.tables.roles, u, role, grantedAt);
    var i :| 0 <= i < |tx.tables.roles| && IsHit(tx.tables.roles[i], u, role, grantedAt);
    assert RowOk(y.catalogues, tx.tables.users, tx.tables.roles[i]);
  }

  lemma RevokeRecords(y: System, w: World, step: Step)
    requires Inv(y, w) && RevokeHits(w, step) && !step.auditFault
    ensures var e := AuditEvent(step.eventId, RoleRevoke, Finish(step, w), Some(step.action.userId), RevokeDetails(step.action.role, step.action.revokedBy));
            var v := Next(y, w, step);
            && !v.scene.tx.aborted && v.scene.tx.tables.audit == w.scene.tx.tables.audit + [RowOf(e)]
            && v.scene.provider == AllSessionsEnded(w.scene.provider, step.action.userId)
  {
    var a, tx := step.action, w.scene.tx;
    RoleDetailsAreClean(a.role, a.revokedBy, None);
    HitUserExists(y, tx, ReadUuid(a.userId).value, a.role, a.grantedAt);
    HitRevokes(tx, a.userId, a.role, a.grantedAt, Start(step, w));
    NextOfRevoke(y, w, step);
    RevokedRoleRecords(w.scene, a.userId, a.role, a.grantedAt, a.revokedBy, Start(step, w), Stamp(step.eventId, Finish(step, w), step.auditFault));
    RevokeEndsAll(y, w, step);
  }

  // ---- A run that fails ---------------------------------------------------------------------

  function Quick(action: Action): Step { Step(action, 1, 0, [], false, false) }

  /** A user signs up, gets a session and a role, and loses the role by another spelling. */
  function SpellingRun(own: Id, other: Id, role: Text): seq<Step> {
    [ Quick(Surface(Register(Operator, [], [], own))),
      Quick(CreateUser(own, Operator)),
      Quick(Surface(IssueSession(own, [], None))),
      Quick(Assign(own, Operator, role, None, None)),
      Quick(Revoke(other, role, 4, None)),
      Quick(Commit) ]
  }

  function SpellingAccount(own: Id): Account { Account(own, Operator, [], [], false, false, None, false) }

  /** The provider once the user has a session. */
  function SpellingProvider(y: System, own: Id): Provider {
    SignedUpProvider(y, own).(sessions := map[[] := SessionRecord([], own, Operator, 3, 3 + y.config.sessionTtl, None, false)])
  }

  function SignedUpProvider(y: System, own: Id): Provider {
    Provider(map[own := SpellingAccount(own)], map[(Operator, y.config.lower([])) := own], map[])
  }

  function UserTx(u: Uuid): Tx { Tx(Tables(map[u := Operator], [], []), false) }

  lemma Registers(y: System, own: Id)
    ensures Next(y, Fresh(0), Quick(Surface(Register(Operator, [], [], own))))
            == World(Scene(SignedUpProvider(y, own), Tx(NO_TABLES, false), []), NO_TABLES, 1)
  {}

  lemma CreatesUser(y: System, p: Provider, own: Id, u: Uuid)
    requires ReadUuid(own) == Some(u)
    ensures Next(y, World(Scene(p, Tx(NO_TABLES, false), []), NO_TABLES, 1), Quick(CreateUser(own, Operator)))
            == World(Scene(p, UserTx(u), []), NO_TABLES, 2)
  {}

  lemma IssuesSession(y: System, own: Id, tx: Tx)
    ensures Next(y, World(Scene(SignedUpProvider(y, own), tx, []), NO_TABLES, 2), Quick(Surface(IssueSession(own, [], None))))
            == World(Scene(SpellingProvider(y, own), tx, []), NO_TABLES, 3)
  {}

  lemma Grants(y: System, tx: Tx, own: Id, u: Uuid, role: Text, moment: int)
    requires ReadUuid(own) == Some(u) && role in y.catalogues(Operator).roles && tx == UserTx(u)
    ensures Granted(y.catalogues, tx, own, Operator, role, None, None, moment, false)
            == (tx.(tables := tx.tables.(roles := [RoleRow(u, Operator, role, moment, None, None, None)])),
                Ok(RoleRow(own, Operator, role, moment, None, None, None)))
  {
    var row: Row := RoleRow(u, Operator, role, moment, None, None, None);
    assert tx.tables.roles + [row] == [row];
  }

  lemma Assigns(y: System, p: Provider, own: Id, u: Uuid, role: Text)
    requires ReadUuid(own) == Some(u) && role in y.catalogues(Operator).roles
    ensures var w := Next(y, World(Scene(p, UserTx(u), []), NO_TABLES, 3), Quick(Assign(own, Operator, role, None, None)));
            && w.clock == 4 && w.scene.provider == p && !w.scene.tx.aborted
            && w.scene.tx.tables.roles == [RoleRow(u, Operator, role, 4, None, None, None)]
  {
    RoleDetailsAreClean(role, None, None);
    Grants(y, UserTx(u), own, u, role, 4);
  }

  lemma {:induction false} RunInTwo(y: System, w: World, a: seq<Step>, b: seq<Step>)
    ensures Run(y, w, a + b) == Run(y, Run(y, w, a), b)
    ensures AllAdmissible(y, w, a + b) <==> AllAdmissible(y, w, a) && AllAdmissible(y, Run(y, w, a), b)
    decreases |a|
  {
    if |a| == 0 {
      assert a + b == b;
    } else {
      assert (a + b)[1..] == a[1..] + b;
      RunInTwo(y, Next(y, w, a[0]), a[1..], b);
    }
  }

  lemma RunOfOne(y: System, w: World, step: Step)
    ensures Run(y, w, [step]) == Next(y, w, step) && (AllAdmissible(y, w, [step]) <==> Admissible(w, step))
  {
    assert [step][1..] == [];
  }

  lemma RunOfTwo(y: System, w: World, a: Step, b: Step)
    ensures Run(y, w, [a, b]) == Next(y, Next(y, w, a), b)
    ensures AllAdmissible(y, w, [a, b]) <==> Admissible(w, a) && Admissible(Next(y, w, a), b)
  {
    assert [a, b][1..] == [b];
    RunOfOne(y, Next(y, w, a), b);
  }

  lemma GrantedRun(y: System, own: Id, u: Uuid, role: Text)
    requires IsOwn(own) && ReadUuid(own) == Some(u) && role in y.catalogues(Operator).roles
    ensures var steps := SpellingRun(own, own, role)[..4];
            var w := Run(y, Fresh(0), steps);
            && AllAdmissible(y, Fresh(0), steps) && w.clock == 4
            && w.scene.provider == SpellingProvider(y, own) && !w.scene.tx.aborted
            && w.scene.tx.tables.roles == [RoleRow(u, Operator, role, 4, None, None, None)]
  {
    var steps := SpellingRun(own, own, role);
    Registers(y, own);
    CreatesUser(y, SignedUpProvider(y, own), own, u);
    IssuesSession(y, own, UserTx(u));
    Assigns(y, SpellingProvider(y, own), own, u, role);
    RunOfTwo(y, Fresh(0), steps[0], steps[1]);
    var w2 := World(Scene(SignedUpProvider(y, own), UserTx(u), []), NO_TABLES, 2);
    RunOfTwo(y, w2, steps[2], steps[3]);
    RunInTwo(y, Fresh(0), [steps[0], steps[1]], [steps[2], steps[3]]);
    assert steps[..4] == [steps[0], steps[1]] + [steps[2], steps[3]];
  }

  ghost predicate LeavesASession(y: System, w: World, own: Id) {
    && (exists row :: row in w.committed.audit && row.kind == RoleRevoke && row.userId == ReadUuid(own) && row.occurredAt == 5)
    && SessionFound(w.scene.provider, [], 5) == Ok(Session([], own, Operator, 3, 3 + y.config.sessionTtl, None))
  }

  lemma SpellingSessionAnswers(y: System, own: Id, other: Id)
    requires other != own && y.config.sessionTtl > 10
    ensures SessionFound(SpellingProvider(y, own), [], 5) == Ok(Session([], own, Operator, 3, 3 + y.config.sessionTtl, None))
    ensures SessionFound(AllSessionsEnded(SpellingProvider(y, own), other), [], 5) == SessionFound(SpellingProvider(y, own), [], 5)
  {}

  lemma RevokedByOtherSpelling(y: System, w: World, own: Id, other: Id, role: Text, u: Uuid)
    requires Inv(y, w) && w.clock == 4 && !w.scene.tx.aborted && w.scene.provider == SpellingProvider(y, own)
    requires w.scene.tx.tables.roles == [RoleRow(u, Operator, role, 4, None, None, None)]
    requires ReadUuid(own) == Some(u) && ReadUuid(other) == Some(u) && other != own && y.config.sessionTtl > 10
    ensures LeavesASession(y, Next(y, Next(y, w, Quick(Revoke(other, role, 4, None))), Quick(Commit)), own)
  {
    var revoke, commit := Quick(Revoke(other, role, 4, None)), Quick(Commit);
    OneRowHit(w.scene.tx.tables.roles, u, role);
    SpellingSessionAnswers(y, own, other);
    assert Finish(revoke, w) == 5 && w.scene.provider.sessions[[]].userId == own;
    RevokeByOtherSpelling(y, w, revoke, commit, [], 5);
    RevokeRecords(y, w, revoke);
  }

  lemma SpellingRunInTwo(own: Id, other: Id, role: Text)
    ensures var steps := SpellingRun(own, other, role);
            steps == SpellingRun(own, own, role)[..4] + [Quick(Revoke(other, role, 4, None)), Quick(Commit)]
  {}

  /** Revoking a role by another spelling is reachable from the empty system: the row is
      committed, and the session issued before it still answers. */
  lemma OtherSpellingLeavesASession(y: System, own: Id, other: Id, role: Text)
    requires OwnText(own) && SameUser(other, own) && other != own
    requires role in y.catalogues(Operator).roles && y.config.sessionTtl > 10
    ensures AllAdmissible(y, Fresh(0), SpellingRun(own, other, role))
    ensures LeavesASession(y, Run(y, Fresh(0), SpellingRun(own, other, role)), own)
  {
    var u := ReadUuid(own).value;
    var before := SpellingRun(own, own, role)[..4];
    var revoke, commit := Quick(Revoke(other, role, 4, None)), Quick(Commit);
    assert IsOwn(own);
    GrantedRun(y, own, u, role);
    var w := Run(y, Fresh(0), before);
    FreshInv(y, 0);
    RunKeepsInv(y, Fresh(0), before);
    RevokedByOtherSpelling(y, w, own, other, role, u);
    RunOfTwo(y, w, revoke, commit);
    RunInTwo(y, Fresh(0), before, [revoke, commit]);
    SpellingRunInTwo(own, other, role);
  }

  lemma OneRowHit(rows: seq<Row>, u: Uuid, role: Text)
    requires rows == [RoleRow(u, Operator, role, 4, None, None, None)]
    ensures RowCount(rows, u, role, 4) == 1
  {
    assert rows[..0] == [];
  }

  /** A disabled account has no live session, after every run and at any instant. */
  lemma DisabledMeansNoSession(y: System, clock: int, steps: seq<Step>, s: Id, now: int)
    requires AllAdmissible(y, Fresh(clock), steps)
    ensures var p := Run(y, Fresh(clock), steps).scene.provider;
            SessionFound(p, s, now).Ok? ==> p.sessions[s].userId in p.accounts && !p.accounts[p.sessions[s].userId].disabled
  {
    FreshInv(y, clock);
    RunKeepsInv(y, Fresh(clock), steps);
    var p := Run(y, Fresh(clock), steps).scene.provider;
    if s in p.sessions { assert SessionOk(p.accounts, s, p.sessions[s]); }
  }

  /** The operations that must end a user's sessions, when they get as far as the provider. */
  predicate EndsSessionsOf(w: World, step: Step, userId: Id) {
    match step.action
    case NewPassword(user, _) => user == userId && user in w.scene.provider.accounts
    case Disable(user, _) => user == userId && user in w.scene.provider.accounts
    case Revoke(user, role, grantedAt, _) =>
      user == userId && RevokeHits(w, step)
    case _ => false
  }

  lemma StepEndsSessions(y: System, w: World, step: Step, s: Id)
    requires s in w.scene.provider.sessions && EndsSessionsOf(w, step, w.scene.provider.sessions[s].userId)
    ensures var p := Next(y, w, step).scene.provider;
            s in p.sessions && p.sessions[s].revoked
  {
    var userId := w.scene.provider.sessions[s].userId;
    assert EndsAllOf(Next(y, w, step).scene.provider, w.scene.provider, userId) by {
      match step.action {
        case NewPassword(_, hash) => assert PasswordChanged(w.scene.provider, userId, hash).1.Ok?;
        case Disable(_, _) => assert Disabled(w.scene.provider, userId).1.Ok?;
        case Revoke(_, role, grantedAt, _) => assert Revoked(w.scene.tx, userId, role, grantedAt, Start(step, w), false).1 == Ok(true);
      }
    }
  }

  ghost predicate EndsAllOf(q: Provider, p: Provider, userId: Id) {
    q.sessions == AllSessionsEnded(p, userId).sessions
  }

  /** Whatever becomes of the transaction afterwards, committed, rolled back or failed on its
      audit row, the sessions a user had never answer again. */
  lemma EndedSessionsNeverReturn(y: System, w: World, step: Step, rest: seq<Step>, s: Id, now: int)
    requires Inv(y, w) && AllAdmissible(y, w, [step] + rest)
    requires s in w.scene.provider.sessions && EndsSessionsOf(w, step, w.scene.provider.sessions[s].userId)
    ensures SessionFound(Run(y, w, [step] + rest).scene.provider, s, now) == Raise(SessionRevoked)
  {
    var v := Next(y, w, step);
    assert ([step] + rest)[0] == step && ([step] + rest)[1..] == rest;
    StepKeepsInv(y, w, step);
    RunKeepsInv(y, v, rest);
    StepEndsSessions(y, w, step, s);
    RevokedStaysDead(v.scene.provider, Run(y, v, rest).scene.provider, v.clock, s, now);
  }

  // ---- Audit rows ---------------------------------------------------------------------------

  /** After every run the committed audit rows account for the live grants of every user and
      role, and so do the rows of the open transaction unless a statement in it has failed. */
  lemma AuditConservation(y: System, clock: int, steps: seq<Step>, userId: Uuid, role: Text)
    requires AllAdmissible(y, Fresh(clock), steps)
    ensures var w := Run(y, Fresh(clock), steps);
            && Balance(w.committed.audit, userId, role) == LiveCount(w.committed.roles, userId, role)
            && (!w.scene.tx.aborted ==>
                  Balance(w.scene.tx.tables.audit, userId, role) == LiveCount(w.scene.tx.tables.roles, userId, role))
  {
    FreshInv(y, clock);
    RunKeepsInv(y, Fresh(clock), steps);
    var w := Run(y, Fresh(clock), steps);
    assert Conserves(w.committed);
  }

  /** Audit rows that a step throws away. */
  function Discarded(w: World, step: Step): int {
    if Discards(w, step.action) then |w.scene.tx.tables.audit| - |w.committed.audit| else 0
  }

  function TotalDiscarded(y: System, w: World, steps: seq<Step>): int
    decreases |steps|
  {
    if |steps| == 0 then 0 else Discarded(w, steps[0]) + TotalDiscarded(y, Next(y, w, steps[0]), steps[1..])
  }

  lemma StepBalance(y: System, w: World, step: Step)
    requires Inv(y, w) && Admissible(w, step)
    ensures var v := Next(y, w, step);
            |v.scene.mirrored| - |v.scene.tx.tables.audit| == |w.scene.mirrored| - |w.scene.tx.tables.audit| + Discarded(w, step)
  {
    var e := ActionShows(y, w.scene, step, Start(step, w), Finish(step, w));
  }

  lemma {:induction false} RunBalance(y: System, w: World, steps: seq<Step>)
    requires Inv(y, w) && AllAdmissible(y, w, steps)
    ensures var v := Run(y, w, steps);
            |v.scene.mirrored| - |v.scene.tx.tables.audit|
            == |w.scene.mirrored| - |w.scene.tx.tables.audit| + TotalDiscarded(y, w, steps)
    decreases |steps|
  {
    if |steps| > 0 {
      StepKeepsInv(y, w, steps[0]);
      StepBalance(y, w, steps[0]);
      RunBalance(y, Next(y, w, steps[0]), steps[1..]);
    }
  }

  /** Rows against the mirror, after every run: the committed rows are mirrored in order, and
      the mirror has in excess exactly the rows that rollbacks threw away and those still
      pending; so the two are equal exactly when there are none. */
  lemma MirrorAccounts(y: System, clock: int, steps: seq<Step>)
    requires AllAdmissible(y, Fresh(clock), steps)
    ensures var w := Run(y, Fresh(clock), steps);
            var pending := |w.scene.tx.tables.audit| - |w.committed.audit|;
            && pending >= 0
            && Subsequence(w.committed.audit, Map(RowOf, w.scene.mirrored))
            && |w.scene.mirrored| == |w.committed.audit| + pending + TotalDiscarded(y, Fresh(clock), steps)
            && (w.committed.audit == Map(RowOf, w.scene.mirrored) <==> pending + TotalDiscarded(y, Fresh(clock), steps) == 0)
  {
    FreshInv(y, clock);
    RunKeepsInv(y, Fresh(clock), steps);
    RunBalance(y, Fresh(clock), steps);
    var w := Run(y, Fresh(clock), steps);
    CommittedIsMirrored(w);
    SubsequenceFacts(w.committed.audit, Map(RowOf, w.scene.mirrored));
  }

  /** Steps of one unit of work: it is neither committed nor rolled back. */
  predicate Within(steps: seq<Step>) {
    forall i :: 0 <= i < |steps| ==> !steps[i].action.Commit? && !steps[i].action.Rollback?
  }

  lemma ActedStaysAborted(y: System, s: Scene, step: Step, start: int, finish: int)
    requires s.tx.aborted
    ensures Acted(y, s, step, start, finish).tx.aborted
  {
    match step.action {
      case Assign(user, archetype, role, grantedBy, customerId) =>
        assert Granted(y.catalogues, s.tx, user, archetype, role, grantedBy, customerId, start, step.fault).0.aborted;
      case Revoke(user, role, grantedAt, _) => assert Revoked(s.tx, user, role, grantedAt, start, step.fault).0.aborted;
      case _ =>
    }
  }

  lemma StepWithin(y: System, w: World, step: Step)
    requires Inv(y, w) && Admissible(w, step) && !step.action.Commit? && !step.action.Rollback?
    ensures var v := Next(y, w, step);
            && v.committed == w.committed && w.scene.tx.tables.audit <= v.scene.tx.tables.audit
            && (w.scene.tx.aborted ==> v.scene.tx.aborted)
  {
    var start, finish := Start(step, w), Finish(step, w);
    var e := ActionShows(y, w.scene, step, start, finish);
    if w.scene.tx.aborted { ActedStaysAborted(y, w.scene, step, start, finish); }
  }

  /** Within a unit of work rows are only added, and a failed statement stays one. */
  lemma {:induction false} RunWithin(y: System, w: World, steps: seq<Step>)
    requires Inv(y, w) && AllAdmissible(y, w, steps) && Within(steps)
    ensures var v := Run(y, w, steps);
            && v.committed == w.committed && w.scene.tx.tables.audit <= v.scene.tx.tables.audit
            && (w.scene.tx.aborted ==> v.scene.tx.aborted)
    decreases |steps|
  {
    if |steps| > 0 {
      StepWithin(y, w, steps[0]);
      StepKeepsInv(y, w, steps[0]);
      assert Within(steps[1..]);
      RunWithin(y, Next(y, w, steps[0]), steps[1..]);
    }
  }

  /** The login attempt is refused. */
  predicate LoginFails(y: System, w: World, login: Step) {
    login.action.LogIn?
    && Authenticated(y.config, w.scene.provider, login.action.archetype, login.action.email, login.action.password, login.action.rehash).1.Raise?
  }

  function FailedLogin(w: World, login: Step): AuditEvent
    requires login.action.LogIn?
  {
    AuditEvent(login.eventId, LoginFailure, Finish(login, w), None, FailureDetails(login.action.archetype, login.action.email))
  }

  lemma FailedLoginStep(y: System, w: World, login: Step)
    requires Inv(y, w) && LoginFails(y, w, login)
    ensures var e, v := FailedLogin(w, login), Next(y, w, login);
            var recorded := !w.scene.tx.aborted && !login.auditFault;
            && v.committed == w.committed && v.scene.tx.aborted == !recorded
            && v.scene.mirrored == w.scene.mirrored + (if recorded then [e] else [])
            && v.scene.tx.tables.audit == w.scene.tx.tables.audit + (if recorded then [RowOf(e)] else [])
  {
    FailureDetailsAreClean(login.action.archetype, login.action.email);
  }

  /** The rows begin with those before and one more. */
  predicate KeepsNext(rows: seq<AuditRow>, before: seq<AuditRow>, row: AuditRow) {
    before + [row] <= rows
  }

  /** Where the trail falls short of recording every failure: a failed login anywhere in a unit of
      work is mirrored at once, but its row is in the caller's transaction, so it is kept exactly
      when the caller commits in the end and no statement of the unit of work failed. */
  lemma FailedLoginNeedsCommit(y: System, w: World, login: Step, between: seq<Step>, end: Step)
    requires Inv(y, w) && LoginFails(y, w, login)
    requires AllAdmissible(y, Next(y, w, login), between) && Within(between) && (end.action.Commit? || end.action.Rollback?)
    ensures var e, v := FailedLogin(w, login), Next(y, w, login);
            var u := Run(y, v, between);
            && v.scene.mirrored == w.scene.mirrored + (if w.scene.tx.aborted || login.auditFault then [] else [e])
            && (KeepsNext(Next(y, u, end).committed.audit, w.scene.tx.tables.audit, RowOf(e))
                <==> end.action.Commit? && !u.scene.tx.aborted)
  {
    FailedLoginStep(y, w, login);
    StepKeepsInv(y, w, login);
    RunWithin(y, Next(y, w, login), between);
  }

  lemma FailureDetailsAreClean(archetype: Archetype, email: Text)
    ensures !CarriesCredential(FailureDetails(archetype, email))
  {
    assert LowerKey("archetype") == "archetype";
    assert LowerKey("email") == "email";
  }

  // ---- Permissions and lookups -----------------------------------------------------------------

  /** After every run, a permission check against the user's own archetype never raises
      UnknownRole and means a live, in-scope, unflagged grant. */
  lemma ReachablePermission(y: System, clock: int, steps: seq<Step>, known: set<Permission>, userId: Id, archetype: Archetype,
                            permission: Permission, customerId: Option<Text>)
    requires AllAdmissible(y, Fresh(clock), steps) && permission in known
    requires Readable(userId, customerId)
    requires var tx, u := Run(y, Fresh(clock), steps).scene.tx, ReadUuid(userId).value;
             !tx.aborted && (u in tx.tables.users ==> tx.tables.users[u] == archetype)
    ensures var tx := Run(y, Fresh(clock), steps).scene.tx;
            PermissionAnswer(known, y.catalogues, tx, userId, archetype, permission, customerId)
            == Answered(exists i :: 0 <= i < |tx.tables.roles|
                          && Confers(y.catalogues, tx.tables.roles[i], ReadUuid(userId).value, ReadOptional(customerId).value, permission))
  {
    FreshInv(y, clock);
    RunKeepsInv(y, Fresh(clock), steps);
    PermissionMeansAGrant(known, y.catalogues, Run(y, Fresh(clock), steps).scene.tx, userId, archetype, permission, customerId);
  }

  /** After every run the email index is a linear scan of the accounts, and a confirmed TOTP
      secret is set and is the same in every later state. */
  lemma ReachableProvider(y: System, clock: int, steps: seq<Step>, more: seq<Step>, archetype: Archetype, email: Text, userId: Id)
    requires AllAdmissible(y, Fresh(clock), steps) && AllAdmissible(y, Run(y, Fresh(clock), steps), more)
    ensures var p := Run(y, Fresh(clock), steps).scene.provider;
            var q := Run(y, Run(y, Fresh(clock), steps), more).scene.provider;
            && (FoundUser(y.config, p, archetype, email) == Ok(None)
                <==> forall id :: id in p.accounts ==> !Matches(y.config, p.accounts[id], archetype, email))
            && (userId in p.accounts && Matches(y.config, p.accounts[userId], archetype, email) ==>
                  FoundUser(y.config, p, archetype, email) == Ok(Some(View(p.accounts[userId]))))
            && (userId in p.accounts && p.accounts[userId].totpConfirmed ==>
                  && p.accounts[userId].totpSecret.Some?
                  && userId in q.accounts && q.accounts[userId].totpConfirmed
                  && q.accounts[userId].totpSecret == p.accounts[userId].totpSecret)
  {
    FreshInv(y, clock);
    RunKeepsInv(y, Fresh(clock), steps);
    var w := Run(y, Fresh(clock), steps);
    RunKeepsInv(y, w, more);
    IndexIsLinearScan(y.config, w.scene.provider, archetype, email);
    if userId in w.scene.provider.accounts {
      assert AccountOk(userId, w.scene.provider.accounts[userId]);
      assert AccountEvolves(w.scene.provider.accounts[userId], Run(y, w, more).scene.provider.accounts[userId]);
    }
  }
}

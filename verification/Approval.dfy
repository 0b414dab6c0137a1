/** Exact-parameter, tenant-bound, one-time approvals: the approval rows and the statements that change them. */
module Approval {
  import opened Wrappers

  type Time = int

  const APPROVAL_TTL_SECONDS := 600
  const ADMIN_SELF_APPROVAL := "ADMIN_SELF_APPROVAL"

  datatype Status = Pending | Approved | Rejected | Consumed | Expired

  /** The digest of a skill name and its validated parameters: equal exactly when both are equal. */
  datatype ParamsHash = ParamsHash(skill: string, params: string)

  datatype Request = Request(
    id: string, taskId: string, tenant: string, store: string, requester: string, skill: string,
    paramsHash: ParamsHash, status: Status, requestedAt: Time, expiresAt: Time,
    approver: string, approvedAt: Option<Time>, consumedAt: Option<Time>, reason: string)

  /** The table `security_approval`, by primary key. */
  type Table = map<string, Request>

  datatype Grant = Grant(
    id: string, taskId: string, tenant: string, store: string, requester: string, approver: string,
    skill: string, paramsHash: ParamsHash, status: Status, expiresAt: Time)

  datatype Security = Security(tenant: string, store: string, user: string, isAdmin: bool)

  datatype Error = NotFound | AlreadyUsed | Invalid | GrantExpired | SelfApprovalDenied

  function GrantOf(row: Request, approver: string): Grant {
    Grant(row.id, row.taskId, row.tenant, row.store, row.requester, approver, row.skill, row.paramsHash, Approved,
          row.expiresAt)
  }

  /** The grant names the row field by field, and this approver. */
  predicate Represents(grant: Grant, row: Request, approver: string) {
    && grant.id == row.id && grant.taskId == row.taskId && grant.tenant == row.tenant && grant.store == row.store
    && grant.requester == row.requester && grant.approver == approver && grant.skill == row.skill
    && grant.paramsHash == row.paramsHash && grant.status == Approved && grant.expiresAt == row.expiresAt
  }

  function NewRequest(id: string, taskId: string, tenant: string, store: string, user: string, skill: string,
                      paramsHash: ParamsHash, now: Time): Request {
    Request(id, taskId, tenant, store, user, skill, paramsHash, Pending, now, now + APPROVAL_TTL_SECONDS,
            "", None, None, "")
  }

  /** `SELECT … WHERE approval_id AND tenant_id AND store_id`. */
  function Find(table: Table, id: string, sec: Security): Option<Request> {
    if id in table && table[id].tenant == sec.tenant && table[id].store == sec.store then Some(table[id]) else None
  }

  /** What `approve` decides from the row that it read: refuse, hand out a grant, or attempt the update. */
  datatype ApproveDecision = Refuse(error: Error) | Already(grant: Grant) | Attempt(reason: string)

  function DecideApproval(found: Option<Request>, sec: Security, now: Time): ApproveDecision {
    match found
    case None => Refuse(NotFound)
    case Some(row) =>
      if row.status == Consumed then Refuse(AlreadyUsed)
      else if row.status == Approved then Already(GrantOf(row, row.approver))
      else if row.status != Pending then Refuse(Invalid)
      else if row.requester == sec.user && !sec.isAdmin then Refuse(SelfApprovalDenied)
      else if row.expiresAt <= now then Refuse(GrantExpired)
      else Attempt(if sec.isAdmin && row.requester == sec.user then ADMIN_SELF_APPROVAL else "")
  }

  predicate CanApprove(table: Table, id: string, sec: Security, now: Time) {
    && id in table && table[id].tenant == sec.tenant && table[id].store == sec.store
    && table[id].status == Pending && table[id].expiresAt > now
  }

  /** `UPDATE … SET status='approved' … WHERE status='pending' AND expires_at>now`. */
  function ApproveUpdate(table: Table, id: string, sec: Security, now: Time, reason: string): Table {
    if CanApprove(table, id, sec, now)
    then table[id := table[id].(status := Approved, approver := sec.user, approvedAt := Some(now), reason := reason)]
    else table
  }

  /** The checks that `consume` makes on the caller's grant before it touches the table. */
  function CheckGrant(grant: Grant, tenant: string, store: string, skill: string, paramsHash: ParamsHash, now: Time)
    : Option<Error>
  {
    if grant.expiresAt <= now then Some(GrantExpired)
    else if grant.status != Approved || grant.tenant != tenant || grant.store != store || grant.skill != skill
            || grant.paramsHash != paramsHash then Some(Invalid)
    else None
  }

  predicate CanConsume(table: Table, id: string, tenant: string, store: string, skill: string, paramsHash: ParamsHash,
                       now: Time)
  {
    && id in table && table[id].tenant == tenant && table[id].store == store && table[id].status == Approved
    && table[id].skill == skill && table[id].paramsHash == paramsHash && table[id].expiresAt > now
  }

  /** `UPDATE … SET status='consumed' … WHERE status='approved' AND skill_name AND params_hash AND expires_at>now`. */
  function ConsumeUpdate(table: Table, id: string, tenant: string, store: string, skill: string, paramsHash: ParamsHash,
                         now: Time): Table
  {
    if CanConsume(table, id, tenant, store, skill, paramsHash, now)
    then table[id := table[id].(status := Consumed, consumedAt := Some(now))]
    else table
  }

  // ---------- What the rows keep ----------

  /** A well-formed history of one approval. */
  ghost predicate RowOk(row: Request) {
    && (row.status == Pending ==> row.approvedAt == None && row.consumedAt == None)
    && (row.status in {Approved, Consumed} ==>
          && row.approvedAt.Some? && row.approvedAt.value < row.expiresAt
          && (row.approver != row.requester || row.reason == ADMIN_SELF_APPROVAL))
    && (row.status == Approved ==> row.consumedAt == None)
    && (row.status == Consumed ==> row.consumedAt.Some? && row.consumedAt.value < row.expiresAt)
  }

  ghost predicate TableOk(table: Table) {
    forall id :: id in table ==> table[id].id == id && RowOk(table[id])
  }

  /** One row moves to another by at most one of: approved once, consumed once. Nothing else about it changes. */
  ghost predicate RowMoves(a: Request, b: Request) {
    || b == a
    || (a.status == Pending && b.status == Approved
        && b == a.(status := Approved, approver := b.approver, approvedAt := b.approvedAt, reason := b.reason))
    || (a.status == Approved && b.status == Consumed && b == a.(status := Consumed, consumedAt := b.consumedAt))
  }

  /** Rows are never removed, new rows are pending, and old rows move forward only. */
  ghost predicate TableMoves(a: Table, b: Table) {
    && (forall id :: id in a ==> id in b && RowMoves(a[id], b[id]))
    && (forall id :: id in b && id !in a ==> b[id].status == Pending)
  }

  lemma ApproveKeeps(table: Table, id: string, sec: Security, now: Time, reason: string)
    requires TableOk(table)
    requires id in table && table[id].requester == sec.user ==> reason == ADMIN_SELF_APPROVAL
    ensures TableOk(ApproveUpdate(table, id, sec, now, reason))
    ensures TableMoves(table, ApproveUpdate(table, id, sec, now, reason))
  {
  }

  lemma ConsumeKeeps(table: Table, id: string, tenant: string, store: string, skill: string, hash: ParamsHash,
                     now: Time)
    requires TableOk(table)
    ensures TableOk(ConsumeUpdate(table, id, tenant, store, skill, hash, now))
    ensures TableMoves(table, ConsumeUpdate(table, id, tenant, store, skill, hash, now))
  {
  }

  /** An attempted update names self-approval only for an administrator's own request. */
  lemma AttemptIsSound(row: Request, sec: Security, now: Time)
    requires DecideApproval(Some(row), sec, now).Attempt?
    ensures row.requester == sec.user ==> sec.isAdmin && DecideApproval(Some(row), sec, now).reason == ADMIN_SELF_APPROVAL
    ensures row.status == Pending && row.expiresAt > now
  {
  }

  /** A grant that represents an approved, unexpired row is accepted for the row's own call, and consumes the row. */
  lemma GrantIsConsumed(table: Table, id: string, grant: Grant, now: Time)
    requires id in table && table[id].id == id && table[id].status == Approved && table[id].expiresAt > now
    requires Represents(grant, table[id], table[id].approver)
    ensures var row := table[id];
            && CheckGrant(grant, row.tenant, row.store, row.skill, row.paramsHash, now) == None
            && ConsumeUpdate(table, grant.id, row.tenant, row.store, row.skill, row.paramsHash, now) ==
               table[id := row.(status := Consumed, consumedAt := Some(now))]
  {
  }

  // ---------- The service, called without interleaving ----------

  datatype GrantResult = Granted(grant: Grant) | Denied(error: Error)

  class ApprovalService {
    var table: Table

    constructor ()
      ensures table == map[] && TableOk(table)
    {
      table := map[];
    }

    /** Fails, changing nothing, only if the fresh identifier is taken. */
    method CreatePending(id: string, taskId: string, tenant: string, store: string, user: string, skill: string,
                         paramsHash: ParamsHash, now: Time) returns (created: bool)
      requires TableOk(table)
      modifies this
      ensures TableOk(table) && TableMoves(old(table), table)
      ensures created <==> id !in old(table)
      ensures table == if created
                       then old(table)[id := Request(id, taskId, tenant, store, user, skill, paramsHash, Pending, now,
                                                     now + 600, "", None, None, "")]
                       else old(table)
    {
      if id in table {
        return false;
      }
      table := table[id := NewRequest(id, taskId, tenant, store, user, skill, paramsHash, now)];
      created := true;
    }

    /**
      A grant is handed out exactly when the row is already approved, or is pending, unexpired and approved now by
      someone entitled to; a row that is already approved is not written again. Otherwise the error is the first that
      applies: not found, consumed, rejected or lapsed, the caller's own request, expired.
     */
    method Approve(id: string, sec: Security, now: Time) returns (result: GrantResult)
      requires TableOk(table)
      modifies this
      ensures TableOk(table) && TableMoves(old(table), table)
      ensures result.Granted? ==>
              && id in old(table) && old(table)[id].tenant == sec.tenant && old(table)[id].store == sec.store
              && old(table)[id].status in {Pending, Approved}
      ensures result.Granted? ==>
                var row, own := old(table)[id], old(table)[id].requester == sec.user;
                if row.status == Approved then table == old(table) && Represents(result.grant, row, row.approver)
                else
                  && row.expiresAt > now && (own ==> sec.isAdmin) && Represents(result.grant, row, sec.user)
                  && table == old(table)[id := row.(status := Approved, approver := sec.user, approvedAt := Some(now),
                                                    reason := if own then "ADMIN_SELF_APPROVAL" else "")]
      ensures result.Denied? ==> table == old(table)
      ensures result == Denied(NotFound) <==>
              !(id in old(table) && old(table)[id].tenant == sec.tenant && old(table)[id].store == sec.store)
      ensures result.Denied? && result.error != NotFound ==>
                var row := old(table)[id];
                match result.error
                case AlreadyUsed => row.status == Consumed
                case SelfApprovalDenied => row.status == Pending && row.requester == sec.user && !sec.isAdmin
                case GrantExpired =>
                  row.status == Pending && (row.requester == sec.user ==> sec.isAdmin) && row.expiresAt <= now
                case Invalid => row.status in {Rejected, Expired}
                case NotFound => false
    {
      var found := Find(table, id, sec);
      var decision := DecideApproval(found, sec, now);
      match decision {
        case Refuse(error) =>
          result := Denied(error);
        case Already(grant) =>
          result := Granted(grant);
        case Attempt(reason) =>
          AttemptIsSound(found.value, sec, now);
          ApproveKeeps(table, id, sec, now, reason);
          var updated := CanApprove(table, id, sec, now);
          table := ApproveUpdate(table, id, sec, now, reason);
          result := if updated then Granted(GrantOf(found.value, sec.user)) else Denied(Invalid);
      }
    }

    /** Looks a grant up again; changes nothing. */
    method GetGrant(id: string, sec: Security, now: Time) returns (result: GrantResult)
      ensures result == Denied(Invalid) <==>
              !(id in table && table[id].tenant == sec.tenant && table[id].store == sec.store
                && table[id].status == Approved)
      ensures result.Granted? <==> result != Denied(Invalid) && table[id].expiresAt > now
      ensures result.Granted? ==> Represents(result.grant, table[id], table[id].approver)
      ensures result.Denied? ==> result.error in {Invalid, GrantExpired}
    {
      var found := Find(table, id, sec);
      if found.None? || found.value.status != Approved {
        return Denied(Invalid);
      }
      if found.value.expiresAt <= now {
        return Denied(GrantExpired);
      }
      result := Granted(GrantOf(found.value, found.value.approver));
    }

    /**
      Succeeds at most once per row, and then only for the row's own tenant, store, skill and parameters. An expired
      grant is refused first, then one that is not for this call, then a row that cannot be consumed.
     */
    method Consume(grant: Grant, tenant: string, store: string, skill: string, paramsHash: ParamsHash, now: Time)
      returns (failure: Option<Error>)
      requires TableOk(table)
      modifies this
      ensures TableOk(table) && TableMoves(old(table), table)
      ensures failure == Some(GrantExpired) <==> grant.expiresAt <= now
      ensures failure == Some(Invalid) <==>
              && grant.expiresAt > now
              && !(grant.status == Approved && grant.tenant == tenant && grant.store == store && grant.skill == skill
                   && grant.paramsHash == paramsHash)
      ensures failure in {None, Some(AlreadyUsed)} <==>
              && grant.expiresAt > now && grant.status == Approved && grant.tenant == tenant && grant.store == store
              && grant.skill == skill && grant.paramsHash == paramsHash
      ensures failure.None? <==>
              && failure in {None, Some(AlreadyUsed)} && grant.id in old(table)
              && var row := old(table)[grant.id];
              && row.status == Approved && row.expiresAt > now && row.tenant == tenant && row.store == store
              && row.skill == skill && row.paramsHash == paramsHash
      ensures failure.None? ==>
              && table == old(table)[grant.id := old(table)[grant.id].(status := Consumed, consumedAt := Some(now))]
              && forall t, st, sk, h, later :: !CanConsume(table, grant.id, t, st, sk, h, later)
      ensures failure.Some? ==> table == old(table)
    {
      failure := CheckGrant(grant, tenant, store, skill, paramsHash, now);
      if failure.Some? {
        return;
      }
      ConsumeKeeps(table, grant.id, tenant, store, skill, paramsHash, now);
      var updated := CanConsume(table, grant.id, tenant, store, skill, paramsHash, now);
      table := ConsumeUpdate(table, grant.id, tenant, store, skill, paramsHash, now);
      failure := if updated then None else Some(AlreadyUsed);
    }
  }
}

/** The ledger's operations (agentcore/tools/actions.py, and `_discard_prepared` of
    agentcore/orchestrator/engine.py) run to completion one after another on a store
    whose tables they update in place. Each leaves exactly the tables that its events
    leave in the interleaving machine of module Ledger. */
module LedgerService {
  import opened Text
  import opened Principals
  import opened Ledger
  import opened LedgerRuns

  datatype Report =
    | Done
    | NoSuchAction
    | NotAuthorised
    | ApprovalExpired
    | AlreadySettled(status: Status)
    | PayloadTampered
    | ExecutorFailed

  /** A state between operations: no session is busy and nothing is locked. */
  function Quiet(st: State): State {
    st.(sessions := map[], locks := map[])
  }

  function Script(who: Principal, id: nat, ok: bool): seq<Event> {
    [Look(0, who, id), Claim(0), Execute(0, ok)] + [Commit(0), Fail(0), Expire(0)]
  }

  // ---- what the confirmation script comes to --------------------------------

  /** The tables after an uninterrupted confirmation, branch by branch. */
  function AfterConfirm(st: State, who: Principal, id: nat, ok: bool): State {
    if id !in st.rows || !MayConfirm(who.role, st.rows[id].effect.kind) then st
    else
      var row := st.rows[id];
      if row.status != Pending then st
      else if !Before(st.clock, row.expiresAt) then WithStatus(st, id, Expired)
      else if row.digest != Sha256(row.effect) || !ExecutorAccepts(st, row.effect, st.clock, ok) then
        WithStatus(st, id, Failed)
      else
        var done := Execution(id, row.effect, who, st.clock);
        WithStatus(st, id, Executed).(executions := st.executions + [done], credits := st.credits + CreditsOf(done),
                                      audit := st.audit + [ExecutedEntry(id, who)])
  }

  /** The part of the script up to the executor. */
  function Attempt(st: State, who: Principal, id: nat, ok: bool): State {
    Next(Next(Next(st, Look(0, who, id)), Claim(0)), Execute(0, ok))
  }

  function Conclusion(st: State): State {
    Next(Next(Next(st, Commit(0)), Fail(0)), Expire(0))
  }

  /** Where the session stands after the executor. */
  function AttemptSession(st: State, who: Principal, id: nat, ok: bool): Session {
    if id !in st.rows || !MayConfirm(who.role, st.rows[id].effect.kind) then Idle
    else
      var row := st.rows[id];
      if row.status != Pending then Idle
      else if !Before(st.clock, row.expiresAt) then MustExpire(id)
      else if row.digest != Sha256(row.effect) || !ExecutorAccepts(st, row.effect, st.clock, ok) then MustFail(id)
      else Applied(id, who, row.effect.kind, st.clock, Execution(id, row.effect, who, st.clock))
  }

  lemma {:induction false} ClaimEffect(st: State, who: Principal, id: nat)
    requires st.sessions == map[] && st.locks == map[]
    ensures var st' := Next(Next(st, Look(0, who, id)), Claim(0));
            && st'.(sessions := map[], locks := map[]) == st
            && (var me := SessionOf(st', 0);
                if id !in st.rows || !MayConfirm(who.role, st.rows[id].effect.kind) || st.rows[id].status != Pending then
                  me == Idle && st'.locks == map[]
                else if !Before(st.clock, st.rows[id].expiresAt) then me == MustExpire(id) && st'.locks == map[]
                else me == Claimed(id, who, st.rows[id].effect.kind, st.clock) && st'.locks == map[id := 0])
  {
    hide Before, MayConfirm;
  }

  lemma {:induction false} AttemptEffect(st: State, who: Principal, id: nat, ok: bool)
    requires st.sessions == map[] && st.locks == map[]
    ensures var st' := Attempt(st, who, id, ok);
            && SessionOf(st', 0) == AttemptSession(st, who, id, ok)
            && st'.(sessions := map[], locks := map[]) == st
            && (!SessionOf(st', 0).Applied? ==> st'.locks == map[])
  {
    hide Before, MayConfirm, IssuedSince, NextLook, NextClaim;
    ClaimEffect(st, who, id);
    assert map[id := 0] - {id} == map[];
  }

  lemma {:induction false} ConclusionEffect(st: State, me: Session)
    requires SessionOf(st, 0) == me && !me.Looked? && !me.Claimed?
    requires !me.Applied? ==> st.locks == map[]
    requires me.Idle? || me.id in st.rows
    requires me.MustExpire? ==> st.rows[me.id].status == Pending
    ensures Quiet(Conclusion(st)) ==
              match me
              case Applied(id, who, _, _, done) =>
                WithStatus(Quiet(st), id, Executed).(executions := st.executions + [done],
                                                     credits := st.credits + CreditsOf(done),
                                                     audit := st.audit + [ExecutedEntry(id, who)])
              case MustFail(id) => WithStatus(Quiet(st), id, Failed)
              case MustExpire(id) => WithStatus(Quiet(st), id, Expired)
              case _ => Quiet(st)
  {
    hide CreditsOf;
  }

  lemma {:induction false} ScriptEffect(st: State, who: Principal, id: nat, ok: bool)
    requires st.sessions == map[] && st.locks == map[]
    ensures Quiet(Run(st, Script(who, id, ok))) == AfterConfirm(st, who, id, ok)
  {
    hide Run, Next, CreditsOf, Before, ExecutorAccepts;
    RunConcat(st, [Look(0, who, id), Claim(0), Execute(0, ok)], [Commit(0), Fail(0), Expire(0)]);
    RunThree(st, Look(0, who, id), Claim(0), Execute(0, ok));
    var mid := Attempt(st, who, id, ok);
    RunThree(mid, Commit(0), Fail(0), Expire(0));
    AttemptEffect(st, who, id, ok);
    ConclusionEffect(mid, AttemptSession(st, who, id, ok));
  }

  /** What an uninterrupted confirmation reports. */
  function ReportOf(st: State, who: Principal, id: nat, ok: bool): Report {
    if id !in st.rows then NoSuchAction
    else if !MayConfirm(who.role, st.rows[id].effect.kind) then NotAuthorised
    else if st.rows[id].status != Pending then AlreadySettled(st.rows[id].status)
    else if !Before(st.clock, st.rows[id].expiresAt) then ApprovalExpired
    else if st.rows[id].digest != Sha256(st.rows[id].effect) then PayloadTampered
    else if !ExecutorAccepts(st, st.rows[id].effect, st.clock, ok) then ExecutorFailed
    else Done
  }

  /** Did the row leave the pending status for this one? */
  predicate Settles(st: State, st': State, id: nat, to: Status) {
    && id in st.rows && st.rows[id].status == Pending
    && id in st'.rows && st'.rows[id] == st.rows[id].(status := to)
  }

  /** The report says what became of the row: done is an execution by this caller, an
      expired approval is a row now expired, the two failures are a row now failed, and
      with any other report the tables are untouched. */
  lemma {:induction false} ReportTells(st: State, who: Principal, id: nat, ok: bool)
    requires st.sessions == map[] && st.locks == map[]
    ensures var st', report := Quiet(Run(st, Script(who, id, ok))), ReportOf(st, who, id, ok);
            && (report == Done <==> Settles(st, st', id, Executed))
            && (report == Done ==> st'.executions == st.executions + [Execution(id, st.rows[id].effect, who, st.clock)])
            && (report == ApprovalExpired <==> Settles(st, st', id, Expired))
            && (report in {PayloadTampered, ExecutorFailed} <==> Settles(st, st', id, Failed))
            && (report in {NoSuchAction, NotAuthorised} || report.AlreadySettled? <==> st' == st)
            && (report != Done ==> st' == st.(rows := st'.rows))
            && st'.rows.Keys == st.rows.Keys && forall i :: i in st.rows && i != id ==> st'.rows[i] == st.rows[i]
  {
    hide Run, Script, Quiet, ExecutorAccepts, Before, MayConfirm, CreditsOf;
    ScriptEffect(st, who, id, ok);
  }

  /** And which refusal it is: by the row, the role, the status and the digest. */
  lemma {:induction false} ReportNames(st: State, who: Principal, id: nat, ok: bool)
    ensures var report := ReportOf(st, who, id, ok);
            && (report == NoSuchAction <==> id !in st.rows)
            && (report == NotAuthorised <==>
                  && id in st.rows && who.role != OperationsAdmin
                  && !(who.role == SupportAgent && st.rows[id].effect.kind in {EscalateTicket, CreateFollowUp}))
            && (report.AlreadySettled? ==> id in st.rows && st.rows[id].status == report.status != Pending)
            && (report == PayloadTampered ==> id in st.rows && st.rows[id].digest != Sha256(st.rows[id].effect))
            && (report == ExecutorFailed ==> id in st.rows && st.rows[id].digest == Sha256(st.rows[id].effect))
  {
    hide ExecutorAccepts, Before;
  }

  /** What the executor of a credit demands, and what it pays. */
  predicate Payable(st: State, effect: Effect) {
    && effect.payload.Credit? && effect.payload.amount > 0
    && (effect.payload.monthlyCap.None?
        || IssuedSince(st.credits, effect.tenant, effect.account, st.clock.month) + effect.payload.amount
           <= effect.payload.monthlyCap.value)
  }

  /** An uninterrupted confirmation executes exactly a pending row, in time and untampered,
      for a role entitled to it, whose executor succeeds; a credit is paid then, once, in
      the amount and to the account that were approved. */
  lemma {:induction false} ConfirmExecutesIff(st: State, who: Principal, id: nat, ok: bool)
    requires st.sessions == map[] && st.locks == map[]
    ensures var st' := Quiet(Run(st, Script(who, id, ok)));
            if && id in st.rows && st.rows[id].status == Pending && Before(st.clock, st.rows[id].expiresAt)
               && st.rows[id].digest == Sha256(st.rows[id].effect)
               && (who.role == OperationsAdmin
                   || (who.role == SupportAgent && st.rows[id].effect.kind in {EscalateTicket, CreateFollowUp}))
               && (if st.rows[id].effect.kind == IssueServiceCredit then Payable(st, st.rows[id].effect) else ok)
            then
              var effect := st.rows[id].effect;
              && st'.rows == st.rows[id := st.rows[id].(status := Executed)]
              && st'.executions == st.executions + [Execution(id, effect, who, st.clock)]
              && st'.audit == st.audit + [ExecutedEntry(id, who)]
              && st'.credits == st.credits + if effect.kind != IssueServiceCredit then []
                   else [CreditRow(id, effect.tenant, effect.account, effect.payload.amount, st.clock)]
            else st' == st.(rows := st'.rows)
  {
    hide Run, Script, Quiet, Before, IssuedSince;
    ScriptEffect(st, who, id, ok);
  }

  // ---- the store -------------------------------------------------------------

  class ActionStore {
    var rows: map<nat, Row>
    var executions: seq<Execution>
    var credits: seq<CreditRow>
    var audit: seq<AuditEntry>
    var now: Instant
    ghost var prepared: map<nat, Effect>

    ghost function View(): State
      reads this
    {
      State(rows, executions, credits, audit, map[], map[], now, prepared)
    }

    constructor ()
      ensures View() == START
    {
      rows, executions, credits, audit, now := map[], [], [], [], Instant(0, 0);
      prepared := map[];
    }

    /** Returns the id of the row that now stands for the effect: a new one, or the
        one already prepared under the same key. */
    method PrepareAction(newId: nat, who: Principal, kind: ActionType, account: string, payload: Payload,
                         run: Option<nat>, expiresAt: Instant) returns (id: Option<nat>)
      requires newId !in rows
      modifies this
      ensures View() == Next(old(View()), Prepare(newId, who, kind, account, payload, run, expiresAt))
      ensures id.Some? <==> MayPrepare(who.role, kind) && (who.role == Customer ==> Some(account) == who.account)
      ensures id.Some? ==>
                var effect := PreparedEffect(who, kind, account, payload);
                id.value in rows && rows[id.value].effect.tenant == who.tenant
                && rows[id.value].key == Key(run, kind, Sha256(effect))
    {
      if !MayPrepare(who.role, kind) {
        return None;
      }
      if who.role == Customer && Some(account) != who.account {
        return None;
      }
      var effect := PreparedEffect(who, kind, account, payload);
      var key := Key(run, kind, Sha256(effect));
      if i :| i in rows && rows[i].effect.tenant == who.tenant && rows[i].key == key {
        return Some(i);
      }
      rows := rows[newId := Row(effect, Sha256(effect), key, Pending, expiresAt)];
      prepared := prepared[newId := effect];
      return Some(newId);
    }

    method ConfirmAction(who: Principal, id: nat, ok: bool) returns (report: Report)
      modifies this
      ensures View() == Quiet(Run(old(View()), Script(who, id, ok)))
      ensures report == ReportOf(old(View()), who, id, ok)
    {
      hide Run, Script, Quiet, ExecutorAccepts, Before;
      ScriptEffect(View(), who, id, ok);
      if id !in rows {
        return NoSuchAction;
      }
      var row := rows[id];
      var kind := row.effect.kind;
      if !MayConfirm(who.role, kind) {
        return NotAuthorised;
      }
      if row.status != Pending || !Before(now, row.expiresAt) {
        if row.status == Pending {
          rows := rows[id := row.(status := Expired)];
          return ApprovalExpired;
        }
        return AlreadySettled(row.status);
      }
      var claimed := row.(status := Confirmed);
      if claimed.digest != Sha256(claimed.effect) {
        rows := rows[id := row.(status := Failed)];
        return PayloadTampered;
      }
      var accepted := RunExecutor(claimed.effect, ok);
      if !accepted {
        rows := rows[id := row.(status := Failed)];
        return ExecutorFailed;
      }
      var done := Execution(id, claimed.effect, who, now);
      rows := rows[id := claimed.(status := Executed)];
      executions := executions + [done];
      credits := credits + CreditsOf(done);
      audit := audit + [ExecutedEntry(id, who)];
      return Done;
    }

    method RunExecutor(effect: Effect, ok: bool) returns (accepted: bool)
      ensures accepted == ExecutorAccepts(View(), effect, now, ok)
    {
      if effect.kind != IssueServiceCredit {
        return ok;
      }
      if !effect.payload.Credit? {
        return false;
      }
      var amount, cap := effect.payload.amount, effect.payload.monthlyCap;
      if cap.Some? {
        var issued := IssuedSince(credits, effect.tenant, effect.account, now.month);
        if issued + amount > cap.value {
          return false;
        }
      }
      return amount > 0;
    }

    method RejectAction(who: Principal, id: nat) returns (report: Report)
      modifies this`rows, this`audit
      ensures View() == Next(old(View()), Reject(who, id))
      ensures report == NoSuchAction <==> id !in old(rows)
      ensures id in old(rows) ==>
                report == if old(rows)[id].status == Pending then Done else AlreadySettled(old(rows)[id].status)
      ensures report == Done ==>
                && rows == old(rows)[id := old(rows)[id].(status := Rejected)]
                && audit == old(audit) + [RejectedEntry(id, who)]
      ensures report != Done ==> rows == old(rows) && audit == old(audit)
    {
      if id !in rows {
        return NoSuchAction;
      }
      if rows[id].status != Pending {
        return AlreadySettled(rows[id].status);
      }
      rows := rows[id := rows[id].(status := Rejected)];
      audit := audit + [RejectedEntry(id, who)];
      return Done;
    }

    method WithdrawAction(id: nat)
      modifies this`rows
      ensures View() == Next(old(View()), Withdraw(id))
      ensures rows == if id in old(rows) && old(rows)[id].status == Pending
                      then old(rows)[id := old(rows)[id].(status := Rejected)] else old(rows)
    {
      if id in rows && rows[id].status == Pending {
        rows := rows[id := rows[id].(status := Rejected)];
      }
    }

    method ExpireStale()
      modifies this`rows
      ensures View() == Next(old(View()), Sweep)
      ensures rows.Keys == old(rows).Keys
      ensures forall id :: id in old(rows) ==>
                rows[id] == if old(rows)[id].status == Pending && !Before(now, old(rows)[id].expiresAt)
                            then old(rows)[id].(status := Expired) else old(rows)[id]
    {
      rows := Swept(rows, now);
    }
  }
}

/** Further safety of ledger runs: what settled rows keep, who can relabel an executed one,
    and what one proposal can do at most. */
module LedgerRuns {
  import opened Text
  import opened Principals
  import opened Ledger

  lemma {:induction false} RunConcat(st: State, a: seq<Event>, b: seq<Event>)
    ensures Run(st, a + b) == Run(Run(st, a), b)
    decreases |b|
  {
    hide Next;
    if b == [] {
      assert a + b == a;
    } else {
      var n := |b| - 1;
      RunConcat(st, a, b[..n]);
      assert (a + b)[..|a + b| - 1] == a + b[..n];
    }
  }

  lemma {:induction false} RunTwo(st: State, e: Event, f: Event)
    ensures Run(st, [e, f]) == Next(Next(st, e), f)
  {
    hide Next;
    assert Run(st, [e]) == Next(st, e);
    assert [e, f][..1] == [e];
  }

  lemma {:induction false} RunThree(st: State, e: Event, f: Event, g: Event)
    ensures Run(st, [e, f, g]) == Next(Next(Next(st, e), f), g)
  {
    hide Next;
    RunTwo(st, e, f);
    assert [e, f, g][..2] == [e, f];
  }

  /** What a row keeps over any continuation. */
  lemma {:induction false} RowLaterRun(st: State, events: seq<Event>, id: nat)
    requires id in st.rows
    ensures RowLater(st, Run(st, events), id)
    decreases |events|
  {
    hide Next;
    if events != [] {
      var n := |events| - 1;
      RowLaterRun(st, events[..n], id);
      RowStep(Run(st, events[..n]), events[n], id);
    }
  }

  // ---- settled rows ---------------------------------------------------------

  lemma {:induction false} SettledStep(st: State, e: Event, id: nat)
    requires Invariant(st) && id in st.rows && st.rows[id].status != Pending
    ensures id in Next(st, e).rows && Next(st, e).rows[id].status != Pending
    ensures TimesExecuted(Next(st, e).executions, id) == TimesExecuted(st.executions, id)
  {
    hide Next, SessionsOk, CountsOk, ExecutionsOk, ExpiryOk, DigestsOk;
    RowStep(st, e, id);
    if e.Commit? && SessionOf(st, e.s).Applied? {
      var me := SessionOf(st, e.s);
      assert st.rows[me.id].status == Pending;
      assert SessionsOk(st);
      CommitExecutes(st, e.s);
      AppliedIsOwn(st, e.s);
      TimesExecutedSnoc(st.executions, me.done, id);
    } else if e.Commit? {
      CommitNeedsApplied(st, e);
    } else {
      TablesStep(st, e);
    }
  }

  lemma {:induction false} AppliedIsOwn(st: State, s: nat)
    requires SessionsOk(st) && SessionOf(st, s).Applied?
    ensures SessionOf(st, s).done.id == SessionOf(st, s).id
  {
    assert SessionOk(st, st.sessions[s]);
  }

  /** Once a row is rejected, withdrawn, expired, failed or executed, no continuation
      of the run makes it pending again or executes it (again). */
  lemma {:induction false} SettledForever(events: seq<Event>, more: seq<Event>, id: nat)
    requires id in Run(START, events).rows && Run(START, events).rows[id].status != Pending
    ensures var now, later := Run(START, events), Run(Run(START, events), more);
            && id in later.rows && later.rows[id].status != Pending
            && TimesExecuted(later.executions, id) == TimesExecuted(now.executions, id)
    ensures Invariant(Run(Run(START, events), more))
    decreases |more|
  {
    hide Next, Invariant;
    RunInvariant(events);
    if more != [] {
      var n := |more| - 1;
      SettledForever(events, more[..n], id);
      SettledStep(Run(Run(START, events), more[..n]), more[n], id);
      InvariantStep(Run(Run(START, events), more[..n]), more[n]);
    }
  }

  /** "Executed" is left in exactly one way: by the unconditional failure write of a
      confirmation that rolled back earlier. */
  lemma {:induction false} ExecutedLeftOnlyByFail(st: State, e: Event, id: nat)
    requires Invariant(st) && id in st.rows && st.rows[id].status == Executed
    ensures id in Next(st, e).rows
    ensures Next(st, e).rows[id].status != Executed <==>
              e.Fail? && SessionOf(st, e.s) == MustFail(id)
    ensures Next(st, e).rows[id].status in {Executed, Failed}
  {
    hide SessionsOk, CountsOk, ExecutionsOk, ExpiryOk, DigestsOk, KeyTaken, ExecutorAccepts, Before, MayPrepare,
         MayConfirm;
  }

  /** Does some session still owe the failure write for this row? */
  ghost predicate OwesFailure(st: State, id: nat) {
    exists s :: s in st.sessions && st.sessions[s] == MustFail(id)
  }

  ghost predicate LeavesExecuted(st: State, more: seq<Event>, id: nat) {
    id in Run(st, more).rows && Run(st, more).rows[id].status != Executed
  }

  lemma {:induction false} NoNewFailure(st: State, e: Event, id: nat)
    requires LocksOk(st) && id in st.rows && st.rows[id].status == Executed && !OwesFailure(st, id)
    ensures id in Next(st, e).rows && Next(st, e).rows[id].status == Executed && !OwesFailure(Next(st, e), id)
  {
    if Actor(e).Some? {
      NoNewFailureByActor(st, e, id);
    } else {
      hide KeyTaken, Before, MayPrepare, MayConfirm;
    }
  }

  lemma {:induction false} NoNewFailureByActor(st: State, e: Event, id: nat)
    requires LocksOk(st) && id in st.rows && st.rows[id].status == Executed && !OwesFailure(st, id) && Actor(e).Some?
    ensures id in Next(st, e).rows && Next(st, e).rows[id].status == Executed && !OwesFailure(Next(st, e), id)
  {
    if e.Execute? {
      hide ExecutorAccepts;
      if SessionOf(st, e.s).Claimed? { assert SessionOf(st, e.s).id != id; }
    } else {
      NoNewFailureElse(st, e, id);
    }
  }

  lemma {:induction false} NoNewFailureElse(st: State, e: Event, id: nat)
    requires LocksOk(st) && id in st.rows && st.rows[id].status == Executed && !OwesFailure(st, id)
    requires Actor(e).Some? && !e.Execute?
    ensures id in Next(st, e).rows && Next(st, e).rows[id].status == Executed && !OwesFailure(Next(st, e), id)
  {
    hide KeyTaken, Before, MayPrepare, MayConfirm, CreditsOf, NextExecute;
  }

  lemma {:induction false} ExecutedStays(st: State, more: seq<Event>, id: nat)
    requires Invariant(st) && id in st.rows && st.rows[id].status == Executed && !OwesFailure(st, id)
    ensures var later := Run(st, more);
            Invariant(later) && id in later.rows && later.rows[id].status == Executed && !OwesFailure(later, id)
    decreases |more|
  {
    hide Next, Invariant, OwesFailure;
    if more != [] {
      var n := |more| - 1;
      ExecutedStays(st, more[..n], id);
      InvariantStep(Run(st, more[..n]), more[n]);
      assert LocksOk(Run(st, more[..n])) by { InvariantLocks(Run(st, more[..n])); }
      NoNewFailure(Run(st, more[..n]), more[n], id);
    }
  }

  lemma {:induction false} InvariantLocks(st: State)
    requires Invariant(st)
    ensures LocksOk(st)
  {
    hide LocksOk;
  }

  /** Over whole runs: an executed row can still be relabelled, by some continuation,
      exactly when a session that rolled back earlier still owes it the failure write. */
  lemma {:induction false} RelabelledIff(st: State, id: nat)
    requires Invariant(st) && id in st.rows && st.rows[id].status == Executed
    ensures (exists more :: LeavesExecuted(st, more, id)) <==> OwesFailure(st, id)
  {
    hide Run, Next, Invariant;
    if OwesFailure(st, id) {
      var s :| s in st.sessions && st.sessions[s] == MustFail(id);
      ExecutedLeftOnlyByFail(st, Fail(s), id);
      RunOne(st, Fail(s));
      assert LeavesExecuted(st, [Fail(s)], id);
    } else {
      forall more ensures !LeavesExecuted(st, more, id) { ExecutedStays(st, more, id); }
    }
  }

  lemma {:induction false} RunOne(st: State, e: Event)
    ensures Run(st, [e]) == Next(st, e)
  {
    hide Next;
    assert [e][..0] == [] && Run(st, []) == st;
  }

  /** The ways a row's status can change, and whose event it takes. */
  predicate Moves(st: State, e: Event, id: nat, to: Status)
    requires id in st.rows
  {
    var from, me := st.rows[id].status, if Actor(e).Some? then SessionOf(st, Actor(e).value) else Idle;
    || (e.Commit? && me.Applied? && me.id == id && from == Pending && to == Executed)
    || ((e == Withdraw(id) || (e.Reject? && e.id == id)) && from == Pending && to == Rejected)
    || ((e.Sweep? || (e.Expire? && me == MustExpire(id))) && from == Pending && to == Expired
        && !Before(st.clock, st.rows[id].expiresAt))
    || (e.Fail? && me == MustFail(id) && to == Failed)
  }

  lemma {:induction false} SettlingMoves(st: State, e: Event, id: nat)
    requires Invariant(st) && id in st.rows && (e.Commit? || e.Fail? || e.Expire?)
    ensures id in Next(st, e).rows && Next(st, e).rows[id].effect == st.rows[id].effect
    ensures var to := Next(st, e).rows[id].status;
            to != st.rows[id].status ==> Moves(st, e, id, to)
  {
    hide Before, CountsOk, DigestsOk, ExecutionsOk, ExpiryOk;
    if Actor(e).value in st.sessions { assert SessionOk(st, st.sessions[Actor(e).value]); }
  }

  lemma {:induction false} OtherMoves(st: State, e: Event, id: nat)
    requires id in st.rows && !(e.Commit? || e.Fail? || e.Expire?)
    ensures id in Next(st, e).rows
    ensures var to := Next(st, e).rows[id].status;
            to != st.rows[id].status ==> Moves(st, e, id, to)
    ensures Next(st, e).rows[id].effect != st.rows[id].effect ==> (e.Tamper? || e.TamperTenant?) && e.id == id
  {
    hide Before, KeyTaken, ExecutorAccepts, MayConfirm, MayPrepare;
  }

  /** No event touches a row it does not name or hold, a status changes only along the
      protocol's moves, and an effect only by tampering. */
  lemma {:induction false} RowsMoveByProtocol(st: State, e: Event, id: nat)
    requires Invariant(st) && id in st.rows
    ensures id in Next(st, e).rows
    ensures Next(st, e).rows[id].status != st.rows[id].status ==> Moves(st, e, id, Next(st, e).rows[id].status)
    ensures Next(st, e).rows[id].effect != st.rows[id].effect ==> (e.Tamper? || e.TamperTenant?) && e.id == id
  {
    hide Next, Moves, Invariant;
    if e.Commit? || e.Fail? || e.Expire? {
      SettlingMoves(st, e, id);
    } else {
      OtherMoves(st, e, id);
    }
  }

  const ADMIN := Principal("t", "ops", OperationsAdmin, None)
  const ESCALATION := Effect("t", "a", EscalateTicket, Opaque("{}"))
  const ESCALATION_ROW := Row(ESCALATION, Sha256(ESCALATION), Key(None, EscalateTicket, Sha256(ESCALATION)), Pending,
                              Instant(1, 0))

  const NOW := Instant(0, 0)
  const LOOKED := Looked(0, ADMIN, EscalateTicket, Pending, NOW)
  const S1 := State(map[0 := ESCALATION_ROW], [], [], [], map[], map[], NOW, map[0 := ESCALATION])
  const S3 := S1.(sessions := map[1 := LOOKED, 2 := LOOKED])
  const S5 := S1.(sessions := map[1 := MustFail(0), 2 := LOOKED])
  const DONE := Execution(0, ESCALATION, ADMIN, NOW)
  const S8 := S5.(rows := map[0 := ESCALATION_ROW.(status := Executed)], executions := [DONE],
                  audit := [ExecutedEntry(0, ADMIN)], sessions := map[1 := MustFail(0), 2 := Idle])
  const PROPOSAL := Prepare(0, ADMIN, EscalateTicket, "a", Opaque("{}"), None, Instant(1, 0))

  lemma {:induction false} TwoLook()
    ensures Run(START, [PROPOSAL]) == S1
    ensures Run(S1, [Look(1, ADMIN, 0), Look(2, ADMIN, 0)]) == S3
  {
    assert Run(START, [PROPOSAL]) == Next(START, PROPOSAL);
    RunTwo(S1, Look(1, ADMIN, 0), Look(2, ADMIN, 0));
  }

  lemma {:induction false} FirstRollsBack()
    ensures Run(S3, [Claim(1), Execute(1, false)]) == S5
  {
    RunTwo(S3, Claim(1), Execute(1, false));
    var claimed := Next(S3, Claim(1));
    assert claimed == S3.(locks := map[0 := 1], sessions := map[1 := Claimed(0, ADMIN, EscalateTicket, NOW), 2 := LOOKED]);
    assert map[0 := 1] - {0} == map[];
  }

  lemma {:induction false} SecondExecutes()
    ensures Run(S5, [Claim(2), Execute(2, true), Commit(2)]) == S8
  {
    RunThree(S5, Claim(2), Execute(2, true), Commit(2));
    SecondClaims();
    SecondCommits();
  }

  const S6 := S5.(locks := map[0 := 2], sessions := map[1 := MustFail(0), 2 := Claimed(0, ADMIN, EscalateTicket, NOW)])
  const S7 := S6.(sessions := map[1 := MustFail(0), 2 := Applied(0, ADMIN, EscalateTicket, NOW, DONE)])

  lemma {:induction false} SecondClaims()
    ensures Next(S5, Claim(2)) == S6 && Next(S6, Execute(2, true)) == S7
  {
  }

  lemma {:induction false} SecondCommits()
    ensures Next(S7, Commit(2)) == S8
  {
    assert map[0 := 2] - {0} == map[];
  }

  lemma {:induction false} FirstRelabels()
    ensures var st := Run(S8, [Fail(1)]);
            0 in st.rows && st.rows[0].status == Failed && TimesExecuted(st.executions, 0) == 1
  {
    assert Run(S8, [Fail(1)]) == Next(S8, Fail(1));
    TimesExecutedSnoc([], DONE, 0);
    assert [] + [DONE] == [DONE];
  }

  /** The case exists: a confirmation fails and rolls back, another one executes the
      row, and the first one's failure write then relabels it. */
  lemma {:induction false} ExecutedCanBeRelabelled() returns (events: seq<Event>)
    ensures var st := Run(START, events);
            0 in st.rows && st.rows[0].status == Failed && TimesExecuted(st.executions, 0) == 1
  {
    hide *;
    var looks, first, second := [Look(1, ADMIN, 0), Look(2, ADMIN, 0)], [Claim(1), Execute(1, false)],
      [Claim(2), Execute(2, true), Commit(2)];
    TwoLook();
    FirstRollsBack();
    SecondExecutes();
    FirstRelabels();
    RunConcat(START, [PROPOSAL], looks);
    RunConcat(START, [PROPOSAL] + looks, first);
    RunConcat(START, [PROPOSAL] + looks + first, second);
    RunConcat(START, [PROPOSAL] + looks + first + second, [Fail(1)]);
    events := [PROPOSAL] + looks + first + second + [Fail(1)];
  }

  // ---- one effect, one execution --------------------------------------------

  /** No two rows of one tenant share an idempotency key, and keys and tenants are
      those of what was prepared. */
  ghost predicate KeysOk(st: State) {
    && DigestsOk(st)
    && (forall id :: id in st.rows ==>
          && st.rows[id].key.kind == st.prepared[id].kind && st.rows[id].key.digest == Sha256(st.prepared[id])
          && st.rows[id].effect.tenant == st.prepared[id].tenant)
    && (forall i, j :: i in st.rows && j in st.rows && i != j ==> !SameKey(st.rows[i], st.rows[j]))
  }

  predicate SameKey(a: Row, b: Row) {
    a.effect.tenant == b.effect.tenant && a.key == b.key
  }

  lemma {:induction false} KeysKeptByPrepare(st: State, e: Event)
    requires KeysOk(st) && e.Prepare?
    ensures KeysOk(Next(st, e))
  {
    hide MayPrepare;
    DigestsKept(st, e);
  }

  /** What an event other than a preparation leaves of the identifying columns. */
  lemma {:induction false} IdentityStep(st: State, e: Event, id: nat)
    requires !e.Prepare? && !e.TamperTenant?
    ensures id in Next(st, e).rows <==> id in st.rows
    ensures id in st.rows ==>
              && Next(st, e).rows[id].key == st.rows[id].key
              && Next(st, e).rows[id].effect.tenant == st.rows[id].effect.tenant
  {
    hide KeyTaken, ExecutorAccepts, CreditsOf, Before, MayConfirm, MayPrepare, Stale;
  }

  lemma {:induction false} PreparedStays(st: State, e: Event)
    requires !e.Prepare?
    ensures Next(st, e).prepared == st.prepared
  {
    hide KeyTaken, ExecutorAccepts, CreditsOf, Before, MayConfirm, MayPrepare, Swept;
  }

  lemma {:induction false} KeysKept(st: State, e: Event)
    requires KeysOk(st) && !e.TamperTenant?
    ensures KeysOk(Next(st, e))
  {
    if e.Prepare? {
      KeysKeptByPrepare(st, e);
    } else {
      hide Next;
      DigestsKept(st, e);
      PreparedStays(st, e);
      forall id: nat { IdentityStep(st, e, id); }
    }
  }

  lemma {:induction false} RunKeys(events: seq<Event>)
    requires forall k :: 0 <= k < |events| ==> !events[k].TamperTenant?
    ensures KeysOk(Run(START, events))
    decreases |events|
  {
    hide Next;
    if events != [] {
      hide KeysOk;
      RunKeys(events[..|events| - 1]);
      KeysKept(Run(START, events[..|events| - 1]), events[|events| - 1]);
    }
  }

  /** However often one run (or the operators) proposes an effect, it is executed at
      most once: executions of one effect with one origin are one and the same. */
  lemma {:induction false} EffectOncePerOrigin(events: seq<Event>, x: Execution, y: Execution)
    requires forall k :: 0 <= k < |events| ==> !events[k].TamperTenant?
    requires x in Run(START, events).executions && y in Run(START, events).executions
    requires x.effect == y.effect
    ensures x.id in Run(START, events).rows && y.id in Run(START, events).rows
    ensures Run(START, events).rows[x.id].key.run == Run(START, events).rows[y.id].key.run ==> x.id == y.id
    ensures TimesExecuted(Run(START, events).executions, x.id) <= 1
  {
    hide Run;
    RunInvariant(events);
    RunKeys(events);
    var st := Run(START, events);
    assert Entitled(st, x) && Entitled(st, y);
  }
}

/** What the ledger's events bring about (agentcore/tools/actions.py, lines 59-90 and 167-447). */
module LedgerOutcomes {
  import opened Text
  import opened Principals
  import opened Ledger
  import opened LedgerRuns

  /** The row can be settled now: it is pending, and no confirmation holds it. */
  predicate Open(st: State, id: nat) {
    id in st.rows && st.rows[id].status == Pending && id !in st.locks
  }

  /** The two states differ in the status of one row alone. */
  predicate OnlyStatus(st: State, st': State, id: nat, to: Status) {
    && id in st.rows && st'.rows == st.rows[id := st.rows[id].(status := to)]
    && st'.executions == st.executions && st'.credits == st.credits && st'.locks == st.locks
    && st'.sessions == st.sessions && st'.clock == st.clock && st'.prepared == st.prepared
  }

  // ---- one event ------------------------------------------------------------

  /** A rejection of an open row settles it, touches nothing else and is audited; any other
      rejection does nothing. */
  lemma {:induction false} RejectSettles(st: State, who: Principal, id: nat)
    ensures var st' := Next(st, Reject(who, id));
            if Open(st, id) then
              OnlyStatus(st, st', id, Rejected) && st'.audit == st.audit + [RejectedEntry(id, who)]
            else st' == st
  {
  }

  /** A withdrawal does the same without an audit entry. */
  lemma {:induction false} WithdrawSettles(st: State, id: nat)
    ensures var st' := Next(st, Withdraw(id));
            if Open(st, id) then OnlyStatus(st, st', id, Rejected) && st'.audit == st.audit else st' == st
  {
  }

  /** Past its deadline, and still pending. */
  predicate Overdue(st: State, id: nat) {
    id in st.rows && st.rows[id].status == Pending && !Before(st.clock, st.rows[id].expiresAt)
  }

  ghost predicate NoneOverdueLocked(st: State) {
    forall id :: Overdue(st, id) ==> id !in st.locks
  }

  /** A sweep waits for the overdue rows that are locked; then it expires every overdue row,
      leaves every other row, and touches nothing else. */
  lemma {:induction false} SweepSettles(st: State)
    ensures var st' := Next(st, Sweep);
            if NoneOverdueLocked(st) then
              && st' == st.(rows := st'.rows) && st'.rows.Keys == st.rows.Keys
              && forall id :: id in st.rows ==>
                   st'.rows[id] == if Overdue(st, id) then st.rows[id].(status := Expired) else st.rows[id]
            else st' == st
  {
    hide Before;
    assert forall id :: Overdue(st, id) <==> id in st.rows && Stale(st.rows[id], st.clock);
  }

  /** What a role may propose, and for whom. */
  predicate Proposes(e: Event)
    requires e.Prepare?
  {
    && (e.kind in {EscalateTicket, CreateFollowUp} || e.who.role in {SupportAgent, OperationsAdmin})
    && (e.who.role == Customer ==> e.who.account == Some(e.account))
  }

  /** No row of this tenant was proposed by the same run, for the same type and effect. */
  ghost predicate NewKey(st: State, e: Event)
    requires e.Prepare?
  {
    var key := Key(e.run, e.kind, Sha256(PreparedEffect(e.who, e.kind, e.account, e.payload)));
    forall i :: i in st.rows && st.rows[i].effect.tenant == e.who.tenant ==> st.rows[i].key != key
  }

  /** Preparing stores one pending row, of the caller's tenant and for the account and payload
      named, exactly when the role allows it and nothing stands under the same key. */
  lemma {:induction false} PrepareStores(st: State, e: Event)
    requires e.Prepare? && e.id !in st.rows
    ensures var st' := Next(st, e);
            if Proposes(e) && NewKey(st, e) then
              && st' == st.(rows := st'.rows, prepared := st'.prepared)
              && st'.rows.Keys == st.rows.Keys + {e.id} && (forall i :: i in st.rows ==> st'.rows[i] == st.rows[i])
              && var row := st'.rows[e.id];
                 && row.effect == Effect(e.who.tenant, e.account, e.kind, e.payload) && row.status == Pending
                 && row.expiresAt == e.expiresAt && row.digest == Sha256(row.effect)
                 && row.key == Key(e.run, e.kind, row.digest)
                 && st'.prepared == st.prepared[e.id := row.effect]
            else st' == st
  {
  }

  /** The clock follows the time, and nothing else moves it. */
  lemma {:induction false} ClockFollows(st: State, e: Event)
    ensures Next(st, e).clock == if e.Tick? && Before(st.clock, e.now) then e.now else st.clock
  {
    hide Before, ExecutorAccepts, KeyTaken, MayPrepare, Stale, CreditsOf, MayConfirm;
  }

  /** Time is ordered: a month before the next, and within it by the tick. */
  lemma {:induction false} TimeIsOrdered(a: Instant, b: Instant, c: Instant)
    ensures !Before(a, a) && (Before(a, b) && Before(b, c) ==> Before(a, c))
    ensures a == b || Before(a, b) || Before(b, a)
    ensures a.month < b.month ==> Before(a, b)
  {
  }

  // ---- over runs ------------------------------------------------------------

  lemma {:induction false} RunSnoc(st: State, events: seq<Event>, e: Event)
    ensures Run(st, events + [e]) == Next(Run(st, events), e)
  {
    hide Next;
    assert (events + [e])[..|events|] == events;
  }

  /** A row that an event has settled without executing it is never executed. */
  lemma {:induction false} SettledUnexecuted(events: seq<Event>, e: Event, more: seq<Event>, id: nat)
    requires Open(Run(START, events), id) && !e.Commit?
    requires id in Next(Run(START, events), e).rows && Next(Run(START, events), e).rows[id].status != Pending
    ensures TimesExecuted(Run(Next(Run(START, events), e), more).executions, id) == 0
  {
    hide Run, Next;
    RunSnoc(START, events, e);
    SettledForever(events + [e], more, id);
    AtMostOnce(events, id);
    TablesStep(Run(START, events), e);
  }

  /** From any reachable state: an action the operator declined is never executed. */
  lemma {:induction false} RejectedNeverExecutes(events: seq<Event>, who: Principal, id: nat, more: seq<Event>)
    requires Open(Run(START, events), id)
    ensures var st := Next(Run(START, events), Reject(who, id));
            st.rows[id].status == Rejected && TimesExecuted(Run(st, more).executions, id) == 0
  {
    hide Run, Next;
    RejectSettles(Run(START, events), who, id);
    SettledUnexecuted(events, Reject(who, id), more, id);
  }

  /** Nor is a proposal that was withdrawn. */
  lemma {:induction false} WithdrawnNeverExecutes(events: seq<Event>, id: nat, more: seq<Event>)
    requires Open(Run(START, events), id)
    ensures var st := Next(Run(START, events), Withdraw(id));
            st.rows[id].status == Rejected && TimesExecuted(Run(st, more).executions, id) == 0
  {
    hide Run, Next;
    WithdrawSettles(Run(START, events), id);
    SettledUnexecuted(events, Withdraw(id), more, id);
  }

  /** Nor is one that a sweep found overdue. */
  lemma {:induction false} SweptNeverExecutes(events: seq<Event>, id: nat, more: seq<Event>)
    requires Overdue(Run(START, events), id) && NoneOverdueLocked(Run(START, events))
    ensures var st := Next(Run(START, events), Sweep);
            id in st.rows && st.rows[id].status == Expired && TimesExecuted(Run(st, more).executions, id) == 0
  {
    hide Run, Next, Before;
    SweepSettles(Run(START, events));
    SettledUnexecuted(events, Sweep, more, id);
  }

  /** Credits and order updates are executed by operations admins only, and nothing ever by a
      customer. */
  lemma {:induction false} RolesExecute(events: seq<Event>, x: Execution)
    requires x in Run(START, events).executions
    ensures x.actor.role in {SupportAgent, OperationsAdmin}
    ensures x.effect.kind in {IssueServiceCredit, UpdateOrderStatus} ==> x.actor.role == OperationsAdmin
  {
    hide Run;
    AtMostOnce(events, 0);
    assert Entitled(Run(START, events), x);
  }

  /** Everyone who may is let through: staff can execute an escalation or a follow-up, and
      an operations admin anything. */
  lemma {:induction false} ConfirmableBy(role: Role, kind: ActionType)
    ensures MayConfirm(role, kind) <==>
              role == OperationsAdmin || (role == SupportAgent && kind in {EscalateTicket, CreateFollowUp})
  {
  }
}

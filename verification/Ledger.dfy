/** The action ledger (agentcore/tools/actions.py) under interleaved transactions. */
module Ledger {
  import opened Text
  import opened Principals

  datatype ActionType = EscalateTicket | CreateFollowUp | IssueServiceCredit | UpdateOrderStatus
  datatype Status = Pending | Confirmed | Executed | Rejected | Expired | Failed

  predicate MayPrepare(role: Role, kind: ActionType) {
    kind == EscalateTicket || kind == CreateFollowUp || role != Customer
  }

  predicate MayConfirm(role: Role, kind: ActionType) {
    match kind
    case EscalateTicket => role != Customer
    case CreateFollowUp => role != Customer
    case IssueServiceCredit => role == OperationsAdmin
    case UpdateOrderStatus => role == OperationsAdmin
  }

  /** Amounts are in hundredths of the currency unit. */
  datatype Payload = Credit(amount: int, monthlyCap: Option<int>) | Opaque(json: string)

  datatype Effect = Effect(tenant: string, account: string, kind: ActionType, payload: Payload)

  /** The digest of an effect. A free constructor: distinct effects have distinct digests. */
  datatype Digest = Sha256(of: Effect)

  /** A point in time: the calendar month, and the instant within it. */
  datatype Instant = Instant(month: nat, tick: nat)

  predicate Before(a: Instant, b: Instant) {
    a.month < b.month || (a.month == b.month && a.tick < b.tick)
  }

  /** The idempotency key: the run that proposed the effect (none for an operator),
      the type, and the digest. */
  datatype Key = Key(run: Option<nat>, kind: ActionType, digest: Digest)

  datatype Row = Row(effect: Effect, digest: Digest, key: Key, status: Status, expiresAt: Instant)

  datatype Execution = Execution(id: nat, effect: Effect, actor: Principal, begun: Instant)

  /** A row of service_credits. */
  datatype CreditRow = CreditRow(action: nat, tenant: string, account: string, amount: int, issued: Instant)

  datatype AuditEntry = ExecutedEntry(id: nat, actor: Principal) | RejectedEntry(id: nat, actor: Principal)

  /** Where one database session stands in a confirmation. */
  datatype Session =
    | Idle
      // The row has been read and the role checked; no lock is held.
    | Looked(id: nat, who: Principal, kind: ActionType, seen: Status, begun: Instant)
      // The conditional UPDATE matched; the row lock is held.
    | Claimed(id: nat, who: Principal, kind: ActionType, begun: Instant)
      // The effect is applied but not committed; the row lock is held.
    | Applied(id: nat, who: Principal, kind: ActionType, begun: Instant, done: Execution)
      // Rolled back; the separate transaction that records the failure is still to come.
    | MustFail(id: nat)
      // The claim missed a row last seen pending; `_expire` is still to come.
    | MustExpire(id: nat)

  /** The committed tables, the locks, the sessions, and (a history variable) what
      was prepared under each id. */
  datatype State = State(
    rows: map<nat, Row>,
    executions: seq<Execution>,
    credits: seq<CreditRow>,
    audit: seq<AuditEntry>,
    locks: map<nat, nat>,
    sessions: map<nat, Session>,
    clock: Instant,
    prepared: map<nat, Effect>)

  const START := State(map[], [], [], [], map[], map[], Instant(0, 0), map[])

  datatype Event =
    | Prepare(id: nat, who: Principal, kind: ActionType, account: string, payload: Payload, run: Option<nat>,
              expiresAt: Instant)
    | Look(s: nat, who: Principal, id: nat)
    | Claim(s: nat)
    | Execute(s: nat, ok: bool)
    | Commit(s: nat)
    | Fail(s: nat)
    | Expire(s: nat)
    | Crash(s: nat)
    | Reject(who: Principal, id: nat)
    | Withdraw(id: nat)
    | Sweep
    | Tamper(id: nat, account: string, kind: ActionType, payload: Payload)
    | TamperTenant(id: nat, tenant: string)
    | Tick(now: Instant)

  // ---- one event at a time --------------------------------------------------

  function SessionOf(st: State, s: nat): Session {
    if s in st.sessions then st.sessions[s] else Idle
  }

  function WithStatus(st: State, id: nat, status: Status): State
    requires id in st.rows
  {
    st.(rows := st.rows[id := st.rows[id].(status := status)])
  }

  function PreparedEffect(who: Principal, kind: ActionType, account: string, payload: Payload): Effect {
    Effect(who.tenant, account, kind, payload)
  }

  /** Is there already a row of this tenant with this idempotency key? */
  predicate KeyTaken(st: State, tenant: string, key: Key) {
    exists i :: i in st.rows && st.rows[i].effect.tenant == tenant && st.rows[i].key == key
  }

  function NextPrepare(st: State, e: Event): State
    requires e.Prepare?
  {
    var effect := PreparedEffect(e.who, e.kind, e.account, e.payload);
    var key := Key(e.run, e.kind, Sha256(effect));
    if !MayPrepare(e.who.role, e.kind) || (e.who.role == Customer && Some(e.account) != e.who.account)
       || e.id in st.rows || KeyTaken(st, e.who.tenant, key)
    then st
    else st.(rows := st.rows[e.id := Row(effect, Sha256(effect), key, Pending, e.expiresAt)],
             prepared := st.prepared[e.id := effect])
  }

  function NextLook(st: State, s: nat, who: Principal, id: nat): State {
    if SessionOf(st, s) != Idle || id !in st.rows || !MayConfirm(who.role, st.rows[id].effect.kind) then st
    else st.(sessions := st.sessions[s := Looked(id, who, st.rows[id].effect.kind, st.rows[id].status, st.clock)])
  }

  /** The conditional UPDATE: it waits for the row lock, then tests the committed
      row against the time its transaction began. */
  function NextClaim(st: State, s: nat): State {
    var me := SessionOf(st, s);
    if !me.Looked? || me.id in st.locks || me.id !in st.rows then st
    else if st.rows[me.id].status == Pending && Before(me.begun, st.rows[me.id].expiresAt) then
      st.(locks := st.locks[me.id := s], sessions := st.sessions[s := Claimed(me.id, me.who, me.kind, me.begun)])
    else
      st.(sessions := st.sessions[s := if me.seen == Pending then MustExpire(me.id) else Idle])
  }

  /** Credits of an account issued since the start of a month. */
  function IssuedSince(credits: seq<CreditRow>, tenant: string, account: string, month: nat): int {
    if credits == [] then 0
    else
      var c := credits[|credits| - 1];
      IssuedSince(credits[..|credits| - 1], tenant, account, month)
      + (if c.tenant == tenant && c.account == account && c.issued.month >= month then c.amount else 0)
  }

  /** Does the executor for this effect succeed? A credit must be well formed,
      positive, and within the monthly cap it carries; the other executors depend on
      data outside the ledger. */
  predicate ExecutorAccepts(st: State, effect: Effect, begun: Instant, ok: bool) {
    if effect.kind == IssueServiceCredit then
      && effect.payload.Credit? && effect.payload.amount > 0
      && (effect.payload.monthlyCap.Some? ==>
            IssuedSince(st.credits, effect.tenant, effect.account, begun.month) + effect.payload.amount
            <= effect.payload.monthlyCap.value)
    else ok
  }

  /** Digest check and executor. On either failure the transaction rolls back, which
      frees the row, and the failure is recorded later. */
  function NextExecute(st: State, s: nat, ok: bool): State {
    var me := SessionOf(st, s);
    if !me.Claimed? || me.id !in st.rows then st
    else
      var row := st.rows[me.id];
      var effect := row.effect.(kind := me.kind);
      if row.digest == Sha256(effect) && ExecutorAccepts(st, effect, me.begun, ok) then
        st.(sessions := st.sessions[s := Applied(me.id, me.who, me.kind, me.begun,
                                                 Execution(me.id, effect, me.who, me.begun))])
      else
        st.(locks := st.locks - {me.id}, sessions := st.sessions[s := MustFail(me.id)])
  }

  function CreditsOf(x: Execution): seq<CreditRow> {
    if x.effect.kind == IssueServiceCredit && x.effect.payload.Credit?
    then [CreditRow(x.id, x.effect.tenant, x.effect.account, x.effect.payload.amount, x.begun)]
    else []
  }

  function NextCommit(st: State, s: nat): State {
    var me := SessionOf(st, s);
    if !me.Applied? || me.id !in st.rows then st
    else
      WithStatus(st, me.id, Executed).(
        executions := st.executions + [me.done],
        credits := st.credits + CreditsOf(me.done),
        audit := st.audit + [ExecutedEntry(me.id, me.who)],
        locks := st.locks - {me.id},
        sessions := st.sessions[s := Idle])
  }

  /** The unconditional write of `_fail`. */
  function NextFail(st: State, s: nat): State {
    var me := SessionOf(st, s);
    if !me.MustFail? || me.id in st.locks || me.id !in st.rows then st
    else WithStatus(st, me.id, Failed).(sessions := st.sessions[s := Idle])
  }

  function NextExpire(st: State, s: nat): State {
    var me := SessionOf(st, s);
    if !me.MustExpire? || me.id in st.locks || me.id !in st.rows then st
    else
      (if st.rows[me.id].status == Pending then WithStatus(st, me.id, Expired) else st)
      .(sessions := st.sessions[s := Idle])
  }

  /** A session dies; the database rolls its open transaction back. */
  function NextCrash(st: State, s: nat): State {
    var me := SessionOf(st, s);
    if me.Claimed? || me.Applied? then st.(locks := st.locks - {me.id}, sessions := st.sessions[s := Idle])
    else st.(sessions := st.sessions[s := Idle])
  }

  function NextReject(st: State, who: Principal, id: nat): State {
    if id !in st.rows || id in st.locks || st.rows[id].status != Pending then st
    else WithStatus(st, id, Rejected).(audit := st.audit + [RejectedEntry(id, who)])
  }

  function NextWithdraw(st: State, id: nat): State {
    if id !in st.rows || id in st.locks || st.rows[id].status != Pending then st
    else WithStatus(st, id, Rejected)
  }

  predicate Stale(row: Row, now: Instant) {
    row.status == Pending && !Before(now, row.expiresAt)
  }

  function Swept(rows: map<nat, Row>, now: Instant): map<nat, Row> {
    map i | i in rows :: if Stale(rows[i], now) then rows[i].(status := Expired) else rows[i]
  }

  function NextSweep(st: State): State {
    if exists i :: i in st.rows && Stale(st.rows[i], st.clock) && i in st.locks then st
    else st.(rows := Swept(st.rows, st.clock))
  }

  /** Someone edits columns of a stored row, but not its digest. */
  function NextTamper(st: State, id: nat, account: string, kind: ActionType, payload: Payload): State {
    if id !in st.rows || id in st.locks then st
    else st.(rows := st.rows[id := st.rows[id].(effect := Effect(st.rows[id].effect.tenant, account, kind, payload))])
  }

  function NextTamperTenant(st: State, id: nat, tenant: string): State {
    if id !in st.rows || id in st.locks || KeyTaken(st, tenant, st.rows[id].key) then st
    else st.(rows := st.rows[id := st.rows[id].(effect := st.rows[id].effect.(tenant := tenant))])
  }

  /** The effect of one event: sessions look at rows, take and release row locks, and
      commit or roll back, in any order. An event that cannot happen in a state (a
      statement that would wait for a lock, say) leaves it unchanged, so every list of
      events is a run. */
  function Next(st: State, e: Event): State {
    match e
    case Prepare(_, _, _, _, _, _, _) => NextPrepare(st, e)
    case Look(s, who, id) => NextLook(st, s, who, id)
    case Claim(s) => NextClaim(st, s)
    case Execute(s, ok) => NextExecute(st, s, ok)
    case Commit(s) => NextCommit(st, s)
    case Fail(s) => NextFail(st, s)
    case Expire(s) => NextExpire(st, s)
    case Crash(s) => NextCrash(st, s)
    case Reject(who, id) => NextReject(st, who, id)
    case Withdraw(id) => NextWithdraw(st, id)
    case Sweep => NextSweep(st)
    case Tamper(id, account, kind, payload) => NextTamper(st, id, account, kind, payload)
    case TamperTenant(id, tenant) => NextTamperTenant(st, id, tenant)
    case Tick(now) => if Before(st.clock, now) then st.(clock := now) else st
  }

  /** The state after a list of events. */
  function Run(st: State, events: seq<Event>): State {
    if events == [] then st else Next(Run(st, events[..|events| - 1]), events[|events| - 1])
  }

  // ---- counting -------------------------------------------------------------

  function TimesExecuted(executions: seq<Execution>, id: nat): nat {
    if executions == [] then 0
    else
      var n := |executions| - 1;
      TimesExecuted(executions[..n], id) + (if executions[n].id == id then 1 else 0)
  }

  function TimesAudited(audit: seq<AuditEntry>, id: nat): nat {
    if audit == [] then 0
    else
      var n := |audit| - 1;
      TimesAudited(audit[..n], id) + (if audit[n].ExecutedEntry? && audit[n].id == id then 1 else 0)
  }

  lemma {:induction false} TimesExecutedSnoc(executions: seq<Execution>, x: Execution, id: nat)
    ensures TimesExecuted(executions + [x], id) == TimesExecuted(executions, id) + (if x.id == id then 1 else 0)
  {
    assert (executions + [x])[..|executions|] == executions;
  }

  lemma {:induction false} TimesAuditedSnoc(audit: seq<AuditEntry>, a: AuditEntry, id: nat)
    ensures TimesAudited(audit + [a], id) ==
              TimesAudited(audit, id) + (if a.ExecutedEntry? && a.id == id then 1 else 0)
  {
    assert (audit + [a])[..|audit|] == audit;
  }

  // ---- what every step keeps ------------------------------------------------

  predicate Holds(me: Session, id: nat) {
    (me.Claimed? || me.Applied?) && me.id == id
  }

  /** Locks and lock-holding sessions match one to one, and the committed version of
      a locked row is pending. */
  ghost predicate LocksOk(st: State) {
    && (forall id :: id in st.locks ==> st.locks[id] in st.sessions && Holds(st.sessions[st.locks[id]], id))
    && (forall s :: s in st.sessions && (st.sessions[s].Claimed? || st.sessions[s].Applied?) ==>
          var id := st.sessions[s].id;
          && id in st.locks && st.locks[id] == s
          && id in st.rows && st.rows[id].status == Pending)
  }

  /** At most one execution per row, none while it is pending, and one audit entry
      for each. */
  ghost predicate CountsOk(st: State) {
    && (forall id :: TimesExecuted(st.executions, id) <= 1)
    && (forall id :: TimesExecuted(st.executions, id) > 0 ==> id in st.rows && st.rows[id].status != Pending)
    && (forall id :: TimesAudited(st.audit, id) == TimesExecuted(st.executions, id))
  }

  /** What a row keeps from one state to a later one: it is never lost, its digest,
      key and deadline are fixed, and once settled it never becomes pending again. */
  ghost predicate RowLater(st: State, st': State, id: nat)
    requires id in st.rows
  {
    && id in st'.rows
    && st'.rows[id].digest == st.rows[id].digest
    && st'.rows[id].key == st.rows[id].key
    && st'.rows[id].expiresAt == st.rows[id].expiresAt
    && (st.rows[id].status != Pending ==> st'.rows[id].status != Pending)
    && (id in st.prepared ==> id in st'.prepared && st'.prepared[id] == st.prepared[id])
  }

  lemma {:induction false} RowStep(st: State, e: Event, id: nat)
    requires id in st.rows
    ensures RowLater(st, Next(st, e), id)
  {
    if Actor(e).Some? {
      RowStepByActor(st, e, id);
    } else {
      hide KeyTaken, Before, MayConfirm, MayPrepare, Stale;
    }
  }

  lemma {:induction false} RowStepByActor(st: State, e: Event, id: nat)
    requires id in st.rows && Actor(e).Some?
    ensures RowLater(st, Next(st, e), id)
  {
    hide KeyTaken, ExecutorAccepts, CreditsOf, Before, MayConfirm, MayPrepare;
  }

  /** Only a commit executes, and only a commit or a rejection is audited. */
  lemma {:induction false} TablesStep(st: State, e: Event)
    ensures !e.Commit? ==> Next(st, e).executions == st.executions && Next(st, e).credits == st.credits
    ensures !e.Commit? && !e.Reject? ==> Next(st, e).audit == st.audit
  {
    hide KeyTaken, ExecutorAccepts, CreditsOf, Before, MayConfirm, MayPrepare, Swept;
  }

  lemma {:induction false} LocksKeptByTransaction(st: State, e: Event)
    requires LocksOk(st) && (e.Claim? || e.Execute? || e.Commit?)
    ensures LocksOk(Next(st, e))
  {
    hide KeyTaken, ExecutorAccepts, CreditsOf, Before, MayConfirm, MayPrepare;
  }

  lemma {:induction false} LocksKeptBySession(st: State, e: Event)
    requires LocksOk(st) && (e.Look? || e.Fail? || e.Expire? || e.Crash?)
    ensures LocksOk(Next(st, e))
  {
    hide KeyTaken, Before, MayConfirm, MayPrepare;
  }

  lemma {:induction false} LocksKept(st: State, e: Event)
    requires LocksOk(st)
    ensures LocksOk(Next(st, e))
  {
    hide KeyTaken, Before, MayConfirm, MayPrepare;
    if e.Claim? || e.Execute? || e.Commit? {
      LocksKeptByTransaction(st, e);
    } else if e.Look? || e.Fail? || e.Expire? || e.Crash? {
      LocksKeptBySession(st, e);
    }
  }

  /** What a commit writes. */
  lemma {:induction false} CommitTables(st: State, s: nat)
    requires LocksOk(st) && SessionOf(st, s).Applied?
    ensures var me, st' := SessionOf(st, s), Next(st, Commit(s));
            && me.id in st.rows && st.rows[me.id].status == Pending
            && st'.rows == st.rows[me.id := st.rows[me.id].(status := Executed)]
            && st'.executions == st.executions + [me.done] && st'.audit == st.audit + [ExecutedEntry(me.id, me.who)]
  {
    hide CreditsOf;
  }

  lemma {:induction false} CountsKeptByCommit(st: State, s: nat)
    requires LocksOk(st) && CountsOk(st) && SessionOf(st, s).Applied?
    requires SessionOf(st, s).done.id == SessionOf(st, s).id
    ensures CountsOk(Next(st, Commit(s)))
  {
    var me := SessionOf(st, s);
    var st' := Next(st, Commit(s));
    hide Next, LocksOk, TimesExecuted, TimesAudited;
    CommitTables(st, s);
    forall id: nat
      ensures TimesExecuted(st'.executions, id) <= 1
      ensures TimesExecuted(st'.executions, id) > 0 ==> id in st'.rows && st'.rows[id].status != Pending
      ensures TimesAudited(st'.audit, id) == TimesExecuted(st'.executions, id)
    {
      TimesExecutedSnoc(st.executions, me.done, id);
      TimesAuditedSnoc(st.audit, ExecutedEntry(me.id, me.who), id);
    }
  }

  lemma {:induction false} CountsKept(st: State, e: Event)
    requires LocksOk(st) && CountsOk(st)
    requires forall s :: s in st.sessions && st.sessions[s].Applied? ==> st.sessions[s].done.id == st.sessions[s].id
    ensures CountsOk(Next(st, e))
  {
    if e.Commit? && SessionOf(st, e.s).Applied? {
      CountsKeptByCommit(st, e.s);
    } else {
      hide Next, LocksOk;
      var st' := Next(st, e);
      if e.Commit? { CommitNeedsApplied(st, e); }
      TablesStep(st, e);
      forall id: nat
        ensures TimesExecuted(st'.executions, id) > 0 ==> id in st'.rows && st'.rows[id].status != Pending
        ensures TimesAudited(st'.audit, id) == TimesExecuted(st'.executions, id)
      {
        if TimesExecuted(st.executions, id) > 0 { RowStep(st, e, id); }
        if e.Reject? { RejectionAudit(st, e.who, e.id, id); }
      }
    }
  }

  lemma {:induction false} CommitNeedsApplied(st: State, e: Event)
    requires e.Commit? && !SessionOf(st, e.s).Applied?
    ensures Next(st, e) == st
  {
  }

  lemma {:induction false} RejectionAudit(st: State, who: Principal, id: nat, i: nat)
    ensures TimesAudited(Next(st, Reject(who, id)).audit, i) == TimesAudited(st.audit, i)
  {
    TimesAuditedSnoc(st.audit, RejectedEntry(id, who), i);
  }

  ghost predicate Later(st: State, st': State) {
    && !Before(st'.clock, st.clock)
    && forall id :: id in st.rows ==> RowLater(st, st', id)
  }

  lemma {:induction false} NextIsLater(st: State, e: Event)
    ensures Later(st, Next(st, e))
  {
    hide KeyTaken, ExecutorAccepts, CreditsOf, MayConfirm, MayPrepare, Swept, RowLater;
    assert !Before(Next(st, e).clock, st.clock);
    forall id | id in st.rows ensures RowLater(st, Next(st, e), id) { RowStep(st, e, id); }
  }

  ghost predicate SessionOk(st: State, me: Session) {
    match me
    case Idle => true
    case Looked(id, who, kind, _, begun) =>
      id in st.rows && MayConfirm(who.role, kind) && !Before(st.clock, begun)
    case Claimed(id, who, kind, begun) =>
      id in st.rows && MayConfirm(who.role, kind) && Before(begun, st.rows[id].expiresAt)
    case Applied(id, who, kind, begun, done) =>
      && id in st.rows && MayConfirm(who.role, kind) && Before(begun, st.rows[id].expiresAt)
      && id in st.prepared && done == Execution(id, st.prepared[id], who, begun) && done.effect.kind == kind
      && (kind == IssueServiceCredit ==> done.effect.payload.Credit? && done.effect.payload.amount > 0)
    case MustFail(id) => id in st.rows
    case MustExpire(id) =>
      id in st.rows && (st.rows[id].status != Pending || !Before(st.clock, st.rows[id].expiresAt))
  }

  ghost predicate SessionsOk(st: State) {
    forall s :: s in st.sessions ==> SessionOk(st, st.sessions[s])
  }

  /** Rows carry the digest of what was prepared. */
  ghost predicate DigestsOk(st: State) {
    && st.prepared.Keys == st.rows.Keys
    && forall id :: id in st.rows ==> st.rows[id].digest == Sha256(st.prepared[id])
  }

  /** What an execution was entitled to do. */
  ghost predicate Entitled(st: State, x: Execution) {
    && x.id in st.rows && x.id in st.prepared
    && x.effect == st.prepared[x.id]
    && MayConfirm(x.actor.role, x.effect.kind)
    && Before(x.begun, st.rows[x.id].expiresAt)
  }

  ghost predicate ExecutionsOk(st: State) {
    forall x :: x in st.executions ==> Entitled(st, x)
  }

  /** Nothing is marked expired early. */
  ghost predicate ExpiryOk(st: State) {
    forall id :: id in st.rows && st.rows[id].status == Expired ==> !Before(st.clock, st.rows[id].expiresAt)
  }

  ghost predicate Invariant(st: State) {
    LocksOk(st) && CountsOk(st) && SessionsOk(st) && DigestsOk(st) && ExecutionsOk(st) && ExpiryOk(st)
  }

  /** A session's own facts survive whatever others do. */
  lemma {:induction false} SessionOkLater(st: State, st': State, me: Session)
    requires Later(st, st') && SessionOk(st, me)
    ensures SessionOk(st', me)
  {
    hide MayConfirm;
  }

  /** The session an event belongs to. */
  function Actor(e: Event): Option<nat> {
    match e
    case Look(s, _, _) => Some(s)
    case Claim(s) => Some(s)
    case Execute(s, _) => Some(s)
    case Commit(s) => Some(s)
    case Fail(s) => Some(s)
    case Expire(s) => Some(s)
    case Crash(s) => Some(s)
    case _ => None
  }

  lemma {:induction false} OtherSessionsStay(st: State, e: Event, s: nat)
    requires Actor(e) != Some(s)
    ensures s in Next(st, e).sessions <==> s in st.sessions
    ensures s in st.sessions ==> Next(st, e).sessions[s] == st.sessions[s]
  {
    hide KeyTaken, ExecutorAccepts, CreditsOf, MayConfirm, MayPrepare, Before, Swept;
  }

  lemma {:induction false} OwnSessionOk(st: State, e: Event, s: nat)
    requires Invariant(st) && Actor(e) == Some(s)
    ensures SessionOk(Next(st, e), SessionOf(Next(st, e), s))
  {
    hide KeyTaken, CreditsOf, MayConfirm, MayPrepare, IssuedSince, CountsOk, ExecutionsOk, ExpiryOk, LocksOk;
    if s in st.sessions { assert SessionOk(st, st.sessions[s]); }
  }

  lemma {:induction false} SessionsKept(st: State, e: Event)
    requires Invariant(st)
    ensures SessionsOk(Next(st, e))
  {
    hide Next, SessionOk, LocksOk, CountsOk, DigestsOk, ExecutionsOk, ExpiryOk, Later;
    assert SessionsOk(st);
    NextIsLater(st, e);
    forall s | s in Next(st, e).sessions ensures SessionOk(Next(st, e), Next(st, e).sessions[s]) {
      if Actor(e) == Some(s) {
        OwnSessionOk(st, e, s);
      } else {
        OtherSessionsStay(st, e, s);
        SessionOkLater(st, Next(st, e), st.sessions[s]);
      }
    }
  }

  lemma {:induction false} DigestsKept(st: State, e: Event)
    requires DigestsOk(st)
    ensures DigestsOk(Next(st, e))
  {
    if Actor(e).Some? {
      DigestsKeptByActor(st, e);
    } else {
      hide KeyTaken, Before, MayConfirm, MayPrepare, Stale;
    }
  }

  lemma {:induction false} DigestsKeptByActor(st: State, e: Event)
    requires DigestsOk(st) && Actor(e).Some?
    ensures DigestsOk(Next(st, e))
  {
    hide KeyTaken, ExecutorAccepts, CreditsOf, Before, MayConfirm, MayPrepare;
  }

  lemma {:induction false} EntitledLater(st: State, st': State, x: Execution)
    requires Later(st, st') && Entitled(st, x)
    ensures Entitled(st', x)
  {
    hide Before, MayConfirm;
    assert RowLater(st, st', x.id);
  }

  lemma {:induction false} CommitExecutes(st: State, s: nat)
    requires SessionsOk(st) && SessionOf(st, s).Applied?
    ensures Next(st, Commit(s)).executions == st.executions + [SessionOf(st, s).done]
    ensures Entitled(st, SessionOf(st, s).done)
  {
    assert SessionOk(st, st.sessions[s]);
  }

  lemma {:induction false} ExecutionsKept(st: State, e: Event)
    requires Invariant(st)
    ensures ExecutionsOk(Next(st, e))
  {
    hide Next, Entitled, Later, LocksOk, CountsOk, DigestsOk, ExpiryOk;
    NextIsLater(st, e);
    if e.Commit? && SessionOf(st, e.s).Applied? {
      CommitExecutes(st, e.s);
      EntitledLater(st, Next(st, e), SessionOf(st, e.s).done);
    } else if e.Commit? {
      CommitNeedsApplied(st, e);
    } else {
      TablesStep(st, e);
    }
    forall x | x in st.executions ensures Entitled(Next(st, e), x) { EntitledLater(st, Next(st, e), x); }
  }

  lemma {:induction false} ExpiryKept(st: State, e: Event)
    requires Invariant(st)
    ensures ExpiryOk(Next(st, e))
  {
    hide KeyTaken, ExecutorAccepts, CreditsOf, MayConfirm, MayPrepare, CountsOk, ExecutionsOk, LocksOk, DigestsOk;
    if Actor(e).Some? && Actor(e).value in st.sessions {
      assert SessionOk(st, st.sessions[Actor(e).value]);
    }
  }

  lemma {:induction false} InvariantStep(st: State, e: Event)
    requires Invariant(st)
    ensures Invariant(Next(st, e))
  {
    hide Next, CountsOk, DigestsOk, ExecutionsOk, ExpiryOk, LocksOk;
    LocksKept(st, e);
    assert forall s :: s in st.sessions ==> SessionOk(st, st.sessions[s]);
    CountsKept(st, e);
    SessionsKept(st, e);
    DigestsKept(st, e);
    ExecutionsKept(st, e);
    ExpiryKept(st, e);
  }

  // ---- safety over whole runs -----------------------------------------------

  /** Over every interleaving: each action is executed at most once, a pending one
      not at all, each execution has its one audit entry, and it is exactly the effect
      that was prepared, committed by a role entitled to it, in a transaction that began
      before the approval expired. */
  lemma {:induction false} AtMostOnce(events: seq<Event>, id: nat)
    ensures var st := Run(START, events);
            && TimesExecuted(st.executions, id) <= 1
            && (id in st.rows && st.rows[id].status == Pending ==> TimesExecuted(st.executions, id) == 0)
            && TimesAudited(st.audit, id) == TimesExecuted(st.executions, id)
            && (forall x :: x in st.executions ==> Entitled(st, x))
  {
    hide Run;
    RunInvariant(events);
  }

  /** Every reachable state satisfies the invariant. */
  lemma {:induction false} RunInvariant(events: seq<Event>)
    ensures Invariant(Run(START, events))
    decreases |events|
  {
    hide Next;
    if events == [] {
    } else {
      hide Invariant;
      RunInvariant(events[..|events| - 1]);
      InvariantStep(Run(START, events[..|events| - 1]), events[|events| - 1]);
    }
  }
}

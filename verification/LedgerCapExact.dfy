/** Exactly how much an account can be issued under its monthly cap when confirmations
    overlap (agentcore/tools/actions.py, lines 271-368 and 496-550).

    The check reads committed credits, so every pending credit that fits by itself can pass
    it before any of them commits. What can be issued is then what was issued before and all
    of those together: no interleaving issues more, and one issues as much. */
module LedgerCapExact {
  import opened Text
  import opened Principals
  import opened Ledger
  import opened LedgerRuns
  import opened LedgerCaps

  /** An account, and the one cap its proposed credits carry. */
  datatype Cap = Cap(tenant: string, account: string, limit: int)

  predicate CreditsTo(effect: Effect, cap: Cap) {
    Credits(effect, cap.tenant, cap.account)
  }

  /** What the executor compares with the cap: credits since the start of the month. */
  function Issued(st: State, cap: Cap, month: nat): int {
    IssuedSince(st.credits, cap.tenant, cap.account, month)
  }

  function Amount(st: State, id: nat): int {
    if id in st.rows && st.rows[id].effect.payload.Credit? then st.rows[id].effect.payload.amount else 0
  }

  /** A pending credit to the account that, confirmed now and alone, would be executed. */
  predicate Confirmable(st: State, cap: Cap, id: nat) {
    && id in st.rows && st.rows[id].status == Pending && st.rows[id].digest == Sha256(st.rows[id].effect)
    && CreditsTo(st.rows[id].effect, cap) && Amount(st, id) > 0
    && Before(st.clock, st.rows[id].expiresAt)
    && Issued(st, cap, st.clock.month) + Amount(st, id) <= cap.limit
  }

  predicate Distinct(ids: seq<nat>) {
    forall i, j :: 0 <= i < j < |ids| ==> ids[i] != ids[j]
  }

  ghost predicate ListsConfirmable(st: State, cap: Cap, ids: seq<nat>) {
    Distinct(ids) && forall id :: id in ids <==> Confirmable(st, cap, id)
  }

  function Sum(st: State, ids: seq<nat>): int {
    if ids == [] then 0 else Sum(st, ids[..|ids| - 1]) + Amount(st, ids[|ids| - 1])
  }

  ghost predicate OneLimit(st: State, cap: Cap) {
    forall id :: id in st.prepared ==> CarriesCap(st.prepared[id], cap.tenant, cap.account, cap.limit)
  }

  /** A reachable state in which no confirmation is under way. */
  ghost predicate Ready(st: State, cap: Cap) {
    && Invariant(st) && Positive(st.credits) && OneLimit(st, cap)
    && st.locks == map[] && forall s :: s in st.sessions ==> st.sessions[s] == Idle
  }

  /** Anything but proposing another credit to the account, editing a row, or leaving the
      month. */
  predicate Ordinary(e: Event, cap: Cap, month: nat) {
    && (e.Prepare? ==> !CreditsTo(PreparedEffect(e.who, e.kind, e.account, e.payload), cap))
    && !e.Tamper? && !e.TamperTenant?
    && (e.Tick? ==> e.now.month <= month)
  }

  predicate AllOrdinary(events: seq<Event>, cap: Cap, month: nat) {
    forall k :: 0 <= k < |events| ==> Ordinary(events[k], cap, month)
  }

  // ---- every run with one cap gets ready ------------------------------------

  lemma {:induction false} PositiveStep(st: State, e: Event)
    requires Invariant(st) && Positive(st.credits)
    ensures Positive(Next(st, e).credits)
  {
    hide LocksOk, CountsOk, DigestsOk, ExecutionsOk, ExpiryOk, CreditsOf, Positive;
    if e.Commit? && SessionOf(st, e.s).Applied? {
      assert SessionOk(st, st.sessions[e.s]);
      PositiveSnoc(st.credits, SessionOf(st, e.s).done);
    } else if e.Commit? {
      CommitNeedsApplied(st, e);
    } else {
      hide Next;
      TablesStep(st, e);
    }
  }

  /** After any run whose credits to the account carry one cap. */
  lemma {:induction false} RunIsPositive(events: seq<Event>, cap: Cap)
    requires OneCap(events, cap.tenant, cap.account, cap.limit)
    ensures var st := Run(START, events); Invariant(st) && Positive(st.credits) && OneLimit(st, cap)
    decreases |events|
  {
    hide Next, Invariant, CarriesCap;
    RunInvariant(events);
    if events != [] {
      hide Positive;
      var n := |events| - 1;
      assert ProposesCap(events[n], cap.tenant, cap.account, cap.limit);
      RunIsPositive(events[..n], cap);
      var st := Run(START, events[..n]);
      PositiveStep(st, events[n]);
      PreparedStep(st, events[n], cap.tenant, cap.account, cap.limit);
    }
  }

  // ---- no continuation issues more ------------------------------------------

  /** A transaction begun in the month, not before the quiet state. */
  predicate Since(st: State, begun: Instant) {
    begun.month == st.clock.month && !Before(begun, st.clock)
  }

  ghost predicate RowsFrom(st: State, now: State, cap: Cap) {
    forall id :: id in now.rows ==>
      if id in st.rows then now.rows[id].effect == st.rows[id].effect else !CreditsTo(now.rows[id].effect, cap)
  }

  ghost predicate SessionFrom(st: State, now: State, cap: Cap, me: Session) {
    match me
    case Looked(id, _, kind, _, begun) => id in now.rows && kind == now.rows[id].effect.kind && Since(st, begun)
    case Claimed(id, _, kind, begun) => id in now.rows && kind == now.rows[id].effect.kind && Since(st, begun)
    case Applied(id, _, _, _, done) =>
      CreditsTo(done.effect, cap) ==> Confirmable(st, cap, id) && done.id == id && done.effect == st.rows[id].effect
    case _ => true
  }

  ghost predicate SessionsFrom(st: State, now: State, cap: Cap) {
    forall s :: s in now.sessions ==> SessionFrom(st, now, cap, now.sessions[s])
  }

  /** What a continuation keeps of the quiet state. */
  ghost predicate From(st: State, now: State, cap: Cap) {
    && Invariant(now) && Positive(now.credits) && Later(st, now) && now.clock.month == st.clock.month
    && RowsFrom(st, now, cap) && SessionsFrom(st, now, cap)
    && Issued(st, cap, st.clock.month) <= Issued(now, cap, st.clock.month)
  }

  lemma {:induction false} LaterTransitive(a: State, b: State, c: State)
    requires Later(a, b) && Later(b, c)
    ensures Later(a, c)
  {
    forall id | id in a.rows ensures RowLater(a, c, id) { assert RowLater(a, b, id) && RowLater(b, c, id); }
  }

  lemma {:induction false} RowsFromStep(st: State, now: State, e: Event, cap: Cap)
    requires Invariant(now) && Later(st, now) && RowsFrom(st, now, cap) && Ordinary(e, cap, st.clock.month)
    ensures RowsFrom(st, Next(now, e), cap)
  {
    hide Next, Invariant, CreditsTo, Moves;
    var after := Next(now, e);
    forall id | id in after.rows
      ensures if id in st.rows then after.rows[id].effect == st.rows[id].effect else !CreditsTo(after.rows[id].effect, cap)
    {
      assert id in st.rows ==> RowLater(st, now, id);
      NewRow(now, e, id);
      if id in now.rows { RowsMoveByProtocol(now, e, id); }
    }
  }

  /** Only preparing adds a row. */
  lemma {:induction false} NewRow(st: State, e: Event, id: nat)
    requires id in Next(st, e).rows
    ensures id in st.rows || (e.Prepare? && e.id == id
                              && Next(st, e).rows[id].effect == PreparedEffect(e.who, e.kind, e.account, e.payload))
  {
    hide KeyTaken, ExecutorAccepts, CreditsOf, Before, MayConfirm, MayPrepare;
  }

  lemma {:induction false} ClockStep(now: State, e: Event, cap: Cap)
    requires Ordinary(e, cap, now.clock.month)
    ensures Next(now, e).clock.month == now.clock.month
  {
    hide KeyTaken, ExecutorAccepts, CreditsOf, MayConfirm, MayPrepare, Swept, CreditsTo;
  }

  lemma {:induction false} SinceNow(st: State, now: State)
    requires Later(st, now) && now.clock.month == st.clock.month
    ensures Since(st, now.clock)
  {
  }

  /** Whatever a session did not do itself leaves what is known of it. */
  lemma {:induction false} SessionFromStays(st: State, now: State, e: Event, cap: Cap, me: Session)
    requires Invariant(now) && SessionFrom(st, now, cap, me) && !e.Tamper? && !e.TamperTenant?
    ensures SessionFrom(st, Next(now, e), cap, me)
  {
    hide Next, Invariant, Moves, CreditsTo, Confirmable, Since;
    if me.Looked? || me.Claimed? { RowsMoveByProtocol(now, e, me.id); }
  }

  lemma {:induction false} IssuedSnoc(credits: seq<CreditRow>, x: Execution, cap: Cap, month: nat)
    ensures IssuedSince(credits + CreditsOf(x), cap.tenant, cap.account, month) ==
              IssuedSince(credits, cap.tenant, cap.account, month) +
              (if CreditsTo(x.effect, cap) && x.effect.payload.Credit? && x.begun.month >= month
               then x.effect.payload.amount else 0)
  {
    if CreditsOf(x) == [] {
      assert credits + [] == credits;
    } else {
      assert (credits + CreditsOf(x))[..|credits|] == credits;
    }
  }

  /** An execution that succeeds is of a row that was confirmable in the quiet state. */
  lemma {:induction false} AppliedWasConfirmable(st: State, now: State, s: nat, ok: bool, cap: Cap)
    requires From(st, now, cap) && OneLimit(st, cap) && DigestsOk(st)
    requires SessionOf(now, s).Claimed? && SessionOf(Next(now, Execute(s, ok)), s).Applied?
    ensures SessionFrom(st, Next(now, Execute(s, ok)), cap, SessionOf(Next(now, Execute(s, ok)), s))
  {
    hide Invariant, Later, RowsFrom, IssuedSince, Positive, Before, MayConfirm;
    var me, done := now.sessions[s], SessionOf(Next(now, Execute(s, ok)), s).done;
    assert me.id in now.rows && done == Execution(me.id, now.rows[me.id].effect, me.who, me.begun) by {
      assert SessionFrom(st, now, cap, me);
    }
    if CreditsTo(done.effect, cap) {
      ClaimWasPending(st, now, s, cap);
      assert CarriesCap(st.prepared[me.id], cap.tenant, cap.account, cap.limit);
    }
  }

  lemma {:induction false} ClaimWasPending(st: State, now: State, s: nat, cap: Cap)
    requires From(st, now, cap) && SessionOf(now, s).Claimed?
    requires var id := SessionOf(now, s).id; id in now.rows && CreditsTo(now.rows[id].effect, cap)
    ensures var me := SessionOf(now, s);
            && me.id in st.rows && st.rows[me.id].status == Pending && st.rows[me.id].effect == now.rows[me.id].effect
            && st.rows[me.id].digest == now.rows[me.id].digest && Before(st.clock, st.rows[me.id].expiresAt)
            && me.begun.month == st.clock.month && me.kind == now.rows[me.id].effect.kind
  {
    hide CountsOk, DigestsOk, ExecutionsOk, ExpiryOk, Positive, CreditsTo, IssuedSince;
    var me := now.sessions[s];
    assert SessionOk(now, me) && SessionFrom(st, now, cap, me);
    assert me.id in now.locks && now.rows[me.id].status == Pending;
    assert me.id in st.rows && RowLater(st, now, me.id);
  }

  lemma {:induction false} OwnStepFrom(st: State, now: State, e: Event, s: nat, cap: Cap)
    requires Since(st, now.clock) && (s in now.sessions ==> SessionFrom(st, now, cap, now.sessions[s]))
    requires Actor(e) == Some(s)
    requires !(e.Execute? && SessionOf(now, s).Claimed? && SessionOf(Next(now, e), s).Applied?)
    ensures SessionFrom(st, Next(now, e), cap, SessionOf(Next(now, e), s))
  {
    hide ExecutorAccepts, CreditsOf, MayConfirm, Before, Since, CreditsTo, Confirmable;
  }

  lemma {:induction false} OwnSessionFrom(st: State, now: State, e: Event, s: nat, cap: Cap)
    requires From(st, now, cap) && OneLimit(st, cap) && DigestsOk(st) && Ordinary(e, cap, st.clock.month)
    requires Actor(e) == Some(s)
    ensures SessionFrom(st, Next(now, e), cap, SessionOf(Next(now, e), s))
  {
    hide Next, SessionFrom, Ordinary, OneLimit, DigestsOk;
    if e.Execute? && SessionOf(now, s).Claimed? && SessionOf(Next(now, e), s).Applied? {
      AppliedWasConfirmable(st, now, s, e.ok, cap);
    } else {
      SinceNow(st, now);
      OwnStepFrom(st, now, e, s, cap);
    }
  }

  lemma {:induction false} SessionsFromStep(st: State, now: State, e: Event, cap: Cap)
    requires From(st, now, cap) && OneLimit(st, cap) && DigestsOk(st) && Ordinary(e, cap, st.clock.month)
    ensures SessionsFrom(st, Next(now, e), cap)
  {
    hide Next, SessionFrom, OneLimit, DigestsOk, Invariant, Later, RowsFrom, Positive, IssuedSince, CreditsTo;
    forall s | s in Next(now, e).sessions ensures SessionFrom(st, Next(now, e), cap, Next(now, e).sessions[s]) {
      if Actor(e) == Some(s) {
        OwnSessionFrom(st, now, e, s, cap);
      } else {
        OtherSessionsStay(now, e, s);
        SessionFromStays(st, now, e, cap, now.sessions[s]);
      }
    }
  }

  lemma {:induction false} IssuedGrows(now: State, e: Event, cap: Cap, month: nat)
    requires Invariant(now)
    ensures Issued(now, cap, month) <= Issued(Next(now, e), cap, month)
  {
    hide LocksOk, CountsOk, DigestsOk, ExecutionsOk, ExpiryOk, CreditsOf, IssuedSince;
    if e.Commit? && SessionOf(now, e.s).Applied? {
      assert SessionOk(now, now.sessions[e.s]);
      IssuedSnoc(now.credits, SessionOf(now, e.s).done, cap, month);
    } else if e.Commit? {
      CommitNeedsApplied(now, e);
    } else {
      hide Next;
      TablesStep(now, e);
    }
  }

  lemma {:induction false} FromStep(st: State, now: State, e: Event, cap: Cap)
    requires From(st, now, cap) && OneLimit(st, cap) && DigestsOk(st) && Ordinary(e, cap, st.clock.month)
    ensures From(st, Next(now, e), cap)
  {
    InvariantStep(now, e);
    PositiveStep(now, e);
    NextIsLater(now, e);
    LaterTransitive(st, now, Next(now, e));
    ClockStep(now, e, cap);
    RowsFromStep(st, now, e, cap);
    SessionsFromStep(st, now, e, cap);
    IssuedGrows(now, e, cap, st.clock.month);
    hide Next, Invariant, Positive, Later, RowsFrom, SessionsFrom, Issued, OneLimit, DigestsOk;
  }

  // ---- the potential --------------------------------------------------------

  /** What the listed rows not yet executed would add. */
  function Remaining(st: State, executions: seq<Execution>, ids: seq<nat>): int {
    if ids == [] then 0
    else
      var n := |ids| - 1;
      Remaining(st, executions, ids[..n]) + (if TimesExecuted(executions, ids[n]) == 0 then Amount(st, ids[n]) else 0)
  }

  lemma {:induction false} RemainingAll(st: State, ids: seq<nat>)
    requires forall id :: id in ids ==> TimesExecuted(st.executions, id) == 0
    ensures Remaining(st, st.executions, ids) == Sum(st, ids)
  {
    if ids != [] {
      hide TimesExecuted, Amount;
      RemainingAll(st, ids[..|ids| - 1]);
    }
  }

  lemma {:induction false} RemainingBounds(st: State, executions: seq<Execution>, ids: seq<nat>)
    requires forall id :: id in ids ==> Amount(st, id) > 0
    ensures 0 <= Remaining(st, executions, ids)
  {
    if ids != [] {
      hide TimesExecuted, Amount;
      RemainingBounds(st, executions, ids[..|ids| - 1]);
      assert ids[|ids| - 1] in ids;
    }
  }

  /** One more execution takes its row's amount off what remains. */
  lemma {:induction false} RemainingSnoc(st: State, executions: seq<Execution>, x: Execution, ids: seq<nat>)
    requires Distinct(ids) && forall id :: id in ids ==> Amount(st, id) > 0
    ensures Remaining(st, executions + [x], ids) <=
              Remaining(st, executions, ids)
              - (if x.id in ids && TimesExecuted(executions, x.id) == 0 then Amount(st, x.id) else 0)
  {
    if ids != [] {
      hide TimesExecuted, Amount;
      var n := |ids| - 1;
      RemainingSnoc(st, executions, x, ids[..n]);
      TimesExecutedSnoc(executions, x, ids[n]);
      assert ids[n] in ids && ids == ids[..n] + [ids[n]];
      assert x.id == ids[n] ==> x.id !in ids[..n];
    }
  }

  function Potential(st: State, now: State, cap: Cap, ids: seq<nat>): int {
    Issued(now, cap, st.clock.month) + Remaining(st, now.executions, ids)
  }

  lemma {:induction false} PotentialAtCommit(st: State, now: State, s: nat, cap: Cap, ids: seq<nat>)
    requires From(st, now, cap) && ListsConfirmable(st, cap, ids) && SessionOf(now, s).Applied?
    ensures Potential(st, Next(now, Commit(s)), cap, ids) <= Potential(st, now, cap, ids)
  {
    hide Before, RowsFrom, Later, ExecutionsOk, ExpiryOk, DigestsOk, IssuedSince, Remaining, Positive, CreditsOf, Issued;
    var done := now.sessions[s].done;
    assert SessionOk(now, now.sessions[s]) && SessionFrom(st, now, cap, now.sessions[s]);
    if CreditsTo(done.effect, cap) { PaidFor(st, now, s, cap, ids); }
    assert forall id :: id in ids ==> Amount(st, id) > 0;
    RemainingSnoc(st, now.executions, done, ids);
    CommitIssues(now, s, cap, st.clock.month);
  }

  lemma {:induction false} CommitIssues(now: State, s: nat, cap: Cap, month: nat)
    requires SessionsOk(now) && SessionOf(now, s).Applied?
    ensures var done := SessionOf(now, s).done;
            && Next(now, Commit(s)).executions == now.executions + [done]
            && Issued(Next(now, Commit(s)), cap, month) <=
                 Issued(now, cap, month)
                 + (if CreditsTo(done.effect, cap) && done.effect.payload.Credit? then done.effect.payload.amount else 0)
  {
    hide IssuedSince, CreditsOf;
    assert SessionOk(now, now.sessions[s]);
    IssuedSnoc(now.credits, SessionOf(now, s).done, cap, month);
  }

  /** A credit about to commit is of a listed row that has not been executed. */
  lemma {:induction false} PaidFor(st: State, now: State, s: nat, cap: Cap, ids: seq<nat>)
    requires From(st, now, cap) && ListsConfirmable(st, cap, ids) && SessionOf(now, s).Applied?
    requires CreditsTo(SessionOf(now, s).done.effect, cap)
    ensures var done := SessionOf(now, s).done;
            && done.id in ids && TimesExecuted(now.executions, done.id) == 0
            && done.effect.payload.Credit? && Amount(st, done.id) == done.effect.payload.amount
  {
    hide Before, RowsFrom, Later, ExecutionsOk, ExpiryOk, DigestsOk, IssuedSince, Positive, CreditsOf, CreditsTo;
    assert SessionOk(now, now.sessions[s]) && SessionFrom(st, now, cap, now.sessions[s]);
    assert now.rows[now.sessions[s].id].status == Pending;
  }

  lemma {:induction false} PotentialStep(st: State, now: State, e: Event, cap: Cap, ids: seq<nat>)
    requires From(st, now, cap) && ListsConfirmable(st, cap, ids)
    ensures Potential(st, Next(now, e), cap, ids) <= Potential(st, now, cap, ids)
  {
    hide From, ListsConfirmable, Next;
    if e.Commit? && SessionOf(now, e.s).Applied? {
      PotentialAtCommit(st, now, e.s, cap, ids);
    } else if e.Commit? {
      CommitNeedsApplied(now, e);
    } else {
      TablesStep(now, e);
    }
  }

  lemma {:induction false} RunFrom(st: State, more: seq<Event>, cap: Cap, ids: seq<nat>)
    requires Ready(st, cap) && ListsConfirmable(st, cap, ids) && AllOrdinary(more, cap, st.clock.month)
    ensures From(st, Run(st, more), cap)
    ensures Potential(st, Run(st, more), cap, ids) <= Issued(st, cap, st.clock.month) + Sum(st, ids)
    decreases |more|
  {
    if more == [] {
      hide IssuedSince, Remaining, CreditsTo;
      NothingExecuted(st, cap, ids);
      RemainingAll(st, ids);
    } else {
      hide Next, From, Ordinary, ListsConfirmable;
      var n := |more| - 1;
      RunFrom(st, more[..n], cap, ids);
      assert Ordinary(more[n], cap, st.clock.month);
      FromStep(st, Run(st, more[..n]), more[n], cap);
      PotentialStep(st, Run(st, more[..n]), more[n], cap, ids);
    }
  }

  lemma {:induction false} NothingExecuted(st: State, cap: Cap, ids: seq<nat>)
    requires CountsOk(st) && ListsConfirmable(st, cap, ids)
    ensures forall id :: id in ids ==> TimesExecuted(st.executions, id) == 0
  {
    hide TimesExecuted, CreditsTo, Before;
  }

  /** However confirmations, rejections, failures and sweeps are interleaved, the month's
      credits never exceed what is issued plus every credit confirmable alone. */
  lemma {:induction false} NeverMore(st: State, more: seq<Event>, cap: Cap, ids: seq<nat>)
    requires Ready(st, cap) && ListsConfirmable(st, cap, ids) && AllOrdinary(more, cap, st.clock.month)
    ensures Issued(Run(st, more), cap, st.clock.month) <= Issued(st, cap, st.clock.month) + Sum(st, ids)
  {
    hide Ready, AllOrdinary, Run, Remaining, From, Issued;
    RunFrom(st, more, cap, ids);
    assert forall id :: id in ids ==> Amount(st, id) > 0;
    RemainingBounds(st, Run(st, more).executions, ids);
  }

  // ---- and that much can be issued ------------------------------------------

  function Paying(st: State, id: nat, who: Principal): Session
    requires id in st.rows
  {
    Applied(id, who, IssueServiceCredit, st.clock, Execution(id, st.rows[id].effect, who, st.clock))
  }

  /** Each of the first `k` rows is claimed and executed by a session of its own. */
  function Applying(ids: seq<nat>, k: nat, who: Principal): seq<Event>
    requires k <= |ids|
  {
    if k == 0 then []
    else Applying(ids, k - 1, who) + [Look(k - 1, who, ids[k - 1]), Claim(k - 1), Execute(k - 1, true)]
  }

  function Committing(k: nat): seq<Event> {
    if k == 0 then [] else Committing(k - 1) + [Commit(k - 1)]
  }

  /** Every row is looked at by a principal of the tenant, who is the only one to see it. */
  predicate ByTenant(events: seq<Event>, tenant: string) {
    forall k :: 0 <= k < |events| && events[k].Look? ==> events[k].who.tenant == tenant
  }

  lemma {:induction false} BothOrdinary(a: seq<Event>, b: seq<Event>, cap: Cap, month: nat, tenant: string)
    requires AllOrdinary(a, cap, month) && AllOrdinary(b, cap, month) && ByTenant(a, tenant) && ByTenant(b, tenant)
    ensures AllOrdinary(a + b, cap, month) && ByTenant(a + b, tenant)
  {
    hide Ordinary;
  }

  lemma {:induction false} OneOrdinary(s: nat, id: nat, cap: Cap, month: nat, who: Principal)
    ensures var events := [Look(s, who, id), Claim(s), Execute(s, true)];
            AllOrdinary(events, cap, month) && ByTenant(events, who.tenant)
  {
  }

  lemma {:induction false} ApplyingOrdinary(ids: seq<nat>, k: nat, cap: Cap, month: nat, who: Principal)
    requires k <= |ids|
    ensures AllOrdinary(Applying(ids, k, who), cap, month) && ByTenant(Applying(ids, k, who), who.tenant)
  {
    if k > 0 {
      hide AllOrdinary, ByTenant, Ordinary;
      var id := ids[k - 1];
      ApplyingOrdinary(ids, k - 1, cap, month, who);
      OneOrdinary(k - 1, id, cap, month, who);
      BothOrdinary(Applying(ids, k - 1, who), [Look(k - 1, who, id), Claim(k - 1), Execute(k - 1, true)], cap, month,
                   who.tenant);
    }
  }

  lemma {:induction false} CommittingOrdinary(k: nat, cap: Cap, month: nat)
    ensures AllOrdinary(Committing(k), cap, month) && ByTenant(Committing(k), cap.tenant)
  {
    if k > 0 { CommittingOrdinary(k - 1, cap, month); }
  }

  /** One confirmation, up to its commit. */
  lemma {:induction false} OneApplied(now: State, s: nat, id: nat, who: Principal)
    requires SessionOf(now, s) == Idle && id !in now.locks && id in now.rows && who.role == OperationsAdmin
    requires var row := now.rows[id];
             && row.status == Pending && Before(now.clock, row.expiresAt) && row.digest == Sha256(row.effect)
             && row.effect.kind == IssueServiceCredit && ExecutorAccepts(now, row.effect, now.clock, true)
    ensures Run(now, [Look(s, who, id), Claim(s), Execute(s, true)]) ==
              now.(locks := now.locks[id := s], sessions := now.sessions[s := Paying(now, id, who)])
  {
    hide Run, ExecutorAccepts, Before;
    RunThree(now, Look(s, who, id), Claim(s), Execute(s, true));
    var looked := Next(now, Look(s, who, id));
    assert looked == now.(sessions := now.sessions[s := Looked(id, who, IssueServiceCredit, Pending, now.clock)]);
    ClaimedThen(now, looked, s, id, who);
  }

  lemma {:induction false} ClaimedThen(now: State, looked: State, s: nat, id: nat, who: Principal)
    requires id !in now.locks && id in now.rows && who.role == OperationsAdmin
    requires var row := now.rows[id];
             && row.status == Pending && Before(now.clock, row.expiresAt) && row.digest == Sha256(row.effect)
             && row.effect.kind == IssueServiceCredit && ExecutorAccepts(now, row.effect, now.clock, true)
    requires looked == now.(sessions := now.sessions[s := Looked(id, who, IssueServiceCredit, Pending, now.clock)])
    ensures Next(Next(looked, Claim(s)), Execute(s, true)) ==
              now.(locks := now.locks[id := s], sessions := now.sessions[s := Paying(now, id, who)])
  {
    hide Before, IssuedSince;
    var claimed := Next(looked, Claim(s));
    assert claimed == now.(locks := now.locks[id := s],
                           sessions := now.sessions[s := Claimed(id, who, IssueServiceCredit, now.clock)]);
  }

  /** After the first `k` are applied: nothing committed, their rows locked. */
  ghost predicate AppliedUpTo(st: State, now: State, ids: seq<nat>, k: nat, who: Principal)
    requires k <= |ids|
  {
    && now.rows == st.rows && now.credits == st.credits && now.clock == st.clock
    && (forall j :: 0 <= j < k ==> ids[j] in st.rows && SessionOf(now, j) == Paying(st, ids[j], who))
    && (forall j :: k <= j ==> SessionOf(now, j) == Idle)
    && (forall id :: id in now.locks ==> id in ids[..k])
  }

  lemma {:induction false} ConfirmableAccepted(st: State, now: State, cap: Cap, id: nat)
    requires Confirmable(st, cap, id) && OneLimit(st, cap) && DigestsOk(st)
    requires now.rows == st.rows && now.credits == st.credits && now.clock == st.clock
    ensures var row := now.rows[id];
            && row.effect.kind == IssueServiceCredit && ExecutorAccepts(now, row.effect, now.clock, true)
  {
    hide IssuedSince, Before;
    assert CarriesCap(st.prepared[id], cap.tenant, cap.account, cap.limit);
  }

  lemma {:induction false} ApplyNone(st: State, cap: Cap, ids: seq<nat>, who: Principal)
    requires Ready(st, cap)
    ensures AppliedUpTo(st, Run(st, Applying(ids, 0, who)), ids, 0, who)
  {
    hide Invariant, Positive, OneLimit;
    assert Run(st, []) == st;
  }

  lemma {:induction false} ApplyAll(st: State, cap: Cap, ids: seq<nat>, k: nat, who: Principal)
    requires Ready(st, cap) && ListsConfirmable(st, cap, ids) && k <= |ids| && who.role == OperationsAdmin
    ensures AppliedUpTo(st, Run(st, Applying(ids, k, who)), ids, k, who)
  {
    hide Run, AppliedUpTo, Ready, ListsConfirmable;
    if k == 0 {
      ApplyNone(st, cap, ids, who);
    } else {
      ApplyAll(st, cap, ids, k - 1, who);
      RunConcat(st, Applying(ids, k - 1, who), [Look(k - 1, who, ids[k - 1]), Claim(k - 1), Execute(k - 1, true)]);
      ApplyOne(st, Run(st, Applying(ids, k - 1, who)), cap, ids, k - 1, who);
    }
  }

  lemma {:induction false} ApplyOne(st: State, now: State, cap: Cap, ids: seq<nat>, k: nat, who: Principal)
    requires Ready(st, cap) && ListsConfirmable(st, cap, ids) && k < |ids| && AppliedUpTo(st, now, ids, k, who)
    requires who.role == OperationsAdmin
    ensures AppliedUpTo(st, Run(now, [Look(k, who, ids[k]), Claim(k), Execute(k, true)]), ids, k + 1, who)
  {
    hide Run, ExecutorAccepts, IssuedSince, Before, CreditsTo;
    var id := ids[k];
    assert id in ids && Confirmable(st, cap, id);
    assert DigestsOk(st) && OneLimit(st, cap);
    ConfirmableAccepted(st, now, cap, id);
    hide Ready;
    assert id !in ids[..k];
    OneApplied(now, k, id, who);
    AppliedOne(st, now, ids, k, who);
  }

  lemma {:induction false} AppliedOne(st: State, now: State, ids: seq<nat>, k: nat, who: Principal)
    requires k < |ids| && ids[k] in st.rows && AppliedUpTo(st, now, ids, k, who)
    ensures AppliedUpTo(st, now.(locks := now.locks[ids[k] := k], sessions := now.sessions[k := Paying(now, ids[k], who)]),
                        ids, k + 1, who)
  {
    var after := now.(locks := now.locks[ids[k] := k], sessions := now.sessions[k := Paying(now, ids[k], who)]);
    assert ids[..k + 1] == ids[..k] + [ids[k]];
    forall id | id in after.locks ensures id in ids[..k + 1] {
      if id != ids[k] { assert id in ids[..k]; }
    }
    assert SessionOf(after, k) == Paying(st, ids[k], who);
    assert forall j :: j != k ==> SessionOf(after, j) == SessionOf(now, j);
  }

  /** After the first `k` commits: their amounts are issued, the other sessions wait. */
  ghost predicate CommittedUpTo(st: State, now: State, cap: Cap, ids: seq<nat>, k: nat, who: Principal)
    requires k <= |ids|
  {
    && Issued(now, cap, st.clock.month) == Issued(st, cap, st.clock.month) + Sum(st, ids[..k])
    && forall j :: 0 <= j < |ids| ==>
         ids[j] in st.rows && ids[j] in now.rows && (k <= j ==> SessionOf(now, j) == Paying(st, ids[j], who))
  }

  lemma {:induction false} CommitOne(st: State, now: State, cap: Cap, ids: seq<nat>, k: nat, who: Principal)
    requires k < |ids| && CommittedUpTo(st, now, cap, ids, k, who) && Confirmable(st, cap, ids[k])
    ensures CommittedUpTo(st, Next(now, Commit(k)), cap, ids, k + 1, who)
  {
    hide Before, IssuedSince, CreditsOf;
    var done := Paying(st, ids[k], who).done;
    IssuedSnoc(now.credits, done, cap, st.clock.month);
    assert ids[..k + 1][..k] == ids[..k];
    assert st.rows[ids[k]].effect.payload.Credit?;
  }

  lemma {:induction false} CommitAll(st: State, now: State, cap: Cap, ids: seq<nat>, k: nat, who: Principal)
    requires k <= |ids| && CommittedUpTo(st, now, cap, ids, 0, who) && ListsConfirmable(st, cap, ids)
    ensures CommittedUpTo(st, Run(now, Committing(k)), cap, ids, k, who)
  {
    hide Next, CommittedUpTo, Confirmable;
    if k > 0 {
      CommitAll(st, now, cap, ids, k - 1, who);
      RunConcat(now, Committing(k - 1), [Commit(k - 1)]);
      RunOne(Run(now, Committing(k - 1)), Commit(k - 1));
      assert ids[k - 1] in ids;
      CommitOne(st, Run(now, Committing(k - 1)), cap, ids, k - 1, who);
    }
  }

  /** Confirming every one of them at once, by the tenant's own staff, issues the whole sum. */
  lemma {:induction false} AllAtOnce(st: State, cap: Cap, ids: seq<nat>) returns (more: seq<Event>)
    requires Ready(st, cap) && ListsConfirmable(st, cap, ids)
    ensures AllOrdinary(more, cap, st.clock.month) && ByTenant(more, cap.tenant)
    ensures Issued(Run(st, more), cap, st.clock.month) == Issued(st, cap, st.clock.month) + Sum(st, ids)
  {
    hide Run, Ready;
    var n, who := |ids|, Principal(cap.tenant, "ops", OperationsAdmin, None);
    more := Applying(ids, n, who) + Committing(n);
    ApplyingOrdinary(ids, n, cap, st.clock.month, who);
    CommittingOrdinary(n, cap, st.clock.month);
    BothOrdinary(Applying(ids, n, who), Committing(n), cap, st.clock.month, cap.tenant);
    RunConcat(st, Applying(ids, n, who), Committing(n));
    ApplyAll(st, cap, ids, n, who);
    var mid := Run(st, Applying(ids, n, who));
    BeforeCommits(st, mid, cap, ids, who);
    CommitAll(st, mid, cap, ids, n, who);
    assert ids[..n] == ids;
  }

  lemma {:induction false} BeforeCommits(st: State, now: State, cap: Cap, ids: seq<nat>, who: Principal)
    requires ListsConfirmable(st, cap, ids) && AppliedUpTo(st, now, ids, |ids|, who)
    ensures CommittedUpTo(st, now, cap, ids, 0, who)
  {
    hide IssuedSince, Before, CreditsTo;
    forall j | 0 <= j < |ids| ensures ids[j] in st.rows { assert ids[j] in ids; }
  }

  function MostIssued(st: State, cap: Cap, ids: seq<nat>): int {
    Issued(st, cap, st.clock.month) + Sum(st, ids)
  }

  lemma {:induction false} Enumerated(all: set<nat>) returns (ids: seq<nat>)
    ensures Distinct(ids) && forall id :: id in ids <==> id in all
  {
    ids := [];
    if x :| x in all {
      ids := Enumerated(all - {x});
      ids := ids + [x];
    }
  }

  /** Such a list exists in every state. */
  lemma {:induction false} ConfirmableListed(st: State, cap: Cap) returns (ids: seq<nat>)
    ensures ListsConfirmable(st, cap, ids)
  {
    hide Confirmable, Distinct;
    ids := Enumerated(set id | id in st.rows.Keys && Confirmable(st, cap, id));
    forall id | Confirmable(st, cap, id) ensures id in st.rows { ConfirmableIsRow(st, cap, id); }
  }

  lemma {:induction false} ConfirmableIsRow(st: State, cap: Cap, id: nat)
    requires Confirmable(st, cap, id)
    ensures id in st.rows
  {
  }

  ghost predicate Reaches(st: State, more: seq<Event>, cap: Cap, total: int) {
    AllOrdinary(more, cap, st.clock.month) && Issued(Run(st, more), cap, st.clock.month) == total
  }

  ghost predicate Exceeds(st: State, more: seq<Event>, cap: Cap) {
    && AllOrdinary(more, cap, st.clock.month) && ByTenant(more, cap.tenant)
    && Issued(Run(st, more), cap, st.clock.month) > cap.limit
  }

  /** The exact condition: from a quiet state, within the month, some interleaving of
      confirmations exceeds the cap exactly when what is issued and all the credits that
      each fit alone come to more than it. The sum is also the most that can be issued. */
  lemma {:induction false} CapBreaksIff(st: State, cap: Cap, ids: seq<nat>)
    requires Ready(st, cap) && ListsConfirmable(st, cap, ids)
    ensures (exists more :: Exceeds(st, more, cap)) <==> MostIssued(st, cap, ids) > cap.limit
    ensures exists more :: Reaches(st, more, cap, MostIssued(st, cap, ids))
    ensures forall more, total :: Reaches(st, more, cap, total) ==> total <= MostIssued(st, cap, ids)
  {
    hide Run, Ready, ListsConfirmable, AllOrdinary, ByTenant, Issued;
    var all := AllAtOnce(st, cap, ids);
    assert Reaches(st, all, cap, MostIssued(st, cap, ids));
    if MostIssued(st, cap, ids) > cap.limit { assert Exceeds(st, all, cap); }
    forall more, total | Reaches(st, more, cap, total) ensures total <= MostIssued(st, cap, ids) {
      NeverMore(st, more, cap, ids);
    }
    if more :| Exceeds(st, more, cap) { NeverMore(st, more, cap, ids); }
  }
}

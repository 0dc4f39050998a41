/** The monthly cap on service credits (agentcore/tools/actions.py, lines 496-550).

    The executor compares the cap that a credit carries with what has been committed since
    the month began. When at most one credit of an account is uncommitted at a time, that
    is enough; two at once do not see each other. Module LedgerCapExact has the exact
    condition. */
module LedgerCaps {
  import opened Text
  import opened Principals
  import opened Ledger
  import opened LedgerRuns

  predicate Credits(effect: Effect, tenant: string, account: string) {
    effect.kind == IssueServiceCredit && effect.tenant == tenant && effect.account == account
  }

  function IssuedIn(credits: seq<CreditRow>, tenant: string, account: string, month: nat): int {
    if credits == [] then 0
    else
      var c := credits[|credits| - 1];
      IssuedIn(credits[..|credits| - 1], tenant, account, month)
      + (if c.tenant == tenant && c.account == account && c.issued.month == month then c.amount else 0)
  }

  function AllCredits(executions: seq<Execution>): seq<CreditRow> {
    if executions == [] then []
    else AllCredits(executions[..|executions| - 1]) + CreditsOf(executions[|executions| - 1])
  }

  predicate CarriesCap(effect: Effect, tenant: string, account: string, c: int) {
    Credits(effect, tenant, account) && effect.payload.Credit? ==> effect.payload.monthlyCap == Some(c)
  }

  predicate ProposesCap(e: Event, tenant: string, account: string, c: int) {
    e.Prepare? ==> CarriesCap(PreparedEffect(e.who, e.kind, e.account, e.payload), tenant, account, c)
  }

  /** Every credit proposed for the account carries the cap `c`. */
  ghost predicate OneCap(events: seq<Event>, tenant: string, account: string, c: int) {
    forall k :: 0 <= k < |events| ==> ProposesCap(events[k], tenant, account, c)
  }

  /** A session has applied, but not committed, a credit to the account. */
  predicate Crediting(me: Session, tenant: string, account: string) {
    me.Applied? && Credits(me.done.effect, tenant, account)
  }

  /** The step does not apply a credit to the account while another is uncommitted. */
  ghost predicate SerialStep(st: State, e: Event, tenant: string, account: string) {
    e.Execute? && Crediting(SessionOf(Next(st, e), e.s), tenant, account)
    && !Crediting(SessionOf(st, e.s), tenant, account) ==>
      forall s :: s in st.sessions ==> !Crediting(st.sessions[s], tenant, account)
  }

  ghost predicate SerialRun(events: seq<Event>, tenant: string, account: string) {
    forall k :: 0 <= k < |events| ==> SerialStep(Run(START, events[..k]), events[k], tenant, account)
  }

  ghost predicate Positive(credits: seq<CreditRow>) {
    forall c :: c in credits ==> c.amount > 0
  }

  /** What serial runs keep: the cap holds in every month, and still will when the
      one uncommitted credit commits. */
  ghost predicate CapOk(st: State, tenant: string, account: string, c: int) {
    && Positive(st.credits)
    && st.credits == AllCredits(st.executions)
    && (forall id :: id in st.prepared ==> CarriesCap(st.prepared[id], tenant, account, c))
    && (forall m :: IssuedIn(st.credits, tenant, account, m) <= c)
    && (forall s, s' :: s in st.sessions && s' in st.sessions && s != s' ==>
          !Crediting(st.sessions[s], tenant, account) || !Crediting(st.sessions[s'], tenant, account))
    && (forall s :: s in st.sessions && Crediting(st.sessions[s], tenant, account) ==> Fits(st, st.sessions[s].done, c))
  }

  ghost predicate Fits(st: State, x: Execution, c: int) {
    && x.effect.payload.Credit?
    && IssuedSince(st.credits, x.effect.tenant, x.effect.account, x.begun.month) + x.effect.payload.amount <= c
  }

  lemma {:induction false} SinceBoundsIn(credits: seq<CreditRow>, tenant: string, account: string, m: nat)
    requires Positive(credits)
    ensures IssuedIn(credits, tenant, account, m) <= IssuedSince(credits, tenant, account, m)
    decreases |credits|
  {
    if credits != [] {
      var n := |credits| - 1;
      assert credits[n] in credits;
      forall c | c in credits[..n] ensures c.amount > 0 { assert c in credits; }
      SinceBoundsIn(credits[..n], tenant, account, m);
    }
  }

  lemma {:induction false} CreditsSnoc(credits: seq<CreditRow>, x: Execution, tenant: string, account: string, m: nat)
    ensures IssuedIn(credits + CreditsOf(x), tenant, account, m) == IssuedIn(credits, tenant, account, m) +
              (if Credits(x.effect, tenant, account) && x.effect.payload.Credit? && x.begun.month == m
               then x.effect.payload.amount else 0)
    ensures !Credits(x.effect, tenant, account) ==>
              IssuedSince(credits + CreditsOf(x), tenant, account, m) == IssuedSince(credits, tenant, account, m)
  {
    if CreditsOf(x) == [] {
      assert credits + [] == credits;
    } else {
      assert (credits + CreditsOf(x))[..|credits|] == credits;
    }
  }

  lemma {:induction false} AllCreditsSnoc(executions: seq<Execution>, x: Execution)
    ensures AllCredits(executions + [x]) == AllCredits(executions) + CreditsOf(x)
  {
    assert (executions + [x])[..|executions|] == executions;
  }

  /** A commit by the crediting session. */
  lemma {:induction false} CapKeptByCommit(st: State, s: nat, tenant: string, account: string, c: int)
    requires Invariant(st) && CapOk(st, tenant, account, c) && SessionOf(st, s).Applied?
    ensures CapOk(Next(st, Commit(s)), tenant, account, c)
  {
    hide CreditsOf, IssuedIn, IssuedSince, AllCredits, LocksOk, CountsOk, ExecutionsOk, ExpiryOk, DigestsOk;
    var me, st' := SessionOf(st, s), Next(st, Commit(s));
    assert SessionOk(st, st.sessions[s]);
    assert st'.credits == st.credits + CreditsOf(me.done);
    AllCreditsSnoc(st.executions, me.done);
    PositiveSnoc(st.credits, me.done);
    forall m: nat ensures IssuedIn(st'.credits, tenant, account, m) <= c {
      CreditsSnoc(st.credits, me.done, tenant, account, m);
      if Credits(me.done.effect, tenant, account) && me.done.begun.month == m {
        assert Crediting(st.sessions[s], tenant, account);
        SinceBoundsIn(st.credits, tenant, account, m);
      }
    }
    forall s' | s' in st'.sessions && Crediting(st'.sessions[s'], tenant, account)
      ensures Fits(st', st'.sessions[s'].done, c)
    {
      assert s' != s && st.sessions[s'] == st'.sessions[s'];
      CreditsSnoc(st.credits, me.done, tenant, account, st.sessions[s'].done.begun.month);
    }
  }

  lemma {:induction false} PositiveSnoc(credits: seq<CreditRow>, x: Execution)
    requires Positive(credits)
    requires x.effect.kind == IssueServiceCredit && x.effect.payload.Credit? ==> x.effect.payload.amount > 0
    ensures Positive(credits + CreditsOf(x))
  {
  }

  lemma {:induction false} ExecuteFits(st: State, s: nat, ok: bool, tenant: string, account: string, c: int)
    requires Invariant(st) && CapOk(st, tenant, account, c)
    requires Crediting(SessionOf(Next(st, Execute(s, ok)), s), tenant, account)
    requires !Crediting(SessionOf(st, s), tenant, account)
    ensures Fits(st, SessionOf(Next(st, Execute(s, ok)), s).done, c)
  {
    hide IssuedIn, IssuedSince, AllCredits, LocksOk, CountsOk, ExecutionsOk, ExpiryOk, Positive;
    assert SessionOk(st, st.sessions[s]);
    var me := st.sessions[s];
    assert CarriesCap(st.prepared[me.id], tenant, account, c);
  }

  lemma {:induction false} ExecuteTables(st: State, s: nat, ok: bool)
    ensures var st' := Next(st, Execute(s, ok));
            && st'.credits == st.credits && st'.executions == st.executions && st'.prepared == st.prepared
            && (forall i :: i != s ==> (i in st'.sessions <==> i in st.sessions))
            && (forall i :: i != s && i in st.sessions ==> st'.sessions[i] == st.sessions[i])
            && (s in st'.sessions && st'.sessions[s].Applied? ==>
                  !(s in st.sessions && st.sessions[s].Applied?) || st'.sessions[s] == st.sessions[s])
  {
    hide ExecutorAccepts;
  }

  lemma {:induction false} CapKeptByExecute(st: State, s: nat, ok: bool, tenant: string, account: string, c: int)
    requires Invariant(st) && CapOk(st, tenant, account, c)
    requires SerialStep(st, Execute(s, ok), tenant, account)
    ensures CapOk(Next(st, Execute(s, ok)), tenant, account, c)
  {
    hide CreditsOf, IssuedIn, IssuedSince, AllCredits, Invariant, Positive, Next, Credits, CarriesCap;
    var st' := Next(st, Execute(s, ok));
    ExecuteTables(st, s, ok);
    forall i | i in st'.sessions && Crediting(st'.sessions[i], tenant, account)
      ensures Fits(st', st'.sessions[i].done, c)
    {
      if i == s && !Crediting(SessionOf(st, s), tenant, account) {
        ExecuteFits(st, s, ok, tenant, account, c);
      }
    }
  }

  /** Which sessions may be crediting after any other step. */
  lemma {:induction false} CreditingStep(st: State, e: Event, s: nat, tenant: string, account: string)
    requires !e.Execute? && s in Next(st, e).sessions && Crediting(Next(st, e).sessions[s], tenant, account)
    ensures s in st.sessions && st.sessions[s] == Next(st, e).sessions[s]
  {
    hide KeyTaken, CreditsOf, Before, MayConfirm, MayPrepare, Swept, Credits;
  }

  lemma {:induction false} CapKeptByOther(st: State, e: Event, tenant: string, account: string, c: int)
    requires CapOk(st, tenant, account, c) && !e.Execute? && !e.Commit?
    requires ProposesCap(e, tenant, account, c)
    ensures CapOk(Next(st, e), tenant, account, c)
  {
    hide IssuedIn, IssuedSince, AllCredits, Positive, Crediting;
    var st' := Next(st, e);
    PreparedStep(st, e, tenant, account, c);
    hide Next;
    TablesStep(st, e);
    forall s | s in st'.sessions && Crediting(st'.sessions[s], tenant, account)
      ensures s in st.sessions && st.sessions[s] == st'.sessions[s]
    {
      CreditingStep(st, e, s, tenant, account);
    }
  }

  lemma {:induction false} PreparedStep(st: State, e: Event, tenant: string, account: string, c: int)
    requires ProposesCap(e, tenant, account, c)
    requires forall id :: id in st.prepared ==> CarriesCap(st.prepared[id], tenant, account, c)
    ensures forall id :: id in Next(st, e).prepared ==> CarriesCap(Next(st, e).prepared[id], tenant, account, c)
  {
    hide KeyTaken, CreditsOf, Before, MayConfirm, MayPrepare, Swept, CarriesCap;
    if !e.Prepare? { PreparedStays(st, e); }
  }

  lemma {:induction false} RunCap(events: seq<Event>, tenant: string, account: string, c: int)
    requires 0 <= c && OneCap(events, tenant, account, c) && SerialRun(events, tenant, account)
    ensures CapOk(Run(START, events), tenant, account, c)
    decreases |events|
  {
    hide Next, Invariant, SerialStep, Credits;
    if events != [] {
      hide CapOk;
      var n, e := |events| - 1, events[|events| - 1];
      assert ProposesCap(e, tenant, account, c);
      var st := Run(START, events[..n]);
      forall k | 0 <= k < n ensures SerialStep(Run(START, events[..n][..k]), events[..n][k], tenant, account) {
        assert events[..n][..k] == events[..k];
        assert SerialStep(Run(START, events[..k]), events[k], tenant, account);
      }
      RunCap(events[..n], tenant, account, c);
      RunInvariant(events[..n]);
      assert SerialStep(Run(START, events[..n]), events[n], tenant, account);
      if e.Execute? {
        CapKeptByExecute(st, e.s, e.ok, tenant, account, c);
      } else if e.Commit? && SessionOf(st, e.s).Applied? {
        CapKeptByCommit(st, e.s, tenant, account, c);
      } else if e.Commit? {
        CommitNeedsApplied(st, e);
      } else {
        CapKeptByOther(st, e, tenant, account, c);
      }
    }
  }

  /** When every credit on an account carries one cap, and no credit to it is applied
      while another is uncommitted, the account's credits of any month stay within
      the cap; and the credit table is exactly what was executed. */
  lemma {:induction false} CapRespected(events: seq<Event>, tenant: string, account: string, c: int, month: nat)
    requires 0 <= c && OneCap(events, tenant, account, c) && SerialRun(events, tenant, account)
    ensures var st := Run(START, events);
            && IssuedIn(st.credits, tenant, account, month) <= c
            && st.credits == AllCredits(st.executions)
  {
    hide Run, IssuedIn, AllCredits;
    RunCap(events, tenant, account, c);
  }

  // ---- what happens without the serial condition ----------------------------

  const ADMINS := Principal("t", "ops", OperationsAdmin, None)
  const SIXTY := Effect("t", "a", IssueServiceCredit, Credit(60, Some(100)))
  const T0 := Instant(0, 0)

  function SixtyRow(run: nat, status: Status): Row {
    Row(SIXTY, Sha256(SIXTY), Key(Some(run), IssueServiceCredit, Sha256(SIXTY)), status, Instant(1, 0))
  }

  function Sixty(id: nat): Execution {
    Execution(id, SIXTY, ADMINS, T0)
  }

  function Proposal(id: nat): Event {
    Prepare(id, ADMINS, IssueServiceCredit, "a", Credit(60, Some(100)), Some(id), Instant(1, 0))
  }

  const C1 := State(map[1 := SixtyRow(1, Pending), 2 := SixtyRow(2, Pending)], [], [], [], map[], map[], T0,
                    map[1 := SIXTY, 2 := SIXTY])
  const C2 := C1.(sessions := map[1 := Looked(1, ADMINS, IssueServiceCredit, Pending, T0),
                                  2 := Looked(2, ADMINS, IssueServiceCredit, Pending, T0)])
  const C3 := C1.(locks := map[1 := 1, 2 := 2],
                  sessions := map[1 := Claimed(1, ADMINS, IssueServiceCredit, T0),
                                  2 := Claimed(2, ADMINS, IssueServiceCredit, T0)])
  const C4 := C3.(sessions := map[1 := Applied(1, ADMINS, IssueServiceCredit, T0, Sixty(1)),
                                  2 := Applied(2, ADMINS, IssueServiceCredit, T0, Sixty(2))])

  lemma {:induction false} OverlapPrepares()
    ensures Run(START, [Proposal(1), Proposal(2)]) == C1
  {
    RunTwo(START, Proposal(1), Proposal(2));
    var st := Next(START, Proposal(1));
    assert st.rows == map[1 := SixtyRow(1, Pending)];
    assert !KeyTaken(st, "t", SixtyRow(2, Pending).key);
  }

  lemma {:induction false} OverlapLooks()
    ensures Run(C1, [Look(1, ADMINS, 1), Look(2, ADMINS, 2)]) == C2
  {
    RunTwo(C1, Look(1, ADMINS, 1), Look(2, ADMINS, 2));
  }

  lemma {:induction false} OverlapClaims()
    ensures Run(C2, [Claim(1), Claim(2)]) == C3
  {
    hide Next, C2, C3;
    RunTwo(C2, Claim(1), Claim(2));
    OverlapClaimsFirst();
    OverlapClaimsSecond();
  }

  const C25 := C2.(locks := map[1 := 1],
                   sessions := map[1 := Claimed(1, ADMINS, IssueServiceCredit, T0),
                                   2 := Looked(2, ADMINS, IssueServiceCredit, Pending, T0)])

  lemma {:induction false} OverlapClaimsFirst()
    ensures Next(C2, Claim(1)) == C25
  {
  }

  lemma {:induction false} OverlapClaimsSecond()
    ensures Next(C25, Claim(2)) == C3
  {
  }

  const C35 := C3.(sessions := map[1 := Applied(1, ADMINS, IssueServiceCredit, T0, Sixty(1)),
                                   2 := Claimed(2, ADMINS, IssueServiceCredit, T0)])

  lemma {:induction false} OverlapExecutes()
    ensures Run(C3, [Execute(1, true), Execute(2, true)]) == C4
  {
    hide Next, C3, C4;
    RunTwo(C3, Execute(1, true), Execute(2, true));
    OverlapFirst();
    OverlapSecond();
  }

  lemma {:induction false} OverlapFirst()
    ensures Next(C3, Execute(1, true)) == C35
  {
  }

  lemma {:induction false} OverlapSecond()
    ensures Next(C35, Execute(2, true)) == C4
  {
  }

  lemma {:induction false} OverlapCommits()
    ensures IssuedIn(Run(C4, [Commit(1), Commit(2)]).credits, "t", "a", 0) == 120
  {
    RunTwo(C4, Commit(1), Commit(2));
    CreditsSnoc([], Sixty(1), "t", "a", 0);
    CreditsSnoc([] + CreditsOf(Sixty(1)), Sixty(2), "t", "a", 0);
    var st := Next(C4, Commit(1));
    assert st.credits == [] + CreditsOf(Sixty(1)) && SessionOf(st, 2) == C4.sessions[2] && 2 in st.rows;
  }

  /** Two overlapping confirmations each see room for 60 under a cap of 100. */
  lemma {:induction false} OverlapBreaksCap() returns (events: seq<Event>)
    ensures OneCap(events, "t", "a", 100)
    ensures IssuedIn(Run(START, events).credits, "t", "a", 0) == 120
  {
    hide Run, Next, START, C1, C2, C3, C4, IssuedIn;
    OverlapPrepares();
    OverlapLooks();
    OverlapClaims();
    OverlapExecutes();
    OverlapCommits();
    var a, b := [Proposal(1), Proposal(2)], [Look(1, ADMINS, 1), Look(2, ADMINS, 2)];
    var c, d, e := [Claim(1), Claim(2)], [Execute(1, true), Execute(2, true)], [Commit(1), Commit(2)];
    RunConcat(START, a, b);
    RunConcat(START, a + b, c);
    RunConcat(START, a + b + c, d);
    RunConcat(START, a + b + c + d, e);
    events := a + b + c + d + e;
  }
}

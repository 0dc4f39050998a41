/** Retries behind a circuit breaker, and the token budget (agentcore/llm/base.py). */
module Breaker {
  import opened Text

  datatype Config = Config(threshold: nat, cooldown: real, attempts: nat) {
    /** The settings under which the breaker is built. */
    predicate Valid() {
      threshold > 0 && cooldown > 0.0 && attempts > 0
    }
  }

  datatype State = State(failures: nat, openedAt: Option<real>)

  /** Open exactly when enough failures have been seen. */
  predicate Consistent(s: State, threshold: nat) {
    s.openedAt.None? <==> s.failures < threshold
  }

  // ---- the breaker ----------------------------------------------------------

  predicate Sheds(s: State, now: real, cooldown: real) {
    s.openedAt.Some? && now - s.openedAt.value < cooldown
  }

  /** Asking is not a pure question: after the cooldown it half-opens the breaker. */
  function Asked(s: State, now: real, cfg: Config): State
    requires cfg.Valid()
  {
    if s.openedAt.Some? && !Sheds(s, now, cfg.cooldown) then State(cfg.threshold - 1, None) else s
  }

  function AfterFailure(s: State, now: real, threshold: nat): State {
    State(s.failures + 1, if s.failures + 1 >= threshold && s.openedAt.None? then Some(now) else s.openedAt)
  }

  class CircuitBreaker {
    const cfg: Config
    var failures: nat
    var openedAt: Option<real>

    ghost predicate Valid()
      reads this
    {
      cfg.Valid() && Consistent(View(), cfg.threshold)
    }

    function View(): State
      reads this
    {
      State(failures, openedAt)
    }

    constructor (cfg: Config)
      requires cfg.Valid()
      ensures Valid() && this.cfg == cfg && View() == State(0, None)
    {
      this.cfg := cfg;
      failures, openedAt := 0, None;
    }

    method Check(now: real) returns (shed: bool)
      requires Valid()
      modifies this
      ensures Valid() && View() == Asked(old(View()), now, cfg)
      ensures shed == Sheds(old(View()), now, cfg.cooldown) && (!shed ==> openedAt.None?)
    {
      if openedAt.None? {
        return false;
      }
      if now - openedAt.value >= cfg.cooldown {
        openedAt, failures := None, cfg.threshold - 1;
        return false;
      }
      shed := true;
    }

    method RecordSuccess()
      requires Valid()
      modifies this
      ensures Valid() && View() == State(0, None)
    {
      failures, openedAt := 0, None;
    }

    method RecordFailure(now: real)
      requires Valid()
      modifies this
      ensures Valid() && View() == AfterFailure(old(View()), now, cfg.threshold)
    {
      failures := failures + 1;
      if failures >= cfg.threshold && openedAt.None? {
        openedAt := Some(now);
      }
    }

    /** The attempt loop. `tries` is what the upstream would do with each attempt. */
    method WithRetries(now: real, tries: seq<Try>) returns (result: CallResult, made: nat)
      requires Valid() && |tries| == cfg.attempts
      modifies this
      ensures Valid()
      ensures Called(old(View()), now, tries, cfg) == (View(), made, result)
      ensures result == Answered ==> failures == 0 && openedAt.None?
    {
      var shed := Check(now);
      if shed {
        return Shed, 0;
      }
      ghost var start := View();
      made := 0;
      for attempt := 0 to cfg.attempts
        invariant Valid() && made == attempt
        invariant Tried(start, tries, cfg.threshold) == Added(attempt, Tried(View(), tries[attempt..], cfg.threshold))
        invariant attempt > 0 ==> !LastAttempt(tries[attempt - 1].outcome)
      {
        made := made + 1;
        match tries[attempt].outcome
        case Succeeds =>
          RecordSuccess();
          return Answered, made;
        case FailsForGood =>
          RecordFailure(tries[attempt].end);
          return Failed, made;
        case Fails =>
          RecordFailure(tries[attempt].end);
      }
      result := Failed;
    }
  }

  // ---- one call -------------------------------------------------------------

  /** A retryable failure, a failure that is raised at once, or an answer. */
  datatype Outcome = Succeeds | Fails | FailsForGood

  datatype Try = Try(start: real, end: real, outcome: Outcome)

  datatype CallResult = Shed | Answered | Failed

  predicate LastAttempt(o: Outcome) {
    o != Fails
  }

  function Added(n: nat, r: (State, nat, CallResult)): (State, nat, CallResult) {
    (r.0, n + r.1, r.2)
  }

  /** The new state, how many attempts reached the upstream, and the result. */
  function Tried(s: State, tries: seq<Try>, threshold: nat): (State, nat, CallResult)
    decreases |tries|
  {
    if tries == [] then (s, 0, Failed)
    else
      match tries[0].outcome
      case Succeeds => (State(0, None), 1, Answered)
      case FailsForGood => (AfterFailure(s, tries[0].end, threshold), 1, Failed)
      case Fails => Added(1, Tried(AfterFailure(s, tries[0].end, threshold), tries[1..], threshold))
  }

  function Called(s: State, now: real, tries: seq<Try>, cfg: Config): (State, nat, CallResult)
    requires cfg.Valid()
  {
    if Sheds(s, now, cfg.cooldown) then (Asked(s, now, cfg), 0, Shed)
    else Tried(Asked(s, now, cfg), tries, cfg.threshold)
  }

  // ---- a run of calls, one after another ------------------------------------

  datatype Call = Call(at: real, tries: seq<Try>)

  /** Attempts begin after the call and end after they begin. */
  predicate Timed(call: Call) {
    forall i :: 0 <= i < |call.tries| ==> call.at <= call.tries[i].start <= call.tries[i].end
  }

  predicate Down(call: Call) {
    forall i :: 0 <= i < |call.tries| ==> call.tries[i].outcome != Succeeds
  }

  predicate OutageRun(calls: seq<Call>, attempts: nat) {
    forall i :: 0 <= i < |calls| ==> |calls[i].tries| == attempts && Timed(calls[i]) && Down(calls[i])
  }

  /** `opens` counts how often the breaker opened, `first` is when it did so first, and
      `probe` is the last call that found it half-open. */
  datatype Trace = Trace(state: State, made: nat, opens: nat, first: real, probe: real)

  function Then(t: Trace, call: Call, cfg: Config): Trace
    requires cfg.Valid()
  {
    var (state, made, _) := Called(t.state, call.at, call.tries, cfg);
    if Sheds(t.state, call.at, cfg.cooldown) || state.openedAt.None? then t.(state := state, made := t.made + made)
    else if t.opens == 0 then Trace(state, t.made + made, 1, state.openedAt.value, call.at)
    else Trace(state, t.made + made, t.opens + 1, t.first, call.at)
  }

  function After(calls: seq<Call>, cfg: Config): Trace
    requires cfg.Valid()
  {
    if calls == [] then Trace(State(0, None), 0, 0, 0.0, 0.0)
    else Then(After(calls[..|calls| - 1], cfg), calls[|calls| - 1], cfg)
  }

  /** A failing call adds its attempts to the failures, and opens the breaker at the end
      of the attempt that reaches the threshold. */
  lemma {:induction false} DownCall(s: State, tries: seq<Try>, threshold: nat)
    requires Consistent(s, threshold) && forall i :: 0 <= i < |tries| ==> tries[i].outcome != Succeeds
    ensures var (state, made, _) := Tried(s, tries, threshold);
            && made <= |tries| && state.failures == s.failures + made && Consistent(state, threshold)
            && (s.openedAt.Some? ==> state.openedAt == s.openedAt)
            && (s.openedAt.None? && state.openedAt.Some? ==>
                  var i := threshold - s.failures - 1;
                  0 <= i < |tries| && state.openedAt == Some(tries[i].end))
    ensures tries != [] ==> Tried(s, tries, threshold).1 > 0
    decreases |tries|
  {
    if tries != [] && tries[0].outcome == Fails {
      DownCall(AfterFailure(s, tries[0].end, threshold), tries[1..], threshold);
    }
  }

  ghost predicate TraceOk(t: Trace, cfg: Config) {
    && cfg.Valid() && Consistent(t.state, cfg.threshold)
    && (t.opens == 0 ==> t.state.openedAt.None? && t.made == t.state.failures)
    && (t.opens > 0 ==>
          && t.state.openedAt.Some?
          && t.state.openedAt.value >= t.first + (t.opens - 1) as real * cfg.cooldown
          && t.made <= cfg.threshold + cfg.attempts - 1 + cfg.attempts * (t.opens - 1))
    && (t.opens > 1 ==> t.probe >= t.first + (t.opens - 1) as real * cfg.cooldown)
  }

  lemma {:induction false} CallKeeps(t: Trace, call: Call, cfg: Config)
    requires TraceOk(t, cfg) && |call.tries| == cfg.attempts && Timed(call) && Down(call)
    ensures TraceOk(Then(t, call, cfg), cfg)
  {
    hide Tried;
    if !Sheds(t.state, call.at, cfg.cooldown) {
      DownCall(Asked(t.state, call.at, cfg), call.tries, cfg.threshold);
      if t.opens > 0 {
        assert (t.opens - 1) as real * cfg.cooldown + cfg.cooldown == t.opens as real * cfg.cooldown;
        assert cfg.attempts * (t.opens - 1) + cfg.attempts == cfg.attempts * t.opens;
      }
    }
  }

  lemma {:induction false} RunKeeps(calls: seq<Call>, cfg: Config)
    requires cfg.Valid() && OutageRun(calls, cfg.attempts)
    ensures TraceOk(After(calls, cfg), cfg)
  {
    if calls != [] {
      hide Then, TraceOk;
      RunKeeps(calls[..|calls| - 1], cfg);
      CallKeeps(After(calls[..|calls| - 1], cfg), calls[|calls| - 1], cfg);
    }
  }

  lemma {:induction false} ProbeIsACall(calls: seq<Call>, cfg: Config)
    requires cfg.Valid()
    ensures var t := After(calls, cfg);
            t.opens > 0 ==> exists i :: 0 <= i < |calls| && calls[i].at == t.probe
  {
    hide Called, Sheds;
    if calls != [] {
      var n := |calls| - 1;
      ProbeIsACall(calls[..n], cfg);
      assert calls[n].at == calls[n].at;
      var before := After(calls[..n], cfg);
      if before.opens > 0 {
        var i :| 0 <= i < n && calls[..n][i].at == before.probe;
        assert calls[i].at == before.probe;
      }
    }
  }

  lemma {:induction false} WholeCooldowns(n: nat, c: real, span: real)
    requires c > 0.0 && n as real * c <= span
    ensures n <= (span / c).Floor
  {
    var q := span / c;
    assert q * c == span;
    assert (q - n as real) * c >= 0.0;
    assert q >= n as real;
  }

  /** The load on a dead upstream: whatever the calls do, those made within `span`
      seconds of the breaker first opening cause at most the first burst and one more
      round of attempts per whole cooldown. */
  lemma {:induction false} OutageBound(calls: seq<Call>, cfg: Config, span: real)
    requires cfg.Valid() && OutageRun(calls, cfg.attempts) && span >= 0.0
    requires After(calls, cfg).opens > 0
    requires forall i :: 0 <= i < |calls| ==> calls[i].at <= After(calls, cfg).first + span
    ensures After(calls, cfg).made <= cfg.threshold + cfg.attempts - 1 + cfg.attempts * (span / cfg.cooldown).Floor
  {
    hide After, OutageRun;
    var t := After(calls, cfg);
    RunKeeps(calls, cfg);
    ProbeIsACall(calls, cfg);
    if t.opens > 1 {
      WholeCooldowns(t.opens - 1, cfg.cooldown, span);
    } else {
      WholeCooldowns(0, cfg.cooldown, span);
    }
    assert cfg.attempts * (t.opens - 1) <= cfg.attempts * ((span / cfg.cooldown).Floor);
  }

  /** Before the breaker first opens fewer attempts than the threshold are made. */
  lemma {:induction false} BeforeOpening(calls: seq<Call>, cfg: Config)
    requires cfg.Valid() && OutageRun(calls, cfg.attempts) && After(calls, cfg).opens == 0
    ensures After(calls, cfg).made < cfg.threshold
  {
    hide After, OutageRun;
    RunKeeps(calls, cfg);
  }

  // ---- calls with any outcomes ----------------------------------------------

  lemma {:induction false} TriedResult(s: State, tries: seq<Try>, threshold: nat)
    requires tries != []
    ensures var (state, made, result) := Tried(s, tries, threshold);
            && 1 <= made <= |tries|
            && (forall i :: 0 <= i < made - 1 ==> tries[i].outcome == Fails)
            && (tries[made - 1].outcome == Fails ==> made == |tries|)
            && result == (if tries[made - 1].outcome == Succeeds then Answered else Failed)
            && (result == Answered ==> state == State(0, None))
    decreases |tries|
  {
    if tries[0].outcome == Fails && |tries| > 1 {
      TriedResult(AfterFailure(s, tries[0].end, threshold), tries[1..], threshold);
    } else if tries[0].outcome == Fails {
      assert tries[1..] == [];
    }
  }

  /** A call is shed exactly when it makes no attempt. Else it attempts until one succeeds, one
      fails for good, or there are no more; it is answered exactly when the last attempt made
      succeeded, and that leaves the breaker closed with no failure counted. */
  lemma {:induction false} CallResultIs(s: State, call: Call, cfg: Config)
    requires cfg.Valid() && |call.tries| == cfg.attempts
    ensures var (state, made, result) := Called(s, call.at, call.tries, cfg);
            && (result == Shed <==> made == 0) && (result == Shed <==> Sheds(s, call.at, cfg.cooldown))
            && made <= cfg.attempts
            && (made > 0 ==>
                  && (forall i :: 0 <= i < made - 1 ==> call.tries[i].outcome == Fails)
                  && (call.tries[made - 1].outcome == Fails ==> made == cfg.attempts)
                  && result == (if call.tries[made - 1].outcome == Succeeds then Answered else Failed))
            && (result == Answered ==> state == State(0, None))
            && (result == Shed ==> state == s)
  {
    hide Tried;
    if !Sheds(s, call.at, cfg.cooldown) { TriedResult(Asked(s, call.at, cfg), call.tries, cfg.threshold); }
  }

  /** The outcomes a call records, in order: did the attempt succeed? */
  function Recorded(tries: seq<Try>, made: nat): (rs: seq<bool>)
    requires made <= |tries|
  {
    seq(made, i requires 0 <= i < made => tries[i].outcome == Succeeds)
  }

  /** How many failures end the record. */
  function Streak(record: seq<bool>): (n: nat)
    ensures n <= |record|
  {
    if record == [] || record[|record| - 1] then 0 else 1 + Streak(record[..|record| - 1])
  }

  lemma {:induction false} StreakFails(record: seq<bool>)
    ensures forall i :: |record| - Streak(record) <= i < |record| ==> !record[i]
    ensures Streak(record) < |record| ==> record[|record| - Streak(record) - 1]
  {
    if record != [] && !record[|record| - 1] { StreakFails(record[..|record| - 1]); }
  }

  lemma {:induction false} StreakMore(record: seq<bool>, more: seq<bool>)
    requires forall i :: 0 <= i < |more| - 1 ==> !more[i]
    ensures Streak(record + more) ==
              if more != [] && more[|more| - 1] then 0 else Streak(record) + |more|
    decreases |more|
  {
    if more == [] {
      assert record + more == record;
    } else {
      var front := more[..|more| - 1];
      assert (record + more)[..|record + more| - 1] == record + front;
      if !more[|more| - 1] {
        StreakMore(record, front);
      }
    }
  }

  /** All that a list of calls recorded. */
  function Record(calls: seq<Call>, cfg: Config): seq<bool>
    requires cfg.Valid() && forall i :: 0 <= i < |calls| ==> |calls[i].tries| == cfg.attempts
  {
    if calls == [] then []
    else
      var n := |calls| - 1;
      CallResultIs(After(calls[..n], cfg).state, calls[n], cfg);
      Record(calls[..n], cfg)
      + Recorded(calls[n].tries, Called(After(calls[..n], cfg).state, calls[n].at, calls[n].tries, cfg).1)
  }

  predicate ClosedAfter(calls: seq<Call>, n: nat, cfg: Config)
    requires cfg.Valid() && n <= |calls|
  {
    After(calls[..n], cfg).state.openedAt.None?
  }

  predicate ClosedThroughout(calls: seq<Call>, cfg: Config)
    requires cfg.Valid()
  {
    forall n :: 0 <= n <= |calls| ==> ClosedAfter(calls, n, cfg)
  }

  lemma {:induction false} TriedAny(s: State, tries: seq<Try>, threshold: nat)
    requires Consistent(s, threshold) && threshold > 0
    ensures var (state, made, result) := Tried(s, tries, threshold);
            && Consistent(state, threshold)
            && state.failures == if result == Answered then 0 else s.failures + made
    decreases |tries|
  {
    if tries != [] && tries[0].outcome == Fails {
      TriedAny(AfterFailure(s, tries[0].end, threshold), tries[1..], threshold);
    }
  }

  lemma {:induction false} ClosedBefore(calls: seq<Call>, cfg: Config)
    requires cfg.Valid() && ClosedThroughout(calls, cfg)
    ensures calls == [] || ClosedThroughout(calls[..|calls| - 1], cfg)
  {
    if calls != [] {
      var front := calls[..|calls| - 1];
      forall m | 0 <= m <= |front| ensures ClosedAfter(front, m, cfg) {
        assert ClosedAfter(calls, m, cfg);
        assert front[..m] == calls[..m];
      }
    }
  }

  /** While the breaker has never been open it counts the failures since the last success. */
  lemma {:induction false} CountsStreak(calls: seq<Call>, cfg: Config)
    requires cfg.Valid() && forall i :: 0 <= i < |calls| ==> |calls[i].tries| == cfg.attempts
    requires calls == [] || ClosedThroughout(calls[..|calls| - 1], cfg)
    ensures var s := After(calls, cfg).state;
            s.failures == Streak(Record(calls, cfg)) && Consistent(s, cfg.threshold)
  {
    if calls != [] {
      var n := |calls| - 1;
      var front := calls[..n];
      ClosedBefore(front, cfg);
      CountsStreak(front, cfg);
      assert ClosedAfter(front, n, cfg) && front[..n] == front;
      OneMoreCall(calls, cfg);
    }
  }

  lemma {:induction false} OneMoreCall(calls: seq<Call>, cfg: Config)
    requires cfg.Valid() && calls != [] && forall i :: 0 <= i < |calls| ==> |calls[i].tries| == cfg.attempts
    requires var s := After(calls[..|calls| - 1], cfg).state;
             s.openedAt.None? && Consistent(s, cfg.threshold) && s.failures == Streak(Record(calls[..|calls| - 1], cfg))
    ensures var s := After(calls, cfg).state;
            s.failures == Streak(Record(calls, cfg)) && Consistent(s, cfg.threshold)
  {
    var n := |calls| - 1;
    var s, call := After(calls[..n], cfg).state, calls[n];
    var (state, made, result) := Called(s, call.at, call.tries, cfg);
    CallResultIs(s, call, cfg);
    TriedAny(s, call.tries, cfg.threshold);
    hide Tried, Streak;
    StreakMore(Record(calls[..n], cfg), Recorded(call.tries, made));
  }

  /** From a closed, fresh breaker: until it first opens it is open exactly when the last
      `threshold` outcomes recorded were all failures. */
  lemma {:induction false} FirstOpeningIff(calls: seq<Call>, cfg: Config)
    requires cfg.Valid() && forall i :: 0 <= i < |calls| ==> |calls[i].tries| == cfg.attempts
    requires calls == [] || ClosedThroughout(calls[..|calls| - 1], cfg)
    ensures var record := Record(calls, cfg);
            After(calls, cfg).state.openedAt.Some? <==>
              |record| >= cfg.threshold && forall i :: |record| - cfg.threshold <= i < |record| ==> !record[i]
  {
    hide After, Record, ClosedThroughout;
    CountsStreak(calls, cfg);
    StreakFails(Record(calls, cfg));
  }

  /** The call that finds an open breaker after its cooldown: the first failure opens it again,
      at that failure's end, and an answer at once leaves it closed. */
  lemma {:induction false} ProbeDecides(s: State, call: Call, cfg: Config)
    requires cfg.Valid() && |call.tries| == cfg.attempts && s.openedAt.Some?
    requires call.at - s.openedAt.value >= cfg.cooldown
    ensures var (state, made, result) := Called(s, call.at, call.tries, cfg);
            && (call.tries[0].outcome == Succeeds ==> result == Answered && made == 1 && state == State(0, None))
            && (result == Failed ==> state.openedAt == Some(call.tries[0].end))
            && (result == Answered ==> state == State(0, None))
            && result != Shed
  {
    CallResultIs(s, call, cfg);
    if call.tries[0].outcome == Fails {
      StaysOpen(AfterFailure(Asked(s, call.at, cfg), call.tries[0].end, cfg.threshold), call.tries[1..], cfg.threshold);
    }
  }

  lemma {:induction false} StaysOpen(s: State, tries: seq<Try>, threshold: nat)
    requires s.openedAt.Some?
    ensures var (state, made, result) := Tried(s, tries, threshold);
            result == Failed ==> state.openedAt == s.openedAt
    decreases |tries|
  {
    if tries != [] && tries[0].outcome == Fails {
      StaysOpen(AfterFailure(s, tries[0].end, threshold), tries[1..], threshold);
    }
  }

  // ---- the token budget -----------------------------------------------------

  class TokenBudget {
    const limit: int
    var spent: int

    constructor (limit: int)
      ensures this.limit == limit && spent == 0
    {
      this.limit, spent := limit, 0;
    }

    function Remaining(): int
      reads this
    {
      if limit - spent > 0 then limit - spent else 0
    }

    /** False stands for the exhaustion error; nothing is set aside either way. */
    method Reserve(estimated: int) returns (ok: bool)
      ensures ok == (spent + estimated <= limit)
    {
      ok := !(spent + estimated > limit);
    }

    method Record(total: nat)
      modifies this
      ensures spent == old(spent) + total
    {
      spent := spent + total;
    }
  }

  /** One request: what was reserved for it and what it then used. */
  datatype Request = Request(estimated: nat, used: nat)

  function Total(requests: seq<Request>): nat {
    if requests == [] then 0 else Total(requests[..|requests| - 1]) + requests[|requests| - 1].used
  }

  /** The estimate of request `i` fits into what the earlier ones left. */
  predicate Fits(limit: int, requests: seq<Request>, i: nat)
    requires i < |requests|
  {
    Total(requests[..i]) + requests[i].estimated <= limit
  }

  /** How many requests are served before one is refused. */
  predicate ServedUpTo(limit: int, requests: seq<Request>, served: nat) {
    && served <= |requests|
    && (forall i :: 0 <= i < served ==> Fits(limit, requests, i))
    && (served < |requests| ==> !Fits(limit, requests, served))
  }

  /** A run's requests, each reserved and then recorded; the first refusal ends it. */
  method Serve(budget: TokenBudget, requests: seq<Request>) returns (served: nat)
    requires budget.spent == 0
    modifies budget
    ensures ServedUpTo(budget.limit, requests, served) && budget.spent == Total(requests[..served])
  {
    served := 0;
    while served < |requests|
      invariant served <= |requests| && budget.spent == Total(requests[..served])
      invariant forall i :: 0 <= i < served ==> Fits(budget.limit, requests, i)
    {
      var ok := budget.Reserve(requests[served].estimated);
      if !ok {
        return;
      }
      assert requests[..served + 1][..served] == requests[..served];
      budget.Record(requests[served].used);
      served := served + 1;
    }
  }

  /** The part of the budget that the reservation of request `i` left free. */
  function Slack(limit: int, requests: seq<Request>, i: nat): int
    requires i < |requests|
  {
    limit - Total(requests[..i]) - requests[i].estimated
  }

  /** The ceiling breaks exactly when the last request served uses more beyond its estimate
      than its reservation left free, which was never less than nothing. So one overrun
      ends the run, and with honest estimates the ceiling holds. */
  lemma {:induction false} CeilingBreaksIff(limit: nat, requests: seq<Request>, served: nat)
    requires ServedUpTo(limit, requests, served)
    ensures Total(requests[..served]) > limit <==>
              served > 0
              && requests[served - 1].used - requests[served - 1].estimated > Slack(limit, requests, served - 1)
    ensures forall i :: 0 <= i < served ==> Slack(limit, requests, i) >= 0
    ensures forall i :: 0 <= i < served ==> Total(requests[..i]) <= limit
    ensures served > 0 ==>
              Total(requests[..served]) - limit <= requests[served - 1].used - requests[served - 1].estimated
  {
    forall i | 0 <= i < served ensures Slack(limit, requests, i) >= 0 && Total(requests[..i]) <= limit {
      assert Fits(limit, requests, i);
    }
    if served > 0 {
      assert requests[..served][..served - 1] == requests[..served - 1];
    }
  }

  /** One large request, modestly estimated, blows the budget. */
  lemma {:induction false} OneRequestBlowsIt()
    ensures ServedUpTo(100, [Request(10, 500)], 1) && Total([Request(10, 500)][..1]) == 500
  {
    var requests := [Request(10, 500)];
    assert requests[..1] == requests && requests[..0] == [];
    assert Total([]) == 0;
  }
}

/** Many callers behind one circuit breaker (agentcore/llm/base.py, lines 140-251): what
    its half-open phase lets through, and the load on a dead upstream when calls overlap. */
module Crowd {
  import opened Text
  import opened Breaker

  // ---- the half-open phase --------------------------------------------------

  /** What reaches the breaker, from whichever callers and in whatever order. */
  datatype Beat = Ask(at: real) | Failure(at: real) | Success(at: real)

  function Heard(s: State, b: Beat, cfg: Config): State
    requires cfg.Valid()
  {
    match b
    case Ask(at) => Asked(s, at, cfg)
    case Failure(at) => AfterFailure(s, at, cfg.threshold)
    case Success(_) => State(0, None)
  }

  function Hearing(s: State, beats: seq<Beat>, cfg: Config): State
    requires cfg.Valid()
  {
    if beats == [] then s else Heard(Hearing(s, beats[..|beats| - 1], cfg), beats[|beats| - 1], cfg)
  }

  predicate Admits(s: State, beats: seq<Beat>, i: nat, cfg: Config)
    requires cfg.Valid() && i < |beats|
  {
    beats[i].Ask? && !Sheds(Hearing(s, beats[..i], cfg), beats[i].at, cfg.cooldown)
  }

  function AdmittedCount(s: State, beats: seq<Beat>, cfg: Config): nat
    requires cfg.Valid()
  {
    if beats == [] then 0
    else
      var n := |beats| - 1;
      AdmittedCount(s, beats[..n], cfg) + (if Admits(s, beats, n, cfg) then 1 else 0)
  }

  /** How many asks come before the first recorded outcome. */
  function FirstOutcome(beats: seq<Beat>): (n: nat)
    ensures n <= |beats| && (forall i :: 0 <= i < n ==> beats[i].Ask?) && (n < |beats| ==> !beats[n].Ask?)
  {
    if beats == [] || !beats[0].Ask? then 0 else 1 + FirstOutcome(beats[1..])
  }

  /** The breaker is open, and the first caller asks when the cooldown is over. */
  predicate Expired(s: State, beats: seq<Beat>, cfg: Config) {
    s.openedAt.Some? && beats != [] && beats[0].Ask? && beats[0].at - s.openedAt.value >= cfg.cooldown
  }

  /** Everyone who asks before an outcome is recorded is let through. */
  lemma {:induction false} HalfOpenAdmitsAll(s: State, beats: seq<Beat>, n: nat, cfg: Config)
    requires cfg.Valid() && Expired(s, beats, cfg) && 0 < n <= |beats|
    requires forall i :: 0 <= i < n ==> beats[i].Ask?
    ensures Hearing(s, beats[..n], cfg) == State(cfg.threshold - 1, None)
    ensures forall i :: 0 <= i < n ==> Admits(s, beats, i, cfg)
  {
    assert beats[..n][..n - 1] == beats[..n - 1];
    if n == 1 {
      assert beats[..0] == [];
    } else {
      HalfOpenAdmitsAll(s, beats, n - 1, cfg);
    }
  }

  /** No success since `n`, and every ask since then less than the cooldown after it. */
  predicate Shortly(beats: seq<Beat>, n: nat, j: nat, cooldown: real)
    requires n < j <= |beats|
  {
    forall k :: n < k < j ==> !beats[k].Success? && (beats[k].Ask? ==> beats[k].at - beats[n].at < cooldown)
  }

  lemma {:induction false} StaysOpen(s: State, beats: seq<Beat>, n: nat, j: nat, cfg: Config)
    requires cfg.Valid() && n < j <= |beats| && Shortly(beats, n, j, cfg.cooldown)
    requires Hearing(s, beats[..n + 1], cfg).openedAt == Some(beats[n].at)
    ensures Hearing(s, beats[..j], cfg).openedAt == Some(beats[n].at)
    decreases j
  {
    if j > n + 1 {
      StaysOpen(s, beats, n, j - 1, cfg);
      assert beats[..j][..j - 1] == beats[..j - 1];
    }
  }

  /** A failure that ends the phase sheds later asks exactly while they come less than the
      cooldown after it, until one is let through. */
  lemma {:induction false} FailureShedsIff(s: State, beats: seq<Beat>, n: nat, j: nat, cfg: Config)
    requires cfg.Valid() && Expired(s, beats, cfg) && n == FirstOutcome(beats) < j < |beats|
    requires beats[n].Failure? && beats[j].Ask? && Shortly(beats, n, j, cfg.cooldown)
    ensures Admits(s, beats, j, cfg) <==> beats[j].at - beats[n].at >= cfg.cooldown
  {
    EndsOpen(s, beats, n, cfg);
    StaysOpen(s, beats, n, j, cfg);
  }

  lemma {:induction false} EndsOpen(s: State, beats: seq<Beat>, n: nat, cfg: Config)
    requires cfg.Valid() && Expired(s, beats, cfg) && n == FirstOutcome(beats) < |beats| && beats[n].Failure?
    ensures Hearing(s, beats[..n + 1], cfg) == State(cfg.threshold, Some(beats[n].at))
  {
    HalfOpenAdmitsAll(s, beats, n, cfg);
    assert beats[..n + 1][..n] == beats[..n];
  }

  lemma {:induction false} CountIsFirst(s: State, beats: seq<Beat>, j: nat, cfg: Config)
    requires cfg.Valid() && Expired(s, beats, cfg) && j <= |beats|
    requires var n := FirstOutcome(beats); n < |beats| ==> beats[n].Failure? && Shortly(beats, n, |beats|, cfg.cooldown)
    ensures AdmittedCount(s, beats[..j], cfg) == if j <= FirstOutcome(beats) then j else FirstOutcome(beats)
    decreases j
  {
    hide Hearing, Sheds, Expired;
    if j > 0 {
      var n := FirstOutcome(beats);
      CountIsFirst(s, beats, j - 1, cfg);
      assert beats[..j][..j - 1] == beats[..j - 1];
      assert Admits(s, beats[..j], j - 1, cfg) == Admits(s, beats, j - 1, cfg);
      if j <= n {
        HalfOpenAdmitsAll(s, beats, n, cfg);
      } else if j - 1 > n && beats[j - 1].Ask? {
        FailureShedsIff(s, beats, n, j - 1, cfg);
      }
    }
  }

  /** From an expired open breaker, while the upstream stays down and until the next
      cooldown is over: as many probes pass as ask before an outcome is recorded, so
      exactly one passes iff an outcome is recorded before a second caller asks. */
  lemma {:induction false} OneProbeIff(s: State, beats: seq<Beat>, cfg: Config)
    requires cfg.Valid() && Expired(s, beats, cfg)
    requires var n := FirstOutcome(beats); n < |beats| ==> beats[n].Failure? && Shortly(beats, n, |beats|, cfg.cooldown)
    ensures AdmittedCount(s, beats, cfg) == FirstOutcome(beats)
    ensures AdmittedCount(s, beats, cfg) == 1 <==> |beats| == 1 || !beats[1].Ask?
  {
    hide AdmittedCount, FirstOutcome;
    CountIsFirst(s, beats, |beats|, cfg);
    assert beats[..|beats|] == beats;
  }

  /** Two callers ask before either has failed, and both probe; the third is shed. */
  lemma {:induction false} TwoProbesOverlap()
    ensures var cfg := Config(5, 30.0, 2);
            var beats := [Ask(30.0), Ask(31.0), Failure(40.0), Failure(41.0), Ask(50.0)];
            && AdmittedCount(State(5, Some(0.0)), beats, cfg) == 2
            && !Admits(State(5, Some(0.0)), beats, 4, cfg)
  {
    var cfg := Config(5, 30.0, 2);
    var beats := [Ask(30.0), Ask(31.0), Failure(40.0), Failure(41.0), Ask(50.0)];
    assert FirstOutcome(beats) == 2;
    hide Hearing, AdmittedCount, FirstOutcome, Sheds;
    OneProbeIff(State(5, Some(0.0)), beats, cfg);
    FailureShedsIff(State(5, Some(0.0)), beats, 2, 4, cfg);
  }

  /** How many failures are recorded from `lo` on, before `hi`. */
  function Failures(beats: seq<Beat>, lo: nat, hi: nat): nat
    requires lo <= hi <= |beats|
    decreases hi
  {
    if lo == hi then 0 else Failures(beats, lo, hi - 1) + (if beats[hi - 1].Failure? then 1 else 0)
  }

  /** After a success everyone is let through until the failures recorded since, by whomever,
      reach the threshold. */
  lemma {:induction false} SuccessClosesFor(s: State, beats: seq<Beat>, n: nat, j: nat, cfg: Config)
    requires cfg.Valid() && n < j <= |beats| && beats[n].Success? && Failures(beats, n, j) < cfg.threshold
    ensures Hearing(s, beats[..j], cfg).openedAt.None? && Hearing(s, beats[..j], cfg).failures <= Failures(beats, n, j)
    ensures j < |beats| && beats[j].Ask? ==> Admits(s, beats, j, cfg)
    decreases j
  {
    assert beats[..j][..j - 1] == beats[..j - 1];
    if j > n + 1 { SuccessClosesFor(s, beats, n, j - 1, cfg); }
  }

  // ---- an outage with several callers in flight -----------------------------

  /** Callers in flight, each by the attempts it may still make. `opens` counts how often
      the breaker opened, `first` is when it first did, and `probes` counts the callers let
      through since it last half-opened. */
  datatype Flight = Flight(state: State, flying: seq<nat>, made: nat, opens: nat, first: real, probes: nat, clock: real)

  /** A new call, or a failing attempt of a caller in flight, retried or not. */
  datatype Move = Begin(at: real) | Break(caller: nat, at: real, forGood: bool)

  const GROUNDED := Flight(State(0, None), [], 0, 0, 0.0, 0, 0.0)

  function Land(flying: seq<nat>, i: nat, forGood: bool): seq<nat>
    requires i < |flying|
  {
    if forGood || flying[i] <= 1 then flying[..i] + flying[i + 1..] else flying[i := flying[i] - 1]
  }

  /** At most `crowd` callers are in flight, and the clock never goes back; a move that
      cannot happen changes nothing. */
  function Moved(f: Flight, m: Move, cfg: Config, crowd: nat): Flight
    requires cfg.Valid()
  {
    if m.at < f.clock then f
    else
      match m
      case Begin(at) =>
        if |f.flying| >= crowd then f
        else if Sheds(f.state, at, cfg.cooldown) then f.(clock := at)
        else f.(state := Asked(f.state, at, cfg), flying := f.flying + [cfg.attempts], clock := at,
                probes := if f.state.openedAt.Some? then 1 else f.probes + 1)
      case Break(i, at, forGood) =>
        if i >= |f.flying| then f
        else
          var state := AfterFailure(f.state, at, cfg.threshold);
          var opening := f.state.openedAt.None? && state.openedAt.Some?;
          f.(state := state, flying := Land(f.flying, i, forGood), made := f.made + 1, clock := at,
             opens := if opening then f.opens + 1 else f.opens, first := if opening && f.opens == 0 then at else f.first)
  }

  function Flown(moves: seq<Move>, cfg: Config, crowd: nat): Flight
    requires cfg.Valid()
  {
    if moves == [] then GROUNDED
    else Moved(Flown(moves[..|moves| - 1], cfg, crowd), moves[|moves| - 1], cfg, crowd)
  }

  function Sum(xs: seq<nat>): nat {
    if xs == [] then 0 else Sum(xs[..|xs| - 1]) + xs[|xs| - 1]
  }

  lemma {:induction false} SumConcat(a: seq<nat>, b: seq<nat>)
    ensures Sum(a + b) == Sum(a) + Sum(b)
    decreases |b|
  {
    if b == [] {
      assert a + b == a;
    } else {
      SumConcat(a, b[..|b| - 1]);
      assert (a + b)[..|a + b| - 1] == a + b[..|b| - 1];
    }
  }

  lemma {:induction false} SumAround(a: seq<nat>, x: nat, b: seq<nat>)
    ensures Sum(a + [x] + b) == Sum(a) + x + Sum(b) && Sum(a + b) == Sum(a) + Sum(b)
  {
    SumConcat(a + [x], b);
    SumConcat(a, b);
    assert (a + [x])[..|a|] == a;
  }

  /** A failing attempt is used up. */
  lemma {:induction false} LandUses(flying: seq<nat>, i: nat, forGood: bool, attempts: nat)
    requires i < |flying| && InFlight(flying, attempts)
    ensures var after := Land(flying, i, forGood);
            Sum(after) + 1 <= Sum(flying) && |after| <= |flying| && InFlight(after, attempts)
  {
    hide Sum;
    var a, b := flying[..i], flying[i + 1..];
    SumAround(a, flying[i], b);
    assert flying == a + [flying[i]] + b;
    if !(forGood || flying[i] <= 1) {
      SumAround(a, flying[i] - 1, b);
      assert flying[i := flying[i] - 1] == a + [flying[i] - 1] + b;
    }
  }

  predicate InFlight(flying: seq<nat>, attempts: nat) {
    forall i :: 0 <= i < |flying| ==> 1 <= flying[i] <= attempts
  }

  lemma {:induction false} SumAtMost(flying: seq<nat>, attempts: nat, crowd: nat)
    requires InFlight(flying, attempts) && |flying| <= crowd
    ensures Sum(flying) <= attempts * crowd
  {
    if flying != [] {
      SumAtMost(flying[..|flying| - 1], attempts, crowd - 1);
      assert attempts * (crowd - 1) + attempts == attempts * crowd;
    }
  }

  /** Attempts made, and all those the callers in flight may still make. */
  function Load(f: Flight): nat {
    f.made + Sum(f.flying)
  }

  ghost predicate FlightOk(f: Flight, cfg: Config, crowd: nat) {
    && cfg.Valid() && Consistent(f.state, cfg.threshold)
    && InFlight(f.flying, cfg.attempts) && |f.flying| <= crowd
    && (if f.opens == 0 then f.state.openedAt.None? && f.made == f.state.failures
        else if f.state.openedAt.Some? then
          && f.clock >= f.state.openedAt.value >= f.first + (f.opens - 1) as real * cfg.cooldown
          && Load(f) <= cfg.threshold - 1 + cfg.attempts * crowd * f.opens
        else
          && f.state.failures == cfg.threshold - 1 && f.probes <= |f.flying|
          && f.clock >= f.first + f.opens as real * cfg.cooldown
          && Load(f) <= cfg.threshold - 1 + cfg.attempts * crowd * f.opens + cfg.attempts * f.probes)
  }

  lemma {:induction false} TakesOff(flying: seq<nat>, attempts: nat)
    requires InFlight(flying, attempts) && attempts > 0
    ensures InFlight(flying + [attempts], attempts) && Sum(flying + [attempts]) == Sum(flying) + attempts
  {
    assert (flying + [attempts])[..|flying|] == flying;
  }

  lemma {:induction false} CallKeepsFlight(f: Flight, at: real, cfg: Config, crowd: nat)
    requires FlightOk(f, cfg, crowd)
    ensures FlightOk(Moved(f, Begin(at), cfg, crowd), cfg, crowd)
  {
    hide Sum;
    if at >= f.clock && |f.flying| < crowd && !Sheds(f.state, at, cfg.cooldown) {
      TakesOff(f.flying, cfg.attempts);
      hide InFlight;
      assert cfg.attempts * (f.probes + 1) == cfg.attempts * f.probes + cfg.attempts;
      if f.opens > 0 { assert (f.opens - 1) as real * cfg.cooldown + cfg.cooldown == f.opens as real * cfg.cooldown; }
    }
  }

  lemma {:induction false} FailKeepsFlight(f: Flight, i: nat, at: real, forGood: bool, cfg: Config, crowd: nat)
    requires FlightOk(f, cfg, crowd)
    ensures FlightOk(Moved(f, Break(i, at, forGood), cfg, crowd), cfg, crowd)
  {
    hide Sum, Land;
    if at >= f.clock && i < |f.flying| {
      var load := cfg.attempts * crowd;
      LandUses(f.flying, i, forGood, cfg.attempts);
      SumAtMost(f.flying, cfg.attempts, crowd);
      assert load * (f.opens + 1) == load * f.opens + load;
      if f.opens > 0 && f.state.openedAt.None? { Product(cfg.attempts, f.probes, crowd); }
    }
  }

  lemma {:induction false} Product(a: nat, m: int, n: int)
    requires m <= n
    ensures a * m <= a * n
  {
  }

  lemma {:induction false} EveryFlightOk(moves: seq<Move>, cfg: Config, crowd: nat)
    requires cfg.Valid()
    ensures FlightOk(Flown(moves, cfg, crowd), cfg, crowd)
  {
    if moves != [] {
      hide Moved, FlightOk;
      var before, m := Flown(moves[..|moves| - 1], cfg, crowd), moves[|moves| - 1];
      EveryFlightOk(moves[..|moves| - 1], cfg, crowd);
      match m
      case Begin(at) => CallKeepsFlight(before, at, cfg, crowd);
      case Break(i, at, forGood) => FailKeepsFlight(before, i, at, forGood, cfg, crowd);
    }
  }

  /** How many whole cooldowns have passed. */
  lemma {:induction false} OpensWithin(f: Flight, cfg: Config, crowd: nat, span: real)
    requires FlightOk(f, cfg, crowd) && f.opens > 0 && f.clock <= f.first + span
    ensures (if f.state.openedAt.Some? then f.opens else f.opens + 1) <= (span / cfg.cooldown).Floor + 1
  {
    hide Load, InFlight;
    WholeCooldowns(if f.state.openedAt.Some? then f.opens - 1 else f.opens, cfg.cooldown, span);
  }

  lemma {:induction false} LoadWithin(f: Flight, cfg: Config, crowd: nat)
    requires FlightOk(f, cfg, crowd) && f.opens > 0
    ensures Load(f) <= cfg.threshold - 1 + cfg.attempts * crowd * (if f.state.openedAt.Some? then f.opens else f.opens + 1)
  {
    hide Load, InFlight;
    if f.state.openedAt.None? {
      Product(cfg.attempts, f.probes, crowd);
      assert cfg.attempts * crowd * (f.opens + 1) == cfg.attempts * crowd * f.opens + cfg.attempts * crowd;
    }
  }

  /** The load on a dead upstream with at most `crowd` callers in flight, however their
      calls and attempts interleave: by `span` seconds after the breaker first opened,
      the attempts made and still owed are at most the first burst and, for each whole
      cooldown, one round of attempts per caller. */
  lemma {:induction false} CrowdBound(moves: seq<Move>, cfg: Config, crowd: nat, span: real)
    requires cfg.Valid() && span >= 0.0
    requires var f := Flown(moves, cfg, crowd); f.opens > 0 && f.clock <= f.first + span
    ensures Load(Flown(moves, cfg, crowd))
         <= cfg.threshold + cfg.attempts * crowd - 1 + cfg.attempts * crowd * (span / cfg.cooldown).Floor
  {
    hide Flown, Load, FlightOk;
    var f, load, rounds := Flown(moves, cfg, crowd), cfg.attempts * crowd, (span / cfg.cooldown).Floor;
    EveryFlightOk(moves, cfg, crowd);
    OpensWithin(f, cfg, crowd, span);
    LoadWithin(f, cfg, crowd);
    Product(load, if f.state.openedAt.Some? then f.opens else f.opens + 1, rounds + 1);
    assert load * (rounds + 1) == load * rounds + load;
  }
}

/** The decisions of one run: the policy that the first one resolves is carried to the
    others (agentcore/orchestrator/engine.py, lines 495-510 and 1142-1170). */
module Decisions {
  import opened Text
  import opened PolicyPack
  import opened PolicyRules

  /** One `policy_decide` call, and the order row its scoped read returned, if any. */
  datatype Question = Question(record: Option<string>, rule: string, row: Option<Order>)

  /** The policy carried from one call to the next, and the decisions so far. */
  datatype Desk = Desk(policy: Option<Policy>, decisions: seq<Decision>)

  const CLEAR := Desk(None, [])

  predicate Visible(q: Question) {
    q.record.Some? && Strip(q.record.value) != "" && q.row.Some?
  }

  /** The order's own account, as resolution takes it. */
  function OwnerOf(q: Question): Option<string>
    requires Visible(q)
  {
    Some(q.row.value.account)
  }

  function Ruled(q: Question, policy: Policy, now: real): Option<Decision>
    requires Visible(q)
  {
    if q.rule == "failed_pickup_credit" then FailedPickupCredit(q.row.value, policy, now)
    else CancellationFee(q.row.value, policy, Some(now))
  }

  /** None stands for a call that raised. */
  function Decide(desk: Desk, pool: seq<Parameter>, q: Question, now: real): Option<Desk> {
    if !Visible(q) then Some(desk)
    else if desk.policy.None? && !Merged(pool, OwnerOf(q)).asserted then None
    else
      var policy := if desk.policy.Some? then desk.policy.value else PolicyFor(pool, OwnerOf(q));
      match Ruled(q, policy, now)
      case None => None
      case Some(decision) => Some(Desk(Some(policy), desk.decisions + [decision]))
  }

  method DecideRecord(desk: Desk, pool: seq<Parameter>, q: Question, now: real) returns (r: Option<Desk>)
    ensures r == Decide(desk, pool, q, now)
  {
    hide Merged, CancellationFee, FailedPickupCredit;
    if q.record.None? || Strip(q.record.value) == "" {
      return Some(desk);
    }
    if q.row.None? {
      return Some(desk);
    }
    var order, policy := q.row.value, desk.policy;
    if policy.None? {
      policy := ResolveForAccount(pool, Some(order.account));
      if policy.None? {
        return None;
      }
    }
    var decision;
    if q.rule == "failed_pickup_credit" {
      decision := FailedPickupCredit(order, policy.value, now);
    } else {
      decision := CancellationFee(order, policy.value, Some(now));
    }
    if decision.None? {
      return None;
    }
    return Some(Desk(policy, desk.decisions + [decision.value]));
  }

  /** Nothing happens without a record, or with a blank one, or with one that cannot be read. A
      call raises iff its policy cannot be resolved, or its rule meets a value that should be
      a number and is not. */
  lemma {:induction false} DecideRaisesIff(desk: Desk, pool: seq<Parameter>, q: Question, now: real)
    ensures q.record.None? || Strip(q.record.value) == "" || q.row.None? ==> Decide(desk, pool, q, now) == Some(desk)
    ensures q.record.Some? && Strip(q.record.value) != "" && q.row.Some? ==>
              var owner := Some(q.row.value.account);
              (Decide(desk, pool, q, now).None? <==>
                 || (desk.policy.None? && !Merged(pool, owner).asserted)
                 || Ruled(q, if desk.policy.Some? then desk.policy.value else PolicyFor(pool, owner), now).None?)
  {
    hide Merged, Ruled, Strip;
  }

  /** After the calls of a run; None once one has raised. */
  function After(pool: seq<Parameter>, qs: seq<Question>, now: real): Option<Desk> {
    if qs == [] then Some(CLEAR)
    else
      match After(pool, qs[..|qs| - 1], now)
      case None => None
      case Some(desk) => Decide(desk, pool, qs[|qs| - 1], now)
  }

  /** The first call whose order can be seen. */
  function FirstVisible(qs: seq<Question>): (f: Option<nat>)
    ensures f.Some? ==> f.value < |qs| && Visible(qs[f.value])
  {
    if qs == [] then None
    else
      var n := |qs| - 1;
      var f := FirstVisible(qs[..n]);
      if f.Some? then f else if Visible(qs[n]) then Some(n) else None
  }

  predicate NoneVisible(qs: seq<Question>) {
    forall i :: 0 <= i < |qs| ==> !Visible(qs[i])
  }

  lemma {:induction false} FirstVisibleIs(qs: seq<Question>)
    ensures var f := FirstVisible(qs); NoneVisible(if f.Some? then qs[..f.value] else qs)
  {
    hide Visible;
    if qs != [] {
      var n := |qs| - 1;
      var f := FirstVisible(qs[..n]);
      FirstVisibleIs(qs[..n]);
      if f.Some? {
        assert qs[..n][..f.value] == qs[..f.value];
      } else {
        NoneVisibleYet(qs);
      }
    }
  }

  lemma {:induction false} NoneVisibleYet(qs: seq<Question>)
    requires qs != [] && NoneVisible(qs[..|qs| - 1])
    ensures !Visible(qs[|qs| - 1]) ==> NoneVisible(qs)
  {
    hide Visible;
    assert forall i :: 0 <= i < |qs| - 1 ==> qs[i] == qs[..|qs| - 1][i];
  }

  /** The account whose policy the run decides by. */
  function Leader(qs: seq<Question>): Option<string> {
    var f := FirstVisible(qs);
    if f.None? then None else OwnerOf(qs[f.value])
  }

  lemma {:induction false} LeaderStep(qs: seq<Question>)
    requires qs != []
    ensures var n, front := |qs| - 1, qs[..|qs| - 1];
            Leader(qs) == if Leader(front).Some? then Leader(front) else if Visible(qs[n]) then OwnerOf(qs[n]) else None
  {
    var front := qs[..|qs| - 1];
    hide Visible;
    if FirstVisible(front).Some? { assert front[FirstVisible(front).value] == qs[FirstVisible(front).value]; }
  }

  function Carried(pool: seq<Parameter>, leader: Option<string>): Option<Policy> {
    if leader.None? then None else Some(PolicyFor(pool, leader))
  }

  lemma {:induction false} AfterStep(pool: seq<Parameter>, qs: seq<Question>, now: real)
    requires qs != []
    ensures var before := After(pool, qs[..|qs| - 1], now);
            After(pool, qs, now) == if before.None? then None else Decide(before.value, pool, qs[|qs| - 1], now)
  {
    hide Decide;
  }

  lemma {:induction false} AfterSnoc(pool: seq<Parameter>, qs: seq<Question>, q: Question, now: real)
    ensures var before := After(pool, qs, now);
            After(pool, qs + [q], now) == if before.None? then None else Decide(before.value, pool, q, now)
  {
    hide After, Decide;
    AfterStep(pool, qs + [q], now);
    assert (qs + [q])[..|qs|] == qs;
  }

  /** Every decision of a run is made by the policy of the leading account. */
  lemma {:induction false} LedBy(pool: seq<Parameter>, qs: seq<Question>, now: real)
    requires After(pool, qs, now).Some?
    ensures After(pool, qs, now).value.policy == Carried(pool, Leader(qs))
    ensures qs != [] && Visible(qs[|qs| - 1]) ==>
              && Leader(qs).Some?
              && var decisions := After(pool, qs, now).value.decisions;
                 && decisions != []
                 && Ruled(qs[|qs| - 1], PolicyFor(pool, Leader(qs)), now) == Some(decisions[|decisions| - 1])
  {
    hide Merged, Ruled, PolicyFor;
    if qs != [] {
      hide After, Leader, Visible, OwnerOf;
      LedBy(pool, qs[..|qs| - 1], now);
      AfterStep(pool, qs, now);
      LeaderStep(qs);
    } else {
      assert FirstVisible(qs).None?;
    }
  }

  function CountVisible(qs: seq<Question>): nat {
    if qs == [] then 0 else CountVisible(qs[..|qs| - 1]) + (if Visible(qs[|qs| - 1]) then 1 else 0)
  }

  /** There is one decision for each call whose order can be seen, in order: by the rule the
      call names, under the leading account's policy. */
  lemma {:induction false} DecisionsAre(pool: seq<Parameter>, qs: seq<Question>, now: real, m: nat)
    requires After(pool, qs, now).Some?
    ensures |After(pool, qs, now).value.decisions| == CountVisible(qs)
    ensures m < |qs| && Visible(qs[m]) ==>
              && CountVisible(qs[..m]) < CountVisible(qs) && Leader(qs).Some?
              && var order, policy := qs[m].row.value, PolicyFor(pool, Leader(qs));
                 Some(After(pool, qs, now).value.decisions[CountVisible(qs[..m])]) ==
                   if qs[m].rule == "failed_pickup_credit" then FailedPickupCredit(order, policy, now)
                   else CancellationFee(order, policy, Some(now))
  {
    hide Merged, PolicyFor, After, Leader, OwnerOf, FailedPickupCredit, CancellationFee;
    if qs != [] {
      var n := |qs| - 1;
      AfterStep(pool, qs, now);
      DecisionsAre(pool, qs[..n], now, m);
      LeaderStep(qs);
      LedBy(pool, qs, now);
      if m < n { assert qs[..n][..m] == qs[..m]; }
      DecideAppends(After(pool, qs[..n], now).value, pool, qs[n], now);
      hide Decide, Ruled;
    } else {
      NothingYet(pool, now);
    }
  }

  lemma {:induction false} NothingYet(pool: seq<Parameter>, now: real)
    ensures After(pool, [], now) == Some(CLEAR)
  {
  }

  lemma {:induction false} DecideAppends(desk: Desk, pool: seq<Parameter>, q: Question, now: real)
    requires Decide(desk, pool, q, now).Some?
    ensures var after := Decide(desk, pool, q, now).value;
            desk.decisions <= after.decisions && |after.decisions| == |desk.decisions| + (if Visible(q) then 1 else 0)
  {
    hide Merged, Ruled, Visible;
  }

  // ---- what the run's decisions depend on -----------------------------------

  lemma {:induction false} SameDecide(p: seq<Parameter>, q: seq<Parameter>, desk: Desk, question: Question, now: real)
    requires Unique(p) && Unique(q)
    requires Visible(question) && desk.policy.None? ==> Agree(p, q, OwnerOf(question))
    ensures Decide(desk, p, question, now) == Decide(desk, q, question, now)
  {
    hide Merged, Ruled, Unique, Agree, Visible, OwnerOf;
    if Visible(question) && desk.policy.None? { NonInterference(p, q, OwnerOf(question)); }
  }

  /** Nothing but the defaults and the leading account's entries changes any decision of a
      run. */
  lemma {:induction false} RunFollowsLeader(p: seq<Parameter>, q: seq<Parameter>, qs: seq<Question>, now: real)
    requires Unique(p) && Unique(q) && (Leader(qs).Some? ==> Agree(p, q, Leader(qs)))
    ensures After(p, qs, now) == After(q, qs, now)
  {
    hide Unique, Agree, Decide;
    if qs != [] {
      hide Leader, After, PolicyFor;
      var front, question := qs[..|qs| - 1], qs[|qs| - 1];
      LeaderStep(qs);
      RunFollowsLeader(p, q, front, now);
      AfterStep(p, qs, now);
      AfterStep(q, qs, now);
      if After(p, front, now).Some? {
        LedBy(p, front, now);
        SameDecide(p, q, After(p, front, now).value, question, now);
      }
    }
  }

  // ---- when an order is judged by its own account's policy -------------------

  /** The scope an account's own entries stand in: none for the empty name and for the name
      that the defaults use. */
  function Layer(account: string): Option<string> {
    if account == "" || account == DEFAULT_SCOPE then None else Some(account)
  }

  lemma {:induction false} LayerIs(pool: seq<Parameter>, account: string)
    requires Unique(pool) && Layer(account).None?
    ensures Merged(pool, Some(account)) == Merged(pool, None)
  {
    hide Merged, Entry, Unique, Overrides;
    var a, b := Merged(pool, Some(account)), Merged(pool, None);
    forall id ensures (id in a.merged <==> id in b.merged) && (id in a.merged ==> a.merged[id] == b.merged[id]) {
      ResolutionIs(pool, Some(account), id);
      ResolutionIs(pool, None, id);
    }
    forall id
      ensures id !in a.notes && !Unproven(Own(pool, Some(account), id), Entry(pool, DEFAULT_SCOPE, id))
      ensures id !in b.notes && !Unproven(Own(pool, None, id), Entry(pool, DEFAULT_SCOPE, id))
    {
      NotesAre(pool, Some(account), id);
      NotesAre(pool, None, id);
      NoOverride(Own(pool, Some(account), id), Entry(pool, DEFAULT_SCOPE, id));
      NoOverride(Own(pool, None, id), Entry(pool, DEFAULT_SCOPE, id));
    }
    AssertedIff(pool, Some(account));
    AssertedIff(pool, None);
    assert a.merged == b.merged && a.notes == b.notes;
  }

  lemma {:induction false} NoOverride(own: Option<Parameter>, default: Option<Parameter>)
    requires own.None? || own == default
    ensures !Overrides(own, default) && !Unproven(own, default)
  {
  }

  /** Does the verdict depend on any parameter at all? */
  predicate Decidable(q: Question)
    requires Visible(q)
  {
    if q.rule == "failed_pickup_credit" then q.row.value.windowEnd.Some?
    else StatusOf(q.row.value) in {"DELIVERED", "PICKED_UP", "DRAFT", "BOOKED"}
  }

  lemma {:induction false} UndecidableIsUnknown(q: Question, policy: Policy, now: real)
    requires Visible(q) && !Decidable(q)
    ensures Ruled(q, policy, now) == Some(Unknown())
  {
    hide Get, OverridesFor, Award, BookedFee, StatusOf;
  }

  /** If the run decides the last call at all, it decides it as its own account's policy
      does. */
  ghost predicate OwnDecision(pool: seq<Parameter>, qs: seq<Question>, now: real)
    requires qs != [] && Visible(qs[|qs| - 1])
  {
    var q := qs[|qs| - 1];
    Unique(pool) && Merged(pool, OwnerOf(q)).asserted && After(pool, qs, now).Some? ==>
      var decisions := After(pool, qs, now).value.decisions;
      decisions != [] && Ruled(q, PolicyFor(pool, OwnerOf(q)), now) == Some(decisions[|decisions| - 1])
  }

  predicate SameLayer(a: Option<string>, b: Option<string>) {
    a.Some? && b.Some? && Layer(a.value) == Layer(b.value)
  }

  lemma {:induction false} SameLayerSamePolicy(pool: seq<Parameter>, a: Option<string>, b: Option<string>)
    requires Unique(pool) && SameLayer(a, b)
    ensures PolicyFor(pool, a).parameters == PolicyFor(pool, b).parameters
    ensures PolicyFor(pool, a).notes == PolicyFor(pool, b).notes
  {
    hide Merged, Unique;
    if a != b {
      LayerIs(pool, a.value);
      LayerIs(pool, b.value);
    }
  }

  lemma {:induction false} RuledByParameters(q: Question, a: Policy, b: Policy, now: real)
    requires Visible(q) && a.parameters == b.parameters && a.notes == b.notes
    ensures Ruled(q, a, now) == Ruled(q, b, now)
  {
    hide CancellationFee, FailedPickupCredit;
    FeeByParameters(q.row.value, a, b, now);
    CreditByParameters(q.row.value, a, b, now);
  }

  lemma {:induction false} FeeByParameters(order: Order, a: Policy, b: Policy, now: real)
    requires a.parameters == b.parameters && a.notes == b.notes
    ensures CancellationFee(order, a, Some(now)) == CancellationFee(order, b, Some(now))
  {
    hide StatusOf, AsFloat, Truthy;
  }

  lemma {:induction false} CreditByParameters(order: Order, a: Policy, b: Policy, now: real)
    requires a.parameters == b.parameters && a.notes == b.notes
    ensures FailedPickupCredit(order, a, now) == FailedPickupCredit(order, b, now)
  {
    hide AsFloat, AsDecimal, RoundCents, PercentOf, Spells;
  }

  lemma {:induction false} OwnIf(pool: seq<Parameter>, qs: seq<Question>, now: real)
    requires qs != [] && Visible(qs[|qs| - 1])
    requires SameLayer(Leader(qs), OwnerOf(qs[|qs| - 1])) || !Decidable(qs[|qs| - 1])
    ensures OwnDecision(pool, qs, now)
  {
    hide After, Leader, Ruled, PolicyFor, Merged, Unique, Layer, Decidable, Visible;
    var q := qs[|qs| - 1];
    if Unique(pool) && After(pool, qs, now).Some? {
      LedBy(pool, qs, now);
      if SameLayer(Leader(qs), OwnerOf(q)) {
        SameLayerSamePolicy(pool, Leader(qs), OwnerOf(q));
        RuledByParameters(q, PolicyFor(pool, Leader(qs)), PolicyFor(pool, OwnerOf(q)), now);
      } else {
        UndecidableIsUnknown(q, PolicyFor(pool, Leader(qs)), now);
        UndecidableIsUnknown(q, PolicyFor(pool, OwnerOf(q)), now);
      }
    }
  }

  // ---- a pool that tells two accounts apart ---------------------------------

  function Located(id: string, value: Value, scope: string): Parameter {
    Parameter(id, value, scope, Some(0))
  }

  /** Six parameters of one account, and nothing else. */
  function Special(scope: string, hours: real): seq<Parameter> {
    [Located("cancellation.picked_up_blocked", Flag(true), scope),
     Located("cancellation.free_window_minutes", Number(30.0), scope),
     Located("cancellation.fee_waived", Flag(true), scope),
     Located("cancellation.fee_amount", Number(100.0), scope),
     Located("credit.delay_threshold_hours", Number(hours), scope),
     Located("credit.mode", Word("none", None), scope)]
  }

  ghost predicate OneScope(pool: seq<Parameter>, scope: string) {
    Unique(pool) && scope != "" && scope != DEFAULT_SCOPE && forall p :: p in pool ==> p.scope == scope
  }

  lemma {:induction false} SpecialIsOneScope(scope: string, hours: real)
    requires scope != "" && scope != DEFAULT_SCOPE
    ensures OneScope(Special(scope, hours), scope)
  {
    assert "cancellation.fee_waived"[17] != "cancellation.fee_amount"[17];
  }

  lemma {:induction false} EntryOf(pool: seq<Parameter>, p: Parameter)
    requires Unique(pool) && p in pool
    ensures Entry(pool, p.scope, p.id) == Some(p)
  {
    hide Entry;
  }

  /** With entries of one scope only, nothing is displaced. */
  lemma {:induction false} OneScopeAsserted(pool: seq<Parameter>, scope: string, account: Option<string>)
    requires OneScope(pool, scope)
    ensures Merged(pool, account).asserted
  {
    hide Merged, Entry, Unique;
    forall id ensures !Unproven(Own(pool, account, id), Entry(pool, DEFAULT_SCOPE, id)) {
      assert Entry(pool, DEFAULT_SCOPE, id).None?;
    }
    AssertedIff(pool, account);
  }

  /** The account of the scope gets the entries. */
  lemma {:induction false} OwnGets(pool: seq<Parameter>, scope: string, p: Parameter)
    requires OneScope(pool, scope) && p in pool
    ensures Get(PolicyFor(pool, Some(scope)), p.id) == Some(p)
  {
    hide Merged, Entry, Unique;
    EntryOf(pool, p);
    ResolutionIs(pool, Some(scope), p.id);
  }

  /** Every other account gets nothing. */
  lemma {:induction false} OthersGetNothing(pool: seq<Parameter>, scope: string, account: string, id: string)
    requires OneScope(pool, scope) && Layer(account) != Some(scope)
    ensures Get(PolicyFor(pool, Some(account)), id).None?
  {
    hide Merged, Entry, Unique;
    ResolutionIs(pool, Some(account), id);
    assert Entry(pool, DEFAULT_SCOPE, id).None?;
    assert account != scope;
    assert Entry(pool, account, id).None?;
  }

  lemma {:induction false} EmptyPolicy(q: Question, policy: Policy, now: real)
    requires Visible(q) && forall id :: Get(policy, id).None?
    ensures Ruled(q, policy, now) == Some(Unknown())
  {
    hide Get, StatusOf, OverridesFor, Award;
    assert Get(policy, "credit.mode").None? && Get(policy, "cancellation.picked_up_blocked").None?;
    assert Get(policy, "cancellation.free_window_minutes").None?;
  }

  /** What `Special` puts in force. */
  ghost predicate Specially(policy: Policy, hours: real) {
    && Reads(policy, "cancellation.picked_up_blocked", Flag(true))
    && Reads(policy, "cancellation.free_window_minutes", Number(30.0))
    && Reads(policy, "cancellation.fee_waived", Flag(true))
    && Reads(policy, "cancellation.fee_amount", Number(100.0))
    && Reads(policy, "credit.delay_threshold_hours", Number(hours))
    && Reads(policy, "credit.mode", Word("none", None))
  }

  ghost predicate Reads(policy: Policy, id: string, value: Value) {
    Get(policy, id).Some? && Get(policy, id).value.value == value
  }

  lemma {:induction false} SpecialReads(scope: string, hours: real, i: nat)
    requires scope != "" && scope != DEFAULT_SCOPE && i < 6
    ensures var pool := Special(scope, hours);
            Reads(PolicyFor(pool, Some(scope)), pool[i].id, pool[i].value)
  {
    hide PolicyFor, Unique;
    var pool := Special(scope, hours);
    SpecialIsOneScope(scope, hours);
    assert pool[i] in pool;
    OwnGets(pool, scope, pool[i]);
  }

  lemma {:induction false} SpecialIs(scope: string, hours: real)
    requires scope != "" && scope != DEFAULT_SCOPE
    ensures Specially(PolicyFor(Special(scope, hours), Some(scope)), hours)
  {
    hide PolicyFor, Reads;
    forall i: nat | i < 6
      ensures var p := Special(scope, hours)[i]; Reads(PolicyFor(Special(scope, hours), Some(scope)), p.id, p.value)
    {
      SpecialReads(scope, hours, i);
    }
    var pool := Special(scope, hours);
    assert pool[0].id == "cancellation.picked_up_blocked" && pool[1].id == "cancellation.free_window_minutes";
    assert pool[2].id == "cancellation.fee_waived" && pool[3].id == "cancellation.fee_amount";
    assert pool[4].id == "credit.delay_threshold_hours" && pool[5].id == "credit.mode";
  }

  function Lateness(order: Order, now: real): real {
    if order.windowEnd.None? then 0.0
    else ((if order.pickedUpAt.Some? then order.pickedUpAt.value else now) - order.windowEnd.value) / 3600.0
  }

  /** Under it no rule raises, and a decidable order that is not later than the threshold
      gets a verdict. */
  lemma {:induction false} SpecialRules(q: Question, policy: Policy, hours: real, now: real)
    requires Visible(q) && Specially(policy, hours)
    ensures Ruled(q, policy, now).Some?
    ensures Decidable(q) && Lateness(q.row.value, now) <= hours ==> Ruled(q, policy, now) != Some(Unknown())
  {
    hide Get, StatusOf, OverridesFor;
    assert !Spells(Word("none", None), "fixed") && !Spells(Word("none", None), "lower_of");
  }

  lemma {:induction false} NeverRaises(pool: seq<Parameter>, qs: seq<Question>, now: real)
    requires forall account: Option<string> :: Merged(pool, account).asserted
    requires forall q, account: Option<string> :: Visible(q) ==> Ruled(q, PolicyFor(pool, account), now).Some?
    ensures After(pool, qs, now).Some?
  {
    hide Ruled, Merged, PolicyFor;
    if qs != [] {
      var front := qs[..|qs| - 1];
      NeverRaises(pool, front, now);
      LedBy(pool, front, now);
      hide After, Leader;
      AfterStep(pool, qs, now);
    }
  }

  /** Some pool decides the last call otherwise than its own account would. */
  lemma {:induction false} ForeignDecision(qs: seq<Question>, now: real) returns (pool: seq<Parameter>)
    requires qs != [] && Visible(qs[|qs| - 1]) && Decidable(qs[|qs| - 1])
    requires !SameLayer(Leader(qs), OwnerOf(qs[|qs| - 1]))
    ensures !OwnDecision(pool, qs, now)
  {
    var q := qs[|qs| - 1];
    LeaderStep(qs);
    var own, leader := OwnerOf(q).value, Leader(qs).value;
    var hours := Lateness(q.row.value, now);
    var scope := if Layer(own).Some? then own else leader;
    pool := Special(scope, hours);
    hide Visible, Decidable, Leader, After, Ruled, PolicyFor, Merged, Special, Lateness, OneScope;
    SpecialIsOneScope(scope, hours);
    SpecialNeverRaises(scope, hours, qs, now);
    LedBy(pool, qs, now);
    TellsApart(q, scope, if Layer(own).Some? then leader else own, hours, now);
    OneScopeAsserted(pool, scope, Some(own));
    assert Unique(pool) by { OneScopeUnique(pool, scope); }
  }

  lemma {:induction false} OneScopeUnique(pool: seq<Parameter>, scope: string)
    requires OneScope(pool, scope)
    ensures Unique(pool)
  {
    hide Unique;
  }

  lemma {:induction false} TellsApart(q: Question, scope: string, other: string, hours: real, now: real)
    requires Visible(q) && Decidable(q) && scope != "" && scope != DEFAULT_SCOPE && Layer(other) != Some(scope)
    requires Lateness(q.row.value, now) <= hours
    ensures Ruled(q, PolicyFor(Special(scope, hours), Some(scope)), now)
         != Ruled(q, PolicyFor(Special(scope, hours), Some(other)), now)
  {
    hide Visible, Decidable, Ruled, PolicyFor, Special, Lateness, OneScope, Specially, Get;
    var pool := Special(scope, hours);
    SpecialIsOneScope(scope, hours);
    SpecialIs(scope, hours);
    SpecialRules(q, PolicyFor(pool, Some(scope)), hours, now);
    forall id ensures Get(PolicyFor(pool, Some(other)), id).None? { OthersGetNothing(pool, scope, other, id); }
    EmptyPolicy(q, PolicyFor(pool, Some(other)), now);
  }

  lemma {:induction false} SpecialNeverRaises(scope: string, hours: real, qs: seq<Question>, now: real)
    requires scope != "" && scope != DEFAULT_SCOPE
    ensures After(Special(scope, hours), qs, now).Some?
  {
    hide Visible, Ruled, PolicyFor, Special, OneScope, Specially, Get, Merged, After;
    var pool := Special(scope, hours);
    SpecialIsOneScope(scope, hours);
    forall account: Option<string> ensures Merged(pool, account).asserted { OneScopeAsserted(pool, scope, account); }
    forall q, account: Option<string> | Visible(q) ensures Ruled(q, PolicyFor(pool, account), now).Some? {
      SpecialRuleHolds(q, scope, hours, account, now);
    }
    NeverRaises(pool, qs, now);
  }

  lemma {:induction false} SpecialRuleHolds(q: Question, scope: string, hours: real, account: Option<string>, now: real)
    requires Visible(q) && scope != "" && scope != DEFAULT_SCOPE
    ensures Ruled(q, PolicyFor(Special(scope, hours), account), now).Some?
  {
    hide Visible, Ruled, PolicyFor, Special, OneScope, Specially, Get;
    var pool := Special(scope, hours);
    SpecialIsOneScope(scope, hours);
    if account == Some(scope) {
      SpecialIs(scope, hours);
      SpecialRules(q, PolicyFor(pool, account), hours, now);
    } else {
      forall id ensures Get(PolicyFor(pool, account), id).None? {
        if account.Some? {
          OthersGetNothing(pool, scope, account.value, id);
        } else {
          DefaultsGetNothing(pool, scope, id);
        }
      }
      EmptyPolicy(q, PolicyFor(pool, account), now);
    }
  }

  lemma {:induction false} DefaultsGetNothing(pool: seq<Parameter>, scope: string, id: string)
    requires OneScope(pool, scope)
    ensures Get(PolicyFor(pool, None), id).None?
  {
    hide Merged, Entry, Unique;
    ResolutionIs(pool, None, id);
    assert Entry(pool, DEFAULT_SCOPE, id).None?;
  }

  /** The exact condition: whatever the policy pack, the last call is decided as its own
      account's policy decides it, exactly when the first visible order of the run belongs
      to that account, or no parameter could decide the call anyway. */
  lemma {:induction false} OwnDecisionIff(qs: seq<Question>, now: real)
    requires qs != [] && Visible(qs[|qs| - 1])
    ensures (forall pool :: OwnDecision(pool, qs, now)) <==>
              SameLayer(Leader(qs), OwnerOf(qs[|qs| - 1])) || !Decidable(qs[|qs| - 1])
  {
    hide OwnDecision, Leader, SameLayer, Decidable, Visible;
    if SameLayer(Leader(qs), OwnerOf(qs[|qs| - 1])) || !Decidable(qs[|qs| - 1]) {
      forall pool ensures OwnDecision(pool, qs, now) { OwnIf(pool, qs, now); }
    } else {
      var pool := ForeignDecision(qs, now);
    }
  }

  // ---- two orders of different accounts -------------------------------------

  const NOW := 7200.0

  /** Booked at 0, no pickup window. */
  function BookedFor(account: string): Order {
    Order(account, Some("BOOKED"), Some(0.0), None, None, None, None, false, false)
  }

  function FeePool(scope: string, waived: bool): seq<Parameter> {
    [Located("cancellation.fee_waived", Flag(waived), scope),
     Located("cancellation.free_window_minutes", Number(30.0), scope),
     Located("cancellation.fee_amount", Number(100.0), scope)]
  }

  const TWO_ORDERS := [Question(Some("ORD-1001"), "cancellation_fee", Some(BookedFor("A"))),
                       Question(Some("ORD-2001"), "cancellation_fee", Some(BookedFor("B")))]

  lemma {:induction false} FeePoolIsOneScope(waived: bool)
    ensures OneScope(FeePool("A", waived), "A")
  {
    assert "cancellation.fee_waived"[17] != "cancellation.fee_amount"[17];
  }

  lemma {:induction false} NamedVisible(id: string, order: Order)
    requires InkBounded(id)
    ensures Visible(Question(Some(id), "cancellation_fee", Some(order)))
  {
    hide Strip;
    StripUnique("", id, "");
    assert "" + id + "" == id;
  }

  lemma {:induction false} FeeVerdict(waived: bool, id: string, account: string)
    requires InkBounded(id)
    ensures var q := Question(Some(id), "cancellation_fee", Some(BookedFor(account)));
            && Visible(q)
            && var d := Ruled(q, PolicyFor(FeePool("A", waived), Some("A")), NOW);
               d.Some? && d.value.verdict == if waived then Allowed else Denied
  {
    var pool := FeePool("A", waived);
    FeePoolIsOneScope(waived);
    assert pool[0] in pool && pool[1] in pool && pool[2] in pool;
    OwnGets(pool, "A", pool[0]);
    OwnGets(pool, "A", pool[1]);
    OwnGets(pool, "A", pool[2]);
    hide Get, PolicyFor, OverridesFor, OneScope;
    NamedVisible(id, BookedFor(account));
    assert Upper("BOOKED") == "BOOKED";
  }

  lemma {:induction false} AfterTwo(pool: seq<Parameter>, a: Question, b: Question, now: real)
    requires Visible(a) && Visible(b) && Merged(pool, OwnerOf(a)).asserted
    requires var policy := PolicyFor(pool, OwnerOf(a)); Ruled(a, policy, now).Some? && Ruled(b, policy, now).Some?
    ensures var policy := PolicyFor(pool, OwnerOf(a));
            After(pool, [a, b], now) ==
              Some(Desk(Some(policy), [Ruled(a, policy, now).value, Ruled(b, policy, now).value]))
  {
    hide Merged, Ruled, Visible, PolicyFor;
    AfterStep(pool, [a, b], now);
    AfterStep(pool, [a], now);
    assert [a, b][..1] == [a] && [a][..0] == [];
    var policy := PolicyFor(pool, OwnerOf(a));
    var d, e := Ruled(a, policy, now).value, Ruled(b, policy, now).value;
    assert [] + [d] == [d] && [d] + [e] == [d, e];
    assert Decide(CLEAR, pool, a, now) == Some(Desk(Some(policy), [d]));
  }

  /** Two packs that agree on all that concerns account B decide the same order of B
      differently, because an order of A was decided before it. */
  lemma {:induction false} OtherAccountDecides()
    ensures var p, q := FeePool("A", true), FeePool("A", false);
            && Unique(p) && Unique(q) && Agree(p, q, Some("B"))
            && var a, b := After(p, TWO_ORDERS, NOW), After(q, TWO_ORDERS, NOW);
               && a.Some? && |a.value.decisions| == 2 && a.value.decisions[1].verdict == Allowed
               && b.Some? && |b.value.decisions| == 2 && b.value.decisions[1].verdict == Denied
  {
    hide After, Merged, PolicyFor, Ruled, Visible, Unique, FeePool;
    TwoDecided(true);
    TwoDecided(false);
    OneScopesAgree(FeePool("A", true), FeePool("A", false), "A", "B");
  }

  lemma {:induction false} TwoDecided(waived: bool)
    ensures OneScope(FeePool("A", waived), "A")
    ensures var r := After(FeePool("A", waived), TWO_ORDERS, NOW);
            r.Some? && |r.value.decisions| == 2 && r.value.decisions[1].verdict == (if waived then Allowed else Denied)
  {
    hide After, Merged, PolicyFor, Ruled, Visible, OneScope, FeePool;
    var pool := FeePool("A", waived);
    FeePoolIsOneScope(waived);
    OneScopeAsserted(pool, "A", Some("A"));
    FeeVerdict(waived, "ORD-1001", "A");
    FeeVerdict(waived, "ORD-2001", "B");
    AfterTwo(pool, TWO_ORDERS[0], TWO_ORDERS[1], NOW);
  }

  lemma {:induction false} OneScopesAgree(p: seq<Parameter>, q: seq<Parameter>, scope: string, other: string)
    requires OneScope(p, scope) && OneScope(q, scope) && scope != other
    ensures Unique(p) && Unique(q) && Agree(p, q, Some(other))
  {
    hide Unique;
  }
}

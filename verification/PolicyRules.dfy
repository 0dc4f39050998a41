/** Deterministic verdicts and money (agentcore/policy/rules.py).

    Instants are seconds, amounts are exact, and a rule answers `None` where a policy
    value that should be a number is not one. Both rules work on parameters resolved by
    module PolicyPack, and cite the clause of the parameter that decided. */
module PolicyRules {
  import opened Text
  import opened PolicyPack

  datatype Verdict = Allowed | Denied | Eligible | NotEligible | Indeterminate

  datatype Decision = Decision(verdict: Verdict, citation: Option<Parameter>, amount: Option<real>,
                               approval: Option<bool>, conflicts: map<string, Note>)

  datatype Order = Order(account: string, status: Option<string>, bookedAt: Option<real>, windowEnd: Option<real>,
                         pickedUpAt: Option<real>, requestedAt: Option<real>, fee: Option<real>, carrierFault: bool,
                         customerFault: bool)

  function Get(policy: Policy, id: string): Option<Parameter> {
    if id in policy.parameters then Some(policy.parameters[id]) else None
  }

  /** The override notes of one family of parameters. */
  function OverridesFor(policy: Policy, prefix: string): map<string, Note> {
    map id | id in policy.notes && prefix <= id :: policy.notes[id]
  }

  function Truthy(v: Value): bool {
    match v
    case Number(amount) => amount != 0.0
    case Flag(on) => on
    case Word(text, _) => text != ""
  }

  /** `float(value)`: a flag counts as 0 or 1. */
  function AsFloat(v: Value): Option<real> {
    match v
    case Number(amount) => Some(amount)
    case Flag(on) => Some(if on then 1.0 else 0.0)
    case Word(_, numeral) => numeral
  }

  /** `Decimal(str(value))`: a flag is no number. */
  function AsDecimal(v: Value): Option<real> {
    match v
    case Number(amount) => Some(amount)
    case Flag(_) => None
    case Word(_, numeral) => numeral
  }

  predicate Spells(v: Value, text: string) {
    v.Word? && v.text == text
  }

  function Unknown(): Decision {
    Decision(Indeterminate, None, None, None, map[])
  }

  function Cited(verdict: Verdict, p: Parameter, conflicts: map<string, Note>): Decision {
    Decision(verdict, Some(p), None, None, conflicts)
  }

  function UpperChar(c: char): char {
    if 'a' <= c <= 'z' then c - 32 as char else c
  }

  function Upper(s: string): (r: string)
  {
    seq(|s|, i requires 0 <= i < |s| => UpperChar(s[i]))
  }

  function StatusOf(order: Order): string {
    if order.status.Some? then Upper(order.status.value) else ""
  }

  function Or(a: Option<real>, b: Option<real>): Option<real> {
    if a.Some? then a else b
  }

  // ---- cancellation ---------------------------------------------------------

  function CancellationFee(order: Order, policy: Policy, now: Option<real>): Option<Decision> {
    var status := StatusOf(order);
    if status == "" then Some(Unknown())
    else if status == "DELIVERED" || status == "PICKED_UP" then
      match Get(policy, "cancellation.picked_up_blocked")
      case None => Some(Unknown())
      case Some(blocked) => Some(Cited(Denied, blocked, map[]))
    else if status == "DRAFT" then
      match Get(policy, "cancellation.free_window_minutes")
      case None => Some(Unknown())
      case Some(window) => Some(Cited(Allowed, window, map[]))
    else if status != "BOOKED" then Some(Unknown())
    else BookedFee(order, policy, Or(order.requestedAt, now))
  }

  function BookedFee(order: Order, policy: Policy, requestedAt: Option<real>): Option<Decision> {
    var waived, window := Get(policy, "cancellation.fee_waived"), Get(policy, "cancellation.free_window_minutes");
    var fee := Get(policy, "cancellation.fee_amount");
    if waived.None? || window.None? || fee.None? then Some(Unknown())
    else
      var conflicts := OverridesFor(policy, "cancellation");
      if Truthy(waived.value.value) then Some(Cited(Allowed, waived.value, conflicts))
      else if order.bookedAt.None? || requestedAt.None? then Some(Unknown())
      else
        var elapsed := (requestedAt.value - order.bookedAt.value) / 60.0;
        if elapsed < 0.0 then Some(Unknown())
        else
          match AsFloat(window.value.value)
          case None => None
          case Some(minutes) =>
            if elapsed <= minutes then Some(Cited(Allowed, window.value, conflicts))
            else Some(Cited(Denied, fee.value, conflicts))
  }

  /** Reading order of the verdicts as a cancellation request moves later. */
  function Stage(d: Option<Decision>): nat {
    match d
    case None => 1
    case Some(decision) => if decision.verdict == Indeterminate then 0 else if decision.verdict == Allowed then 1 else 2
  }

  predicate Booked(order: Order) {
    StatusOf(order) == "BOOKED"
  }

  /** The fee is charged exactly when nothing waives it and the window has passed. */
  lemma {:induction false} FeeChargedIff(order: Order, policy: Policy, now: Option<real>)
    requires Booked(order)
    ensures var d := CancellationFee(order, policy, now);
            var waived, window := Get(policy, "cancellation.fee_waived"), Get(policy, "cancellation.free_window_minutes");
            var fee, at := Get(policy, "cancellation.fee_amount"), Or(order.requestedAt, now);
            d.Some? && d.value.verdict == Denied <==>
              && waived.Some? && window.Some? && fee.Some? && order.bookedAt.Some? && at.Some?
              && !Truthy(waived.value.value) && AsFloat(window.value.value).Some?
              && at.value >= order.bookedAt.value
              && at.value > order.bookedAt.value + 60.0 * AsFloat(window.value.value).value
  {
    hide Get, OverridesFor, Truthy, StatusOf;
  }

  /** It is free exactly when it is waived, or when the request falls into the window. */
  lemma {:induction false} FreeIff(order: Order, policy: Policy, now: Option<real>)
    requires Booked(order)
    ensures var d := CancellationFee(order, policy, now);
            var waived, window := Get(policy, "cancellation.fee_waived"), Get(policy, "cancellation.free_window_minutes");
            var fee, at := Get(policy, "cancellation.fee_amount"), Or(order.requestedAt, now);
            d.Some? && d.value.verdict == Allowed <==>
              && waived.Some? && window.Some? && fee.Some?
              && (Truthy(waived.value.value)
                  || (order.bookedAt.Some? && at.Some? && AsFloat(window.value.value).Some?
                      && 0.0 <= at.value - order.bookedAt.value <= 60.0 * AsFloat(window.value.value).value))
  {
    hide Get, OverridesFor, Truthy, StatusOf;
  }

  /** Under a waiver no request, early or late, dated or not, is charged. */
  lemma {:induction false} WaiverNeverCharged(order: Order, policy: Policy, now: Option<real>)
    requires Booked(order)
    requires Get(policy, "cancellation.fee_waived").Some? && Truthy(Get(policy, "cancellation.fee_waived").value.value)
    ensures var d := CancellationFee(order, policy, now);
            && d.Some? && d.value.verdict != Denied
            && (d.value.verdict == Allowed ==> d.value.citation == Get(policy, "cancellation.fee_waived"))
  {
    hide Get, OverridesFor, Truthy, StatusOf;
  }

  /** As the request moves later the verdict goes from undecidable to free to charged,
      and never back. */
  lemma {:induction false} FeeFlipsOnce(order: Order, policy: Policy, early: real, late: real)
    requires Booked(order) && order.requestedAt.None? && early <= late
    ensures Stage(CancellationFee(order, policy, Some(early))) <= Stage(CancellationFee(order, policy, Some(late)))
  {
    hide Get, OverridesFor, Truthy, StatusOf;
    if order.bookedAt.Some? { assert (early - order.bookedAt.value) / 60.0 <= (late - order.bookedAt.value) / 60.0; }
  }

  /** Only an undecided case may go without a clause, and a recorded request makes the
      present irrelevant. */
  lemma {:induction false} DecidedIsCited(order: Order, policy: Policy, now: Option<real>, other: Option<real>)
    ensures var d := CancellationFee(order, policy, now);
            d.Some? ==> (d.value.citation.None? <==> d.value.verdict == Indeterminate)
    ensures order.requestedAt.Some? ==> CancellationFee(order, policy, now) == CancellationFee(order, policy, other)
  {
    hide Get, OverridesFor, Truthy, StatusOf, BookedFee;
    BookedIsCited(order, policy, Or(order.requestedAt, now));
  }

  lemma {:induction false} BookedIsCited(order: Order, policy: Policy, requestedAt: Option<real>)
    ensures var d := BookedFee(order, policy, requestedAt);
            d.Some? ==> (d.value.citation.None? <==> d.value.verdict == Indeterminate)
  {
    hide Get, OverridesFor, Truthy;
  }

  // ---- money ----------------------------------------------------------------

  /** Whole cents nearest to an amount, ties away from zero. */
  function Cents(x: real): int {
    if x >= 0.0 then (x * 100.0 + 0.5).Floor else -(-x * 100.0 + 0.5).Floor
  }

  function RoundCents(x: real): real {
    Cents(x) as real / 100.0
  }

  lemma {:induction false} RoundsToNearest(x: real)
    ensures x - 0.005 <= RoundCents(x) <= x + 0.005
  {
    var n := if x >= 0.0 then (x * 100.0 + 0.5).Floor else -(-x * 100.0 + 0.5).Floor;
    assert x * 100.0 - 0.5 <= n as real <= x * 100.0 + 0.5;
  }

  lemma {:induction false} TiesGoAway(n: nat)
    ensures Cents((n as real + 0.5) / 100.0) == n + 1
    ensures Cents(-((n as real + 0.5) / 100.0)) == -(n + 1)
  {
    var x := (n as real + 0.5) / 100.0;
    assert x * 100.0 + 0.5 == (n + 1) as real;
    assert -(-x) == x && x > 0.0;
  }

  lemma {:induction false} CentsMonotone(x: real, y: real)
    requires x <= y
    ensures Cents(x) <= Cents(y)
  {
    if x >= 0.0 {
      assert (x * 100.0 + 0.5).Floor <= (y * 100.0 + 0.5).Floor;
    } else if y < 0.0 {
      assert (-y * 100.0 + 0.5).Floor <= (-x * 100.0 + 0.5).Floor;
    } else {
      assert 0.5.Floor <= (y * 100.0 + 0.5).Floor;
      assert 0.5.Floor <= (-x * 100.0 + 0.5).Floor;
    }
  }

  lemma {:induction false} RoundMonotone(x: real, y: real)
    requires x <= y
    ensures RoundCents(x) <= RoundCents(y)
  {
    hide Cents;
    CentsMonotone(x, y);
  }

  function PercentOf(fee: real, percent: real): real {
    fee * percent / 100.0
  }

  function Min(a: real, b: real): real {
    if b < a then b else a
  }

  datatype Credit = NoCredit | BadValue | Credit(amount: real, cites: Parameter)

  const LOWER_OF := Word("lower_of", None)

  function CreditAmount(fee: Option<real>, policy: Policy, mode: Value): Credit {
    if Spells(mode, "fixed") then
      match Get(policy, "credit.fixed_amount")
      case None => NoCredit
      case Some(fixed) =>
        if AsDecimal(fixed.value).None? then BadValue else Credit(AsDecimal(fixed.value).value, fixed)
    else if Spells(mode, "lower_of") then
      var cap, percent := Get(policy, "credit.flat_cap"), Get(policy, "credit.percent_of_fee");
      if cap.None? || percent.None? || fee.None? then NoCredit
      else if AsDecimal(percent.value.value).None? || AsDecimal(cap.value.value).None? then BadValue
      else
        var pctAmount := RoundCents(PercentOf(fee.value, AsDecimal(percent.value.value).value));
        var capAmount := AsDecimal(cap.value.value).value;
        var chosen := Min(capAmount, pctAmount);
        Credit(chosen, if chosen == capAmount then cap.value else percent.value)
    else NoCredit
  }

  predicate LowerOf(policy: Policy, cap: real, percent: real) {
    && Get(policy, "credit.flat_cap").Some? && AsDecimal(Get(policy, "credit.flat_cap").value.value) == Some(cap)
    && Get(policy, "credit.percent_of_fee").Some?
    && AsDecimal(Get(policy, "credit.percent_of_fee").value.value) == Some(percent)
  }

  /** The credit never exceeds the cap, is the exact minimum to within half a cent, and
      cites the parameter that gave it. */
  lemma {:induction false} LowerOfIsExactToACent(fee: real, policy: Policy, cap: real, percent: real)
    requires LowerOf(policy, cap, percent)
    ensures var c := CreditAmount(Some(fee), policy, LOWER_OF);
            var exact := Min(cap, PercentOf(fee, percent));
            && c.Credit? && c.amount <= cap && exact - 0.005 <= c.amount <= exact + 0.005
            && (c.cites == Get(policy, "credit.flat_cap").value ==>
                  c.amount == cap || Get(policy, "credit.flat_cap") == Get(policy, "credit.percent_of_fee"))
            && (c.amount == cap ==> c.cites == Get(policy, "credit.flat_cap").value)
            && (c.amount != cap ==>
                  && c.amount == RoundCents(PercentOf(fee, percent))
                  && c.cites == Get(policy, "credit.percent_of_fee").value)
  {
    hide Get, RoundCents, PercentOf;
    RoundsToNearest(PercentOf(fee, percent));
  }

  lemma {:induction false} Scaled(a: real, b: real, p: real)
    requires a <= b && p >= 0.0
    ensures PercentOf(a, p) <= PercentOf(b, p)
  {
    assert (b - a) * p >= 0.0;
  }

  /** A larger fee never yields a smaller credit. */
  lemma {:induction false} CreditMonotoneInFee(small: real, large: real, policy: Policy, cap: real, percent: real)
    requires LowerOf(policy, cap, percent) && small <= large && percent >= 0.0
    ensures CreditAmount(Some(small), policy, LOWER_OF).amount
         <= CreditAmount(Some(large), policy, LOWER_OF).amount
  {
    hide Get, RoundCents, PercentOf;
    Scaled(small, large, percent);
    RoundMonotone(PercentOf(small, percent), PercentOf(large, percent));
  }

  // ---- failed pickup --------------------------------------------------------

  function FailedPickupCredit(order: Order, policy: Policy, now: real): Option<Decision> {
    var threshold, mode := Get(policy, "credit.delay_threshold_hours"), Get(policy, "credit.mode");
    if threshold.None? || mode.None? || order.windowEnd.None? then Some(Unknown())
    else
      var conflicts := OverridesFor(policy, "credit");
      if order.customerFault || !order.carrierFault then Some(Cited(NotEligible, threshold.value, conflicts))
      else
        var reference := if order.pickedUpAt.Some? then order.pickedUpAt.value else now;
        var delay := (reference - order.windowEnd.value) / 3600.0;
        match AsFloat(threshold.value.value)
        case None => None
        case Some(hours) =>
          if delay <= hours then Some(Cited(NotEligible, threshold.value, conflicts))
          else Award(order, policy, mode.value.value, conflicts)
  }

  function Award(order: Order, policy: Policy, mode: Value, conflicts: map<string, Note>): Option<Decision> {
    match CreditAmount(order.fee, policy, mode)
    case NoCredit => Some(Unknown())
    case BadValue => None
    case Credit(amount, cites) =>
      match Get(policy, "credit.manager_approval_above")
      case None => Some(Decision(Eligible, Some(cites), Some(amount), None, conflicts))
      case Some(approval) =>
        match AsDecimal(approval.value)
        case None => None
        case Some(limit) => Some(Decision(Eligible, Some(cites), Some(amount), Some(amount > limit), conflicts))
  }

  /** Once late enough, always late enough, and for the same amount and clause: the later
      decision is the same decision. */
  lemma {:induction false} EligibilityOnlyGrows(order: Order, policy: Policy, early: real, late: real)
    requires early <= late
    ensures var a, b := FailedPickupCredit(order, policy, early), FailedPickupCredit(order, policy, late);
            && (a.Some? && a.value.verdict == Eligible ==> b == a)
            && (order.pickedUpAt.Some? ==> a == b)
            && (b.Some? && b.value.verdict == NotEligible ==> a == b)
  {
    hide Get, OverridesFor, CreditAmount;
    if order.windowEnd.Some? {
      assert (early - order.windowEnd.value) / 3600.0 <= (late - order.windowEnd.value) / 3600.0;
    }
  }

  /** A credit is promised exactly when the delay exceeds the threshold, the carrier alone
      is at fault, and the amount can be computed. */
  lemma {:induction false} EligibleIff(order: Order, policy: Policy, now: real)
    ensures var d := FailedPickupCredit(order, policy, now);
            var threshold, mode := Get(policy, "credit.delay_threshold_hours"), Get(policy, "credit.mode");
            d.Some? && d.value.verdict == Eligible <==>
              && threshold.Some? && mode.Some? && order.windowEnd.Some?
              && order.carrierFault && !order.customerFault && AsFloat(threshold.value.value).Some?
              && Or(order.pickedUpAt, Some(now)).value >
                   order.windowEnd.value + 3600.0 * AsFloat(threshold.value.value).value
              && CreditAmount(order.fee, policy, mode.value.value).Credit?
              && (var approval := Get(policy, "credit.manager_approval_above");
                  approval.Some? ==> AsDecimal(approval.value.value).Some?)
  {
    hide Get, OverridesFor, CreditAmount;
  }

  /** It is refused exactly when the customer is at fault, or the carrier is not, or the
      delay is within the threshold; and a case with either of them missing is undecided. */
  lemma {:induction false} NotEligibleIff(order: Order, policy: Policy, now: real)
    ensures var d := FailedPickupCredit(order, policy, now);
            var threshold, mode := Get(policy, "credit.delay_threshold_hours"), Get(policy, "credit.mode");
            d.Some? && d.value.verdict == NotEligible <==>
              && threshold.Some? && mode.Some? && order.windowEnd.Some?
              && (|| order.customerFault || !order.carrierFault
                  || (AsFloat(threshold.value.value).Some?
                      && Or(order.pickedUpAt, Some(now)).value <=
                           order.windowEnd.value + 3600.0 * AsFloat(threshold.value.value).value))
    ensures Get(policy, "credit.delay_threshold_hours").None? || Get(policy, "credit.mode").None?
            || order.windowEnd.None? ==>
              FailedPickupCredit(order, policy, now) == Some(Unknown())
  {
    hide Get, OverridesFor, CreditAmount;
  }

  /** Only a promise carries an amount. */
  lemma {:induction false} OnlyPromisesHaveAmounts(order: Order, policy: Policy, now: real)
    ensures var d := FailedPickupCredit(order, policy, now);
            d.Some? ==> (d.value.amount.Some? <==> d.value.verdict == Eligible)
  {
    hide Get, OverridesFor, CreditAmount, AsFloat, AsDecimal;
  }

  lemma {:induction false} FeesHaveNoAmount(order: Order, policy: Policy, now: Option<real>)
    ensures var d := CancellationFee(order, policy, now); d.Some? ==> d.value.amount.None? && d.value.approval.None?
  {
    hide Get, OverridesFor, StatusOf, BookedFee;
    BookedHasNoAmount(order, policy, Or(order.requestedAt, now));
  }

  lemma {:induction false} BookedHasNoAmount(order: Order, policy: Policy, requestedAt: Option<real>)
    ensures var d := BookedFee(order, policy, requestedAt); d.Some? ==> d.value.amount.None? && d.value.approval.None?
  {
    hide Get, OverridesFor, Truthy, AsFloat;
  }

  // ---- what is promised -----------------------------------------------------

  /** The value is written as this number. */
  predicate Written(v: Value, x: real) {
    v == Number(x) || (v.Word? && v.numeral == Some(x))
  }

  predicate Sets(policy: Policy, id: string, x: real) {
    Get(policy, id).Some? && Written(Get(policy, id).value.value, x)
  }

  predicate Mode(policy: Policy, mode: string) {
    && Get(policy, "credit.mode").Some? && Get(policy, "credit.mode").value.value.Word?
    && Get(policy, "credit.mode").value.value.text == mode
  }

  predicate Promises(order: Order, policy: Policy, now: real) {
    var d := FailedPickupCredit(order, policy, now);
    d.Some? && d.value.verdict == Eligible
  }

  lemma {:induction false} WrittenIsNumber(v: Value, x: real)
    ensures AsDecimal(v) == Some(x) <==> Written(v, x)
    ensures AsFloat(v) == Some(x) <==> Written(v, x) || (v.Flag? && x == if v.on then 1.0 else 0.0)
  {
  }

  /** A waiver is anything but zero, a flag that is off, and the empty text. */
  lemma {:induction false} WaivesUnless(v: Value)
    ensures !Truthy(v) <==> v == Number(0.0) || v == Flag(false) || (v.Word? && v.text == "")
  {
  }

  lemma {:induction false} AwardAmount(order: Order, policy: Policy, now: real)
    requires Promises(order, policy, now)
    ensures Get(policy, "credit.mode").Some?
    ensures var d, c := FailedPickupCredit(order, policy, now).value,
                        CreditAmount(order.fee, policy, Get(policy, "credit.mode").value.value);
            c.Credit? && d.amount == Some(c.amount) && d.citation == Some(c.cites)
  {
    hide Get, OverridesFor, CreditAmount, AsFloat, AsDecimal;
  }

  /** Under "lower_of" the credit promised never exceeds the cap, is the lower of the cap and
      the percentage of the fee to within half a cent, and cites the one that gave it. */
  lemma {:induction false} LowerOfPromise(order: Order, policy: Policy, now: real, cap: real, percent: real)
    requires Mode(policy, "lower_of") && Promises(order, policy, now)
    requires Sets(policy, "credit.flat_cap", cap) && Sets(policy, "credit.percent_of_fee", percent)
    ensures order.fee.Some? && FailedPickupCredit(order, policy, now).value.amount.Some?
    ensures var d, share := FailedPickupCredit(order, policy, now).value, order.fee.value * percent / 100.0;
            var exact := if share < cap then share else cap;
            && d.amount.value <= cap && exact - 0.005 <= d.amount.value <= exact + 0.005
            && d.citation == Get(policy, if d.amount.value == cap then "credit.flat_cap" else "credit.percent_of_fee")
  {
    hide Get, OverridesFor, RoundCents, PercentOf, FailedPickupCredit, Cents;
    AwardAmount(order, policy, now);
    WrittenIsNumber(Get(policy, "credit.flat_cap").value.value, cap);
    WrittenIsNumber(Get(policy, "credit.percent_of_fee").value.value, percent);
    ModeIs(policy, "lower_of", LOWER_OF, order.fee);
    RoundsToNearest(PercentOf(order.fee.value, percent));
    PercentIs(order.fee.value, percent);
  }

  lemma {:induction false} PercentIs(fee: real, percent: real)
    ensures PercentOf(fee, percent) == fee * percent / 100.0
  {
  }

  /** Only the word matters. */
  lemma {:induction false} ModeIs(policy: Policy, text: string, word: Value, fee: Option<real>)
    requires Mode(policy, text) && Spells(word, text)
    ensures CreditAmount(fee, policy, Get(policy, "credit.mode").value.value) == CreditAmount(fee, policy, word)
  {
    hide Get, RoundCents, PercentOf, AsDecimal;
  }

  /** A larger fee never promises less. */
  lemma {:induction false} PromiseGrowsWithFee(order: Order, policy: Policy, now: real, small: real, large: real,
                                               cap: real, percent: real)
    requires Mode(policy, "lower_of") && small <= large && percent >= 0.0
    requires Sets(policy, "credit.flat_cap", cap) && Sets(policy, "credit.percent_of_fee", percent)
    requires Promises(order.(fee := Some(small)), policy, now) && Promises(order.(fee := Some(large)), policy, now)
    ensures var a, b := FailedPickupCredit(order.(fee := Some(small)), policy, now).value,
                        FailedPickupCredit(order.(fee := Some(large)), policy, now).value;
            a.amount.Some? && b.amount.Some? && a.amount.value <= b.amount.value
  {
    hide Get, FailedPickupCredit, CreditAmount, AsDecimal;
    AwardAmount(order.(fee := Some(small)), policy, now);
    AwardAmount(order.(fee := Some(large)), policy, now);
    WrittenIsNumber(Get(policy, "credit.flat_cap").value.value, cap);
    WrittenIsNumber(Get(policy, "credit.percent_of_fee").value.value, percent);
    ModeIs(policy, "lower_of", LOWER_OF, Some(small));
    ModeIs(policy, "lower_of", LOWER_OF, Some(large));
    CreditMonotoneInFee(small, large, policy, cap, percent);
  }

  /** Under "fixed" the fixed amount is promised and cited, whatever the fee. */
  lemma {:induction false} FixedPromise(order: Order, policy: Policy, now: real, amount: real)
    requires Mode(policy, "fixed") && Promises(order, policy, now) && Sets(policy, "credit.fixed_amount", amount)
    ensures var d := FailedPickupCredit(order, policy, now).value;
            d.amount == Some(amount) && d.citation == Get(policy, "credit.fixed_amount")
  {
    hide Get, FailedPickupCredit, RoundCents, PercentOf;
    AwardAmount(order, policy, now);
    WrittenIsNumber(Get(policy, "credit.fixed_amount").value.value, amount);
  }

  /** No other mode promises anything. */
  lemma {:induction false} OtherModesPromiseNothing(order: Order, policy: Policy, now: real)
    requires Promises(order, policy, now)
    ensures Mode(policy, "fixed") || Mode(policy, "lower_of")
  {
    hide Get, FailedPickupCredit, RoundCents, PercentOf, AsDecimal;
    AwardAmount(order, policy, now);
  }

  /** A manager must approve exactly what exceeds the limit; without a limit nothing is said. */
  lemma {:induction false} ApprovalIff(order: Order, policy: Policy, now: real)
    requires Promises(order, policy, now)
    ensures var d, limit := FailedPickupCredit(order, policy, now).value, Get(policy, "credit.manager_approval_above");
            && (d.approval.None? <==> limit.None?)
            && forall x :: limit.Some? && Written(limit.value.value, x) ==>
                 d.amount.Some? && d.approval == Some(d.amount.value > x)
  {
    hide Get, OverridesFor, CreditAmount, AsFloat;
  }

  /** What a decided credit reports as overridden: the notes of the credit parameters. */
  lemma {:induction false} CreditReports(order: Order, policy: Policy, now: real)
    ensures var d := FailedPickupCredit(order, policy, now);
            d.Some? && d.value.verdict != Indeterminate ==>
              d.value.conflicts == (map id | id in policy.notes && "credit" <= id :: policy.notes[id])
    ensures var d := FailedPickupCredit(order, policy, now);
            d.Some? && d.value.verdict == NotEligible ==> d.value.citation == Get(policy, "credit.delay_threshold_hours")
  {
    hide Get, CreditAmount, AsFloat, AsDecimal;
  }

  /** A delivered or picked-up order cannot be cancelled, whatever the time; a draft can, free
      of charge; each by the parameter that says so. */
  lemma {:induction false} FixedVerdicts(order: Order, policy: Policy, now: Option<real>)
    ensures StatusOf(order) in {"DELIVERED", "PICKED_UP"} ==>
              var blocked := Get(policy, "cancellation.picked_up_blocked");
              && CancellationFee(order, policy, now).Some?
              && var d := CancellationFee(order, policy, now).value;
                 if blocked.Some? then d == Decision(Denied, blocked, None, None, map[]) else d == Unknown()
    ensures StatusOf(order) == "DRAFT" ==>
              var window := Get(policy, "cancellation.free_window_minutes");
              && CancellationFee(order, policy, now).Some?
              && var d := CancellationFee(order, policy, now).value;
                 if window.Some? then d == Decision(Allowed, window, None, None, map[]) else d == Unknown()
    ensures StatusOf(order) !in {"DELIVERED", "PICKED_UP", "DRAFT", "BOOKED"} ==>
              CancellationFee(order, policy, now) == Some(Unknown())
  {
    hide Get, StatusOf, BookedFee;
  }

  /** The status is read in any case. */
  lemma {:induction false} StatusInAnyCase(order: Order)
    ensures order.status == Some("delivered") ==> StatusOf(order) == "DELIVERED"
    ensures order.status == Some("Picked_Up") ==> StatusOf(order) == "PICKED_UP"
    ensures order.status == Some("booked") ==> StatusOf(order) == "BOOKED"
  {
    assert Upper("delivered") == "DELIVERED";
    assert Upper("Picked_Up") == "PICKED_UP";
    assert Upper("booked") == "BOOKED";
  }

  /** A charge cites the fee; a free cancellation cites the waiver if there is one, and else
      the window; both report the overrides of the cancellation parameters. */
  lemma {:induction false} BookedCites(order: Order, policy: Policy, now: Option<real>)
    requires Booked(order)
    ensures var d, waived := CancellationFee(order, policy, now), Get(policy, "cancellation.fee_waived");
            d.Some? ==>
              && (d.value.verdict == Denied ==> d.value.citation == Get(policy, "cancellation.fee_amount"))
              && (d.value.verdict == Allowed ==>
                    waived.Some? && d.value.citation ==
                      if Truthy(waived.value.value) then waived else Get(policy, "cancellation.free_window_minutes"))
              && (d.value.verdict in {Denied, Allowed} ==>
                    d.value.conflicts == (map id | id in policy.notes && "cancellation" <= id :: policy.notes[id]))
  {
    hide Get, StatusOf, Truthy, AsFloat;
  }

  // ---- other accounts -------------------------------------------------------

  function PolicyFor(pool: seq<Parameter>, account: Option<string>): Policy {
    Policy(account, Merged(pool, account).merged, Merged(pool, account).notes)
  }

  /** Under its own account's policy no change to other accounts' entries, and no
      reordering of the entries, changes an order's verdict, amount, clause or reported
      override. */
  lemma {:induction false} VerdictsDoNotInterfere(p: seq<Parameter>, q: seq<Parameter>, order: Order, now: real)
    requires Unique(p) && Unique(q) && Agree(p, q, Some(order.account))
    ensures var mine, yours := PolicyFor(p, Some(order.account)), PolicyFor(q, Some(order.account));
            && CancellationFee(order, mine, Some(now)) == CancellationFee(order, yours, Some(now))
            && FailedPickupCredit(order, mine, now) == FailedPickupCredit(order, yours, now)
  {
    hide Merged, CancellationFee, FailedPickupCredit, Unique, Agree;
    NonInterference(p, q, Some(order.account));
  }
}

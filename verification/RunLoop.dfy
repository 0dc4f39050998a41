/** One question from plan to outcome (agentcore/orchestrator/engine.py, lines 299-330,
    355-981 and 1674-1735). */
module RunLoop {
  import opened Text
  import opened Types
  import opened Validator
  import opened Channels
  import opened Router
  import Decisions
  import PolicyPack
  import PolicyRules
  import Ledger
  import LedgerRuns
  import Principals

  datatype Config = Config(maxSteps: nat, maxRegenerations: nat, requireVerbatim: bool) {
    function Attempts(): nat {
      maxRegenerations + 1
    }
  }

  /** A budget error, an unavailable provider, or anything else. */
  datatype Raise = OverBudget | Upstream | Crash

  datatype Reason =
    | OutOfScope | RecordNotFound | NoEligibleSource | LowConfidence | CitationsFailed | BudgetExhausted | Unavailable

  datatype Answer = Answer(claims: seq<Claim>, refusal: Option<Reason>, tableOnly: bool)

  /** The rule an answer is checked against when it is built (agentcore/types.py, lines 280-289). */
  predicate ExactlyOneOutcome(a: Answer) {
    && !((a.claims != [] || a.tableOnly) && a.refusal.Some?)
    && (a.claims != [] || a.tableOnly || a.refusal.Some?)
    && !(a.tableOnly && a.claims != [])
  }

  datatype RunStatus = Completed | AwaitingConfirmation | FailedRun

  /** No answer stands for the error that is raised once the run is marked failed. */
  datatype Response = Response(status: RunStatus, answer: Option<Answer>, pending: Option<nat>)

  /** What the run holds: its latest proposal, all of them, and the ledger it shares. */
  datatype Held = Held(prepared: Option<nat>, proposals: seq<nat>, ledger: Ledger.State)

  datatype Routing = Routing(raises: Option<Raise>, outOfScope: bool, tools: seq<Tool>)

  /** What a preparing call asks the ledger to store, and the row it is given back: the
      new one, or the one already stored under the same key. */
  datatype Proposed = Proposed(stored: Ledger.Event, row: nat)

  /** What one tool call meets: `order` is the row a decision reads. Others' ledger events
      come before it. */
  datatype Met = Met(raises: Option<Raise>, found: nat, search: Result, order: Option<PolicyRules.Order>, issues: nat,
                     others: seq<Ledger.Event>, proposal: Option<Proposed>)

  /** What decisions are taken by: the tenant's policy pack, and the time of the run. */
  datatype Book = Book(pool: seq<PolicyPack.Parameter>, now: real)

  datatype Reply = Reply(raises: Option<Raise>, claims: seq<Claim>, insufficient: bool)

  /** The model's replies, the tools' results, every failure, and what other transactions
      do to the action ledger: `meanwhile` lists their events from the last call to the
      outcome. */
  datatype World = World(staff: bool, namesOther: bool, question: string, justification: string, routing: Routing,
                         meets: nat -> Met, admitted: seq<Chunk>, tables: bool, replies: nat -> Reply,
                         meanwhile: seq<Ledger.Event>, book: Book)

  // ---- gathering ------------------------------------------------------------

  datatype Gathered = Gathered(retrieval: Result, desk: Decisions.Desk, issues: nat, invisible: set<string>,
                               seen: set<Tool>)

  const NOTHING := Gathered(Empty(), Decisions.CLEAR, 0, {}, {})

  predicate LooksUp(tool: Tool, id: string) {
    id != "" && (tool.DataQuery? || tool.TicketHistory?) && tool.id == Some(id)
  }

  function Elapsed(h: Held, others: seq<Ledger.Event>): Held {
    h.(ledger := Ledger.Run(h.ledger, others))
  }

  /** Is the caller allowed to prepare this, and does the row given back stand for it? */
  predicate Stands(after: Ledger.State, p: Proposed) {
    && p.stored.Prepare? && Ledger.MayPrepare(p.stored.who.role, p.stored.kind)
    && (p.stored.who.role.Customer? ==> Some(p.stored.account) == p.stored.who.account)
    && p.row in after.rows && after.rows[p.row].effect.tenant == p.stored.who.tenant
    && var effect := Ledger.PreparedEffect(p.stored.who, p.stored.kind, p.stored.account, p.stored.payload);
       after.rows[p.row].key == Ledger.Key(p.stored.run, p.stored.kind, Ledger.Sha256(effect))
  }

  function Propose(h: Held, p: Proposed): Held {
    if !p.stored.Prepare? then h
    else
      var after := Ledger.Next(h.ledger, p.stored);
      if Stands(after, p) then Held(Some(p.row), h.proposals + [p.row], after) else h.(ledger := after)
  }

  function Asked(tool: Tool, met: Met): Decisions.Question
    requires tool.PolicyDecide?
  {
    Decisions.Question(tool.id, tool.rule, met.order)
  }

  /** What has been gathered, what the run holds, and the error that ended the gathering. */
  datatype Progress = Progress(g: Gathered, h: Held, raised: Option<Raise>)

  function Use(book: Book, g: Gathered, h: Held, tool: Tool, met: Met): Progress {
    if tool in g.seen then Progress(g, h, None)
    else
      var g, h := g.(seen := g.seen + {tool}), Elapsed(h, met.others);
      match tool
      case DocSearch(_, _) => Progress(g.(retrieval := MergedResult(g.retrieval, met.search)), h, None)
      case PolicyDecide(_, _, _) =>
        (match Decisions.Decide(g.desk, book.pool, Asked(tool, met), book.now)
         case None => Progress(g, h, Some(Crash))
         case Some(desk) => Progress(g.(desk := desk), h, None))
      case DataQuery(id, _) => Progress(Looked(g, id, met.found), h, None)
      case TicketHistory(id, _) => Progress(Looked(g, id, met.found), h, None)
      case CohortQuery(_) => Progress(g, h, None)
      case IssueScan(_, _, _) => Progress(g.(issues := g.issues + met.issues), h, None)
      case PrepareAction(_, _, _) =>
        Progress(g, if met.proposal.Some? then Propose(h, met.proposal.value) else h, None)
      case Unknown(_, _) => Progress(g, h, None)
  }

  function Looked(g: Gathered, id: Option<string>, found: nat): Gathered {
    if id.None? || id.value == "" || found > 0 then g else g.(invisible := g.invisible + {id.value})
  }

  /** After the first `n` calls, or up to the one that raised. */
  function GatherUpTo(book: Book, calls: seq<Tool>, meets: nat -> Met, h: Held, n: nat): Progress
    requires n <= |calls|
  {
    if n == 0 then Progress(NOTHING, h, None)
    else
      var p := GatherUpTo(book, calls, meets, h, n - 1);
      if p.raised.Some? then p
      else if meets(n - 1).raises.Some? then p.(raised := meets(n - 1).raises)
      else Use(book, p.g, p.h, calls[n - 1], meets(n - 1))
  }

  predicate HasProposal(tools: seq<Tool>) {
    exists i :: 0 <= i < |tools| && tools[i].PrepareAction?
  }

  predicate HasSearch(tools: seq<Tool>) {
    exists i :: 0 <= i < |tools| && tools[i].DocSearch?
  }

  /** An empty plan searches; a proposal is completed with a search for its justification. */
  function Requested(w: World): seq<Tool> {
    var tools := if w.routing.tools == [] then [DocSearch(w.question, "")] else w.routing.tools;
    if HasProposal(tools) && !HasSearch(tools) then tools + [DocSearch(w.justification, "")] else tools
  }

  function Calls(cfg: Config, w: World): seq<Tool> {
    First(Requested(w), cfg.maxSteps)
  }

  // ---- outcomes -------------------------------------------------------------

  datatype Final = Final(response: Response, held: Held, syntheses: nat)

  function Withdraw(h: Held): Held {
    if h.prepared.Some? then h.(ledger := Ledger.Next(h.ledger, Ledger.Withdraw(h.prepared.value))) else h
  }

  function Refused(h: Held, reason: Reason, syntheses: nat): Final {
    Final(Response(Completed, Some(Answer([], Some(reason), false)), None), Withdraw(h), syntheses)
  }

  function Tabled(h: Held, syntheses: nat): Final {
    Final(Response(Completed, Some(Answer([], None, true)), None), h, syntheses)
  }

  function Answered(h: Held, claims: seq<Claim>, syntheses: nat): Final {
    var status := if h.prepared.Some? then AwaitingConfirmation else Completed;
    Final(Response(status, Some(Answer(claims, None, false)), h.prepared), h, syntheses)
  }

  function Raised(h: Held, r: Raise, syntheses: nat): Final {
    match r
    case OverBudget => Refused(h, BudgetExhausted, syntheses)
    case Upstream => Refused(h, Unavailable, syntheses)
    case Crash => Final(Response(FailedRun, None, None), h, syntheses)
  }

  /** On the last attempt: the lead claim survived, and a strict majority did. */
  predicate Partial(outcome: Outcome, claims: seq<Claim>, last: bool) {
    && !outcome.Ok() && last && outcome.claims != [] && claims != []
    && outcome.claims[0].text == claims[0].text && |outcome.claims| * 2 > |claims|
  }

  datatype Verdict = Retry | Settle(final: Final)

  /** What one attempt comes to. */
  function Judge(cfg: Config, w: World, h: Held, byId: map<nat, Chunk>, attempt: nat): Verdict {
    var reply, last := w.replies(attempt), attempt >= cfg.Attempts();
    if reply.raises.Some? then Settle(Raised(h, reply.raises.value, attempt))
    else if reply.claims == [] then
      if !reply.insufficient && !last then Retry
      else Settle(if w.tables then Tabled(h, attempt) else Refused(h, LowConfidence, attempt))
    else if !ClaimsLocatable(reply.claims, byId, cfg.requireVerbatim) then Settle(Raised(h, Crash, attempt))
    else
      var outcome := Validated(reply.claims, byId, cfg.requireVerbatim);
      if outcome.Ok() || Partial(outcome, reply.claims, last) then Settle(Answered(h, outcome.claims, attempt))
      else if !last then Retry
      else Settle(if w.tables then Tabled(h, attempt) else Refused(h, CitationsFailed, attempt))
  }

  lemma {:induction false} LastAttemptSettles(cfg: Config, w: World, h: Held, byId: map<nat, Chunk>, attempt: nat)
    ensures Judge(cfg, w, h, byId, attempt).Retry? ==> attempt < cfg.Attempts()
  {
    hide Validated, ClaimsLocatable;
  }

  function Synthesis(cfg: Config, w: World, h: Held, byId: map<nat, Chunk>, attempt: nat): Final
    requires attempt <= cfg.Attempts()
    decreases cfg.Attempts() - attempt
  {
    match Judge(cfg, w, h, byId, attempt)
    case Settle(final) => final
    case Retry =>
      LastAttemptSettles(cfg, w, h, byId, attempt);
      Synthesis(cfg, w, h, byId, attempt + 1)
  }

  function Texts(hits: seq<Hit>): (chunks: seq<Chunk>)
  {
    seq(|hits|, i requires 0 <= i < |hits| => hits[i].chunk)
  }

  function GroundableChunks(w: World, g: Gathered): seq<Chunk> {
    Texts(Admit(g.retrieval, w.admitted).groundable)
  }

  function Gather(cfg: Config, w: World, h: Held): Progress {
    GatherUpTo(w.book, Calls(cfg, w), w.meets, h, |Calls(cfg, w)|)
  }

  /** Did the run get as far as its tools? */
  predicate Planned(w: World) {
    (w.staff || !w.namesOther) && w.routing.raises.None? && !w.routing.outOfScope
  }

  /** What the run holds when its outcome is settled. */
  function HeldBefore(cfg: Config, w: World, h: Held): Held {
    Elapsed(if Planned(w) then Gather(cfg, w, h).h else h, w.meanwhile)
  }

  function Concluded(cfg: Config, w: World, h: Held, p: Progress): Final {
    if p.raised.Some? then Raised(h, p.raised.value, 0)
    else if p.g.invisible != {} then Refused(h, RecordNotFound, 0)
    else if GroundableChunks(w, p.g) == [] && p.g.desk.decisions == [] && p.g.issues == 0 then
      Refused(h, NoEligibleSource, 0)
    else Synthesis(cfg, w, h, ById(GroundableChunks(w, p.g)), 1)
  }

  function Execution(cfg: Config, w: World, h: Held): Final {
    var held := HeldBefore(cfg, w, h);
    if !w.staff && w.namesOther then Refused(held, OutOfScope, 0)
    else if w.routing.raises.Some? then Raised(held, w.routing.raises.value, 0)
    else if w.routing.outOfScope then Refused(held, OutOfScope, 0)
    else Concluded(cfg, w, held, Gather(cfg, w, h))
  }

  // ---- the loop -------------------------------------------------------------

  class Run {
    var prepared: Option<nat>
    var proposals: seq<nat>
    var ledger: Ledger.State
    var syntheses: nat

    function View(): Held
      reads this
    {
      Held(prepared, proposals, ledger)
    }

    constructor (st: Ledger.State)
      ensures View() == Held(None, [], st) && syntheses == 0
    {
      prepared, proposals, ledger, syntheses := None, [], st, 0;
    }

    /** Other transactions run. */
    method Elapse(others: seq<Ledger.Event>)
      modifies this
      ensures View() == Elapsed(old(View()), others) && syntheses == old(syntheses)
    {
      ledger := Ledger.Run(ledger, others);
    }

    method DiscardPrepared()
      modifies this
      ensures View() == Withdraw(old(View())) && syntheses == old(syntheses)
    {
      if prepared.None? {
        return;
      }
      ledger := Ledger.Next(ledger, Ledger.Withdraw(prepared.value));
    }

    method Refuse(reason: Reason) returns (r: Response)
      modifies this
      ensures Final(r, View(), syntheses) == Refused(old(View()), reason, old(syntheses))
    {
      DiscardPrepared();
      r := Response(Completed, Some(Answer([], Some(reason), false)), None);
    }

    /** The error handlers around the pipeline. */
    method Recover(raised: Raise) returns (r: Response)
      modifies this
      ensures Final(r, View(), syntheses) == Raised(old(View()), raised, old(syntheses))
    {
      match raised
      case OverBudget => r := Refuse(BudgetExhausted);
      case Upstream => r := Refuse(Unavailable);
      case Crash => r := Response(FailedRun, None, None);
    }

    method PrepareRow(p: Proposed)
      modifies this
      ensures View() == Propose(old(View()), p) && syntheses == old(syntheses)
    {
      hide Ledger.Next;
      if p.stored.Prepare? {
        ledger := Ledger.Next(ledger, p.stored);
        if Stands(ledger, p) {
          prepared, proposals := Some(p.row), proposals + [p.row];
        }
      }
    }

    method UseTool(book: Book, g: Gathered, tool: Tool, met: Met) returns (g': Gathered, raised: Option<Raise>)
      modifies this
      ensures Progress(g', View(), raised) == Use(book, g, old(View()), tool, met) && syntheses == old(syntheses)
    {
      if tool in g.seen {
        return g, None;
      }
      g', raised := g.(seen := g.seen + {tool}), None;
      Elapse(met.others);
      match tool
      case DocSearch(_, _) =>
        var merged := MergeRetrieval(g.retrieval, met.search);
        g' := g'.(retrieval := merged);
      case PolicyDecide(_, _, _) =>
        var desk := Decisions.DecideRecord(g.desk, book.pool, Asked(tool, met), book.now);
        if desk.None? {
          return g', Some(Crash);
        }
        g' := g'.(desk := desk.value);
      case DataQuery(id, _) => g' := Looked(g', id, met.found);
      case TicketHistory(id, _) => g' := Looked(g', id, met.found);
      case CohortQuery(_) =>
      case IssueScan(_, _, _) => g' := g'.(issues := g.issues + met.issues);
      case PrepareAction(_, _, _) =>
        if met.proposal.Some? {
          PrepareRow(met.proposal.value);
        }
      case Unknown(_, _) =>
    }

    method UseTools(book: Book, calls: seq<Tool>, meets: nat -> Met) returns (g: Gathered, raised: Option<Raise>)
      modifies this
      ensures Progress(g, View(), raised) == GatherUpTo(book, calls, meets, old(View()), |calls|)
      ensures syntheses == old(syntheses)
    {
      hide Use;
      g, raised := NOTHING, None;
      for n := 0 to |calls|
        invariant Progress(g, View(), None) == GatherUpTo(book, calls, meets, old(View()), n)
        invariant raised.None? && syntheses == old(syntheses)
      {
        if meets(n).raises.Some? {
          raised := meets(n).raises;
          RaiseStays(book, calls, meets, old(View()), n + 1, |calls|);
          return;
        }
        g, raised := UseTool(book, g, calls[n], meets(n));
        if raised.Some? {
          RaiseStays(book, calls, meets, old(View()), n + 1, |calls|);
          return;
        }
      }
    }

    method Synthesise(cfg: Config, w: World, groundable: seq<Chunk>) returns (r: Response)
      requires syntheses == 0
      modifies this
      ensures Final(r, View(), syntheses) == Synthesis(cfg, w, old(View()), ById(groundable), 1)
    {
      hide Validated, ClaimsLocatable, ById, Synthesis;
      ghost var byId, h := ById(groundable), View();
      var attempts := cfg.Attempts();
      for attempt := 1 to attempts + 1
        invariant View() == h && syntheses == attempt - 1
        invariant attempt <= attempts ==> Synthesis(cfg, w, h, byId, 1) == Synthesis(cfg, w, h, byId, attempt)
        invariant attempt <= attempts
      {
        SynthesisStep(cfg, w, h, byId, attempt);
        syntheses := attempt;
        var reply := w.replies(attempt);
        if reply.raises.Some? {
          r := Recover(reply.raises.value);
          return;
        }
        if reply.claims == [] {
          if !reply.insufficient && attempt < attempts {
            continue;
          }
          if w.tables {
            return Response(Completed, Some(Answer([], None, true)), None);
          }
          r := Refuse(LowConfidence);
          return;
        }
        var validated := ValidateClaims(reply.claims, groundable, cfg.requireVerbatim);
        if validated.None? {
          r := Recover(Crash);
          return;
        }
        var outcome := validated.value;
        if outcome.Ok() || Partial(outcome, reply.claims, attempt >= attempts) {
          var status := if prepared.Some? then AwaitingConfirmation else Completed;
          return Response(status, Some(Answer(outcome.claims, None, false)), prepared);
        }
        if attempt >= attempts {
          if w.tables {
            return Response(Completed, Some(Answer([], None, true)), None);
          }
          r := Refuse(CitationsFailed);
          return;
        }
      }
    }

    method Execute(cfg: Config, w: World) returns (r: Response)
      requires syntheses == 0
      modifies this
      ensures Final(r, View(), syntheses) == Execution(cfg, w, old(View()))
    {
      hide GatherUpTo, Synthesis, Requested, ById, Admit;
      if !w.staff && w.namesOther {
        Elapse(w.meanwhile);
        r := Refuse(OutOfScope);
        return;
      }
      if w.routing.raises.Some? {
        Elapse(w.meanwhile);
        r := Recover(w.routing.raises.value);
        return;
      }
      if w.routing.outOfScope {
        Elapse(w.meanwhile);
        r := Refuse(OutOfScope);
        return;
      }
      var g, raised := UseTools(w.book, Calls(cfg, w), w.meets);
      Elapse(w.meanwhile);
      if raised.Some? {
        r := Recover(raised.value);
        return;
      }
      if g.invisible != {} {
        r := Refuse(RecordNotFound);
        return;
      }
      var retrieval := Admit(g.retrieval, w.admitted);
      if retrieval.groundable == [] && g.desk.decisions == [] && g.issues == 0 {
        r := Refuse(NoEligibleSource);
        return;
      }
      r := Synthesise(cfg, w, Texts(retrieval.groundable));
    }
  }

  lemma {:induction false} RaiseStays(book: Book, calls: seq<Tool>, meets: nat -> Met, h: Held, n: nat, m: nat)
    requires n <= m <= |calls| && GatherUpTo(book, calls, meets, h, n).raised.Some?
    ensures GatherUpTo(book, calls, meets, h, m) == GatherUpTo(book, calls, meets, h, n)
    decreases m
  {
    hide GatherUpTo, Use;
    if n < m {
      RaiseStays(book, calls, meets, h, n, m - 1);
      GatherStep(book, calls, meets, h, m);
    }
  }

  lemma {:induction false} SynthesisStep(cfg: Config, w: World, h: Held, byId: map<nat, Chunk>, attempt: nat)
    requires attempt <= cfg.Attempts()
    ensures match Judge(cfg, w, h, byId, attempt)
            case Settle(final) => Synthesis(cfg, w, h, byId, attempt) == final
            case Retry =>
              && attempt < cfg.Attempts()
              && Synthesis(cfg, w, h, byId, attempt) == Synthesis(cfg, w, h, byId, attempt + 1)
  {
    hide Judge;
    LastAttemptSettles(cfg, w, h, byId, attempt);
  }

  // ---- what every run keeps -------------------------------------------------

  /** Claims come from the last reply: all of them after a clean validation, or, on the
      last attempt, a strict majority that begins with the lead claim. */
  predicate FromReply(claims: seq<Claim>, reply: Reply, last: bool, byId: map<nat, Chunk>, verbatim: bool) {
    && claims == KeptClaims(reply.claims, byId, verbatim) && claims != []
    && (|claims| == |reply.claims| || (last && 2 * |claims| > |reply.claims| && claims[0].text == reply.claims[0].text))
  }

  ghost predicate Sane(f: Final, cfg: Config, w: World, h: Held, byId: map<nat, Chunk>) {
    && f.syntheses <= cfg.Attempts()
    && (f.response.answer.None? <==> f.response.status == FailedRun)
    && (f.response.answer.Some? ==> ExactlyOneOutcome(f.response.answer.value))
    && (f.response.answer.Some? && f.response.answer.value.claims != [] ==>
          && f.syntheses > 0
          && FromReply(f.response.answer.value.claims, w.replies(f.syntheses), f.syntheses == cfg.Attempts(), byId,
                       cfg.requireVerbatim))
    && (f.response.answer.Some? && f.response.answer.value.tableOnly ==> w.tables && f.syntheses > 0)
    && (f.syntheses > 0 && w.tables && RefusedBy(f) ==>
          f.response.answer.value.refusal.value in {BudgetExhausted, Unavailable})
    && f.held == (if RefusedBy(f) then Withdraw(h) else h)
    && (f.response.status == AwaitingConfirmation ==> f.response.answer.value.claims != [])
    && (f.response.answer.None? || f.response.answer.value.claims == [] ==> f.response.pending.None?)
    && (f.response.answer.Some? && f.response.answer.value.claims != [] ==>
          f.response.pending == h.prepared && (f.response.status == AwaitingConfirmation <==> h.prepared.Some?))
  }

  predicate RefusedBy(f: Final) {
    f.response.answer.Some? && f.response.answer.value.refusal.Some?
  }

  lemma {:induction false} CleanKeepsAll(claims: seq<Claim>, byId: map<nat, Chunk>, verbatim: bool)
    requires Validated(claims, byId, verbatim).Ok()
    ensures |KeptClaims(claims, byId, verbatim)| == |claims|
  {
    hide KeptClaims, Unsupported;
    ClaimsSplit(claims, byId, verbatim);
  }

  lemma {:induction false} JudgeSane(cfg: Config, w: World, h: Held, byId: map<nat, Chunk>, attempt: nat)
    requires 0 < attempt <= cfg.Attempts()
    ensures Judge(cfg, w, h, byId, attempt).Settle? ==> Sane(Judge(cfg, w, h, byId, attempt).final, cfg, w, h, byId)
  {
    hide ClaimsLocatable, KeptClaims, AllRejects, Unsupported, Withdraw;
    var claims := w.replies(attempt).claims;
    if Validated(claims, byId, cfg.requireVerbatim).Ok() { CleanKeepsAll(claims, byId, cfg.requireVerbatim); }
  }

  lemma {:induction false} SynthesisSane(cfg: Config, w: World, h: Held, byId: map<nat, Chunk>, attempt: nat)
    requires 0 < attempt <= cfg.Attempts()
    ensures Sane(Synthesis(cfg, w, h, byId, attempt), cfg, w, h, byId)
    decreases cfg.Attempts() - attempt
  {
    hide Judge, Sane;
    SynthesisStep(cfg, w, h, byId, attempt);
    JudgeSane(cfg, w, h, byId, attempt);
    if Judge(cfg, w, h, byId, attempt).Retry? { SynthesisSane(cfg, w, h, byId, attempt + 1); }
  }

  lemma {:induction false} EarlySane(cfg: Config, w: World, h: Held, byId: map<nat, Chunk>)
    ensures forall reason :: Sane(Refused(h, reason, 0), cfg, w, h, byId)
    ensures forall r :: Sane(Raised(h, r, 0), cfg, w, h, byId)
  {
    hide FromReply, Withdraw;
  }

  /** Every run that returns an answer has exactly one outcome, after a bounded number of
      syntheses; its claims are what validation kept of the last reply; a refusal, and
      nothing else, withdraws the latest proposal. */
  lemma {:induction false} EveryRunIsSane(cfg: Config, w: World, h: Held)
    ensures Sane(Execution(cfg, w, h), cfg, w, HeldBefore(cfg, w, h), ById(GroundableChunks(w, Gather(cfg, w, h).g)))
  {
    hide GatherUpTo, Calls, Synthesis, ById, GroundableChunks, Sane, Raised, Refused;
    var held, byId := HeldBefore(cfg, w, h), ById(GroundableChunks(w, Gather(cfg, w, h).g));
    EarlySane(cfg, w, held, byId);
    if Planned(w) { SynthesisSane(cfg, w, held, byId, 1); }
  }

  /** In the verbatim mode every returned claim rests on groundable text, word for word. */
  lemma {:induction false} ReturnedClaimsAreGrounded(cfg: Config, w: World, h: Held, i: nat)
    requires cfg.requireVerbatim && Execution(cfg, w, h).response.answer.Some?
    requires i < |Execution(cfg, w, h).response.answer.value.claims|
    ensures Evidence(Execution(cfg, w, h).response.answer.value.claims[i], ById(GroundableChunks(w, Gather(cfg, w, h).g)))
  {
    hide Execution, ById, Evidence, KeptClaims, Withdraw, GroundableChunks, Gather, HeldBefore;
    var f, byId := Execution(cfg, w, h), ById(GroundableChunks(w, Gather(cfg, w, h).g));
    EveryRunIsSane(cfg, w, h);
    KeptHasEvidence(w.replies(f.syntheses).claims, byId);
  }

  // ---- records that cannot be seen ------------------------------------------

  /** The first call that looks this record up found nothing. */
  predicate Unseen(calls: seq<Tool>, meets: nat -> Met, id: string, i: nat) {
    i < |calls| && LooksUp(calls[i], id) && calls[i] !in calls[..i] && meets(i).found == 0
  }

  lemma {:induction false} SeenAre(book: Book, calls: seq<Tool>, meets: nat -> Met, h: Held, n: nat)
    requires n <= |calls| && GatherUpTo(book, calls, meets, h, n).raised.None?
    ensures forall t :: t in GatherUpTo(book, calls, meets, h, n).g.seen <==> t in calls[..n]
  {
    hide Use;
    if n > 0 {
      SeenAre(book, calls, meets, h, n - 1);
      assert calls[..n] == calls[..n - 1] + [calls[n - 1]];
      var before := GatherUpTo(book, calls, meets, h, n - 1);
      UseSees(book, before.g, before.h, calls[n - 1], meets(n - 1));
    }
  }

  lemma {:induction false} UseSees(book: Book, g: Gathered, h: Held, tool: Tool, met: Met)
    ensures Use(book, g, h, tool, met).g.seen == g.seen + {tool}
  {
    hide MergedResult;
  }

  predicate UnseenBefore(calls: seq<Tool>, meets: nat -> Met, id: string, n: nat) {
    exists i: nat :: i < n && Unseen(calls, meets, id, i)
  }

  lemma {:induction false} UnseenStep(calls: seq<Tool>, meets: nat -> Met, id: string, n: nat)
    ensures UnseenBefore(calls, meets, id, n + 1) <==> UnseenBefore(calls, meets, id, n) || Unseen(calls, meets, id, n)
    ensures !UnseenBefore(calls, meets, id, 0)
  {
    hide Unseen;
  }

  lemma {:induction false} InvisibleAre(book: Book, calls: seq<Tool>, meets: nat -> Met, h: Held, n: nat, id: string)
    requires n <= |calls| && GatherUpTo(book, calls, meets, h, n).raised.None?
    ensures id in GatherUpTo(book, calls, meets, h, n).g.invisible <==> UnseenBefore(calls, meets, id, n)
  {
    hide Use, LooksUp, UnseenBefore;
    if n > 0 {
      var before := GatherUpTo(book, calls, meets, h, n - 1);
      InvisibleAre(book, calls, meets, h, n - 1, id);
      SeenAre(book, calls, meets, h, n - 1);
      InvisibleStep(book, before.g, before.h, calls[n - 1], meets(n - 1), id);
      UnseenStep(calls, meets, id, n - 1);
    } else {
      UnseenStep(calls, meets, id, 0);
    }
  }

  lemma {:induction false} InvisibleStep(book: Book, g: Gathered, h: Held, tool: Tool, met: Met, id: string)
    ensures id in Use(book, g, h, tool, met).g.invisible <==>
              id in g.invisible || (tool !in g.seen && LooksUp(tool, id) && met.found == 0)
  {
    hide MergedResult;
  }

  /** A named record the caller cannot see stops the run before any synthesis, and nothing
      else stops it that way. */
  lemma {:induction false} InvisibleRecordRefusesIff(cfg: Config, w: World, h: Held)
    requires Planned(w) && Gather(cfg, w, h).raised.None?
    ensures var f := Execution(cfg, w, h);
            (f.response.answer == Some(Answer([], Some(RecordNotFound), false)) && f.syntheses == 0) <==>
              exists id :: UnseenBefore(Calls(cfg, w), w.meets, id, |Calls(cfg, w)|)
  {
    hide GatherUpTo, Calls, Synthesis, ById, Withdraw, Admit, UnseenBefore;
    var calls, p := Calls(cfg, w), Gather(cfg, w, h);
    forall id ensures id in p.g.invisible <==> UnseenBefore(calls, w.meets, id, |calls|) {
      InvisibleAre(w.book, calls, w.meets, h, |calls|, id);
    }
    SynthesisAttempts(cfg, w, HeldBefore(cfg, w, h), ById(GroundableChunks(w, p.g)), 1);
    if id :| UnseenBefore(calls, w.meets, id, |calls|) {
      assert id in p.g.invisible;
    } else {
      assert p.g.invisible == {};
    }
  }

  lemma {:induction false} SynthesisAttempts(cfg: Config, w: World, h: Held, byId: map<nat, Chunk>, attempt: nat)
    requires 0 < attempt <= cfg.Attempts()
    ensures Synthesis(cfg, w, h, byId, attempt).syntheses >= attempt
    decreases cfg.Attempts() - attempt
  {
    hide Judge;
    SynthesisStep(cfg, w, h, byId, attempt);
    JudgeCounts(cfg, w, h, byId, attempt);
    if Judge(cfg, w, h, byId, attempt).Retry? { SynthesisAttempts(cfg, w, h, byId, attempt + 1); }
  }

  lemma {:induction false} JudgeCounts(cfg: Config, w: World, h: Held, byId: map<nat, Chunk>, attempt: nat)
    ensures Judge(cfg, w, h, byId, attempt).Settle? ==> Judge(cfg, w, h, byId, attempt).final.syntheses == attempt
  {
    hide ClaimsLocatable, Validated, Withdraw;
  }

  /** On the planner's plan the lookups are those of the first three records named, as far
      as the step limit reaches, and the run is refused for a record it cannot see exactly
      when one of those lookups found nothing. */
  lemma {:induction false} PlannedLookupRefusesIff(cfg: Config, w: World, h: Held, text: string, ids: seq<string>,
                                                   s: Signals)
    requires w.routing.tools == PlanOf(text, ids, s) && NoRepeats(ids) && "" !in ids
    requires Planned(w) && Gather(cfg, w, h).raised.None?
    ensures var f := Execution(cfg, w, h);
            (f.response.answer == Some(Answer([], Some(RecordNotFound), false)) && f.syntheses == 0) <==>
              exists k: nat :: k < |ids| && k < 3 && k < cfg.maxSteps && w.meets(k).found == 0
  {
    hide Execution, PlanOf, Requested, First, UnseenBefore, Unseen, GatherUpTo;
    var calls := Calls(cfg, w);
    InvisibleRecordRefusesIff(cfg, w, h);
    PlanIsRequested(w, text, ids, s);
    if k: nat :| k < |ids| && k < 3 && k < cfg.maxSteps && w.meets(k).found == 0 {
      UnseenIff(text, ids, s, w.meets, cfg.maxSteps, ids[k], k);
      WitnessUnseen(calls, w.meets, ids[k], k);
    }
    if id :| UnseenBefore(calls, w.meets, id, |calls|) {
      var k := UnseenWitness(calls, w.meets, id);
      UnseenIff(text, ids, s, w.meets, cfg.maxSteps, id, k);
    }
  }

  lemma {:induction false} WitnessUnseen(calls: seq<Tool>, meets: nat -> Met, id: string, i: nat)
    requires Unseen(calls, meets, id, i)
    ensures UnseenBefore(calls, meets, id, |calls|)
  {
    assert i < |calls|;
  }

  lemma {:induction false} UnseenWitness(calls: seq<Tool>, meets: nat -> Met, id: string) returns (i: nat)
    requires UnseenBefore(calls, meets, id, |calls|)
    ensures i < |calls| && Unseen(calls, meets, id, i)
  {
    hide Unseen;
    i :| i < |calls| && Unseen(calls, meets, id, i);
  }

  lemma {:induction false} UnseenIff(text: string, ids: seq<string>, s: Signals, meets: nat -> Met, maxSteps: nat,
                                     id: string, i: nat)
    requires NoRepeats(ids) && "" !in ids
    ensures Unseen(First(PlanOf(text, ids, s), maxSteps), meets, id, i) <==>
              i < |ids| && i < 3 && i < maxSteps && ids[i] == id && meets(i).found == 0
  {
    hide PlanOf;
    PlanEnds(text, ids, s);
    OtherLookups(text, ids, s);
  }

  /** The planner's plan ends with a search, so nothing is added to it. */
  lemma {:induction false} PlanIsRequested(w: World, text: string, ids: seq<string>, s: Signals)
    requires w.routing.tools == PlanOf(text, ids, s)
    ensures Requested(w) == PlanOf(text, ids, s)
  {
    hide PlanOf, HasProposal;
    var tools := PlanOf(text, ids, s);
    PlanEnds(text, ids, s);
    assert tools[|tools| - 1].DocSearch? && HasSearch(tools);
  }

  /** A fourth record is not guarded: an order whose row cannot be read comes back
      undecided, and the run still goes on to write an answer from the documents. */
  lemma {:induction false} FourthUnseenIsAnswered(cfg: Config, w: World, h: Held, text: string, s: Signals)
    requires w.routing.tools == PlanOf(text, ["TKT-501", "TKT-502", "TKT-503", "ORD-1001"], s)
    requires s.cancellation || !s.credit
    requires Planned(w) && Gather(cfg, w, h).raised.None? && GroundableChunks(w, Gather(cfg, w, h).g) != []
    requires cfg.maxSteps >= 4 && forall k: nat :: k < 3 ==> w.meets(k).found > 0
    requires w.meets(3).order.None?
    ensures Calls(cfg, w)[3] == PolicyDecide(Some("ORD-1001"), "cancellation_fee", "")
    ensures Execution(cfg, w, h).syntheses > 0
  {
    hide PlanOf, Requested, GatherUpTo, GroundableChunks, Synthesis, ById, Withdraw, Orders, UnseenBefore;
    var ids := ["TKT-501", "TKT-502", "TKT-503", "ORD-1001"];
    FourthRecordIsDecided(text, s);
    PlanIsRequested(w, text, ids, s);
    PlanEnds(text, ids, s);
    var p := Gather(cfg, w, h);
    NothingInvisible(cfg, w, h, text, ids, s);
    SynthesisAttempts(cfg, w, HeldBefore(cfg, w, h), ById(GroundableChunks(w, p.g)), 1);
  }

  lemma {:induction false} NothingInvisible(cfg: Config, w: World, h: Held, text: string, ids: seq<string>, s: Signals)
    requires w.routing.tools == PlanOf(text, ids, s) && NoRepeats(ids) && "" !in ids
    requires Planned(w) && Gather(cfg, w, h).raised.None?
    requires forall k: nat :: k < 3 && k < |ids| ==> w.meets(k).found > 0
    ensures Gather(cfg, w, h).g.invisible == {}
  {
    hide PlanOf, Requested, GatherUpTo, UnseenBefore, Unseen, First;
    var calls := Calls(cfg, w);
    PlanIsRequested(w, text, ids, s);
    forall id ensures id !in Gather(cfg, w, h).g.invisible {
      InvisibleAre(w.book, calls, w.meets, h, |calls|, id);
      if UnseenBefore(calls, w.meets, id, |calls|) {
        var k := UnseenWitness(calls, w.meets, id);
        UnseenIff(text, ids, s, w.meets, cfg.maxSteps, id, k);
      }
    }
  }

  // ---- decisions ------------------------------------------------------------

  /** The decision that call `n` asks for, if it does; a repeated call does nothing. */
  function Asks(calls: seq<Tool>, meets: nat -> Met, n: nat): seq<Decisions.Question>
    requires n < |calls|
  {
    if calls[n].PolicyDecide? && calls[n] !in calls[..n] then [Asked(calls[n], meets(n))] else []
  }

  /** The decisions asked for by the first `n` calls. */
  function Questions(calls: seq<Tool>, meets: nat -> Met, n: nat): seq<Decisions.Question>
    requires n <= |calls|
  {
    if n == 0 then []
    else
      Questions(calls, meets, n - 1) + Asks(calls, meets, n - 1)
  }

  lemma {:induction false} UseDecides(book: Book, g: Gathered, h: Held, tool: Tool, met: Met)
    ensures var p := Use(book, g, h, tool, met);
            if tool.PolicyDecide? && tool !in g.seen then
              var desk := Decisions.Decide(g.desk, book.pool, Asked(tool, met), book.now);
              (p.raised.Some? <==> desk.None?) && (desk.Some? ==> p.g.desk == desk.value)
            else p.raised.None? && p.g.desk == g.desk
  {
    hide MergedResult, Elapsed, Propose, Decisions.Decide;
  }

  lemma {:induction false} GatherStep(book: Book, calls: seq<Tool>, meets: nat -> Met, h: Held, n: nat)
    requires 0 < n <= |calls|
    ensures var p := GatherUpTo(book, calls, meets, h, n - 1);
            GatherUpTo(book, calls, meets, h, n) ==
              if p.raised.Some? then p
              else if meets(n - 1).raises.Some? then p.(raised := meets(n - 1).raises)
              else Use(book, p.g, p.h, calls[n - 1], meets(n - 1))
  {
    hide Use;
  }

  lemma {:induction false} NothingDecided(book: Book, calls: seq<Tool>, meets: nat -> Met, h: Held)
    ensures GatherUpTo(book, calls, meets, h, 0) == Progress(NOTHING, h, None)
    ensures Decisions.After(book.pool, Questions(calls, meets, 0), book.now) == Some(NOTHING.desk)
  {
  }

  /** What call `n` does to the decisions gathered. */
  lemma {:induction false} CallDesk(book: Book, calls: seq<Tool>, meets: nat -> Met, h: Held, n: nat)
    requires n < |calls| && GatherUpTo(book, calls, meets, h, n).raised.None? && meets(n).raises.None?
    ensures var before, after := GatherUpTo(book, calls, meets, h, n), GatherUpTo(book, calls, meets, h, n + 1);
            if Asks(calls, meets, n) == [] then after.raised.None? && after.g.desk == before.g.desk
            else
              var desk := Decisions.Decide(before.g.desk, book.pool, Asked(calls[n], meets(n)), book.now);
              (after.raised.Some? <==> desk.None?) && (desk.Some? ==> after.g.desk == desk.value)
  {
    hide Use, Decisions.Decide, Asked;
    var before := GatherUpTo(book, calls, meets, h, n);
    SeenAre(book, calls, meets, h, n);
    UseDecides(book, before.g, before.h, calls[n], meets(n));
  }

  lemma {:induction false} QuestionsStep(calls: seq<Tool>, meets: nat -> Met, n: nat)
    requires n < |calls|
    ensures Questions(calls, meets, n + 1) == Questions(calls, meets, n) + Asks(calls, meets, n)
  {
  }

  /** What one more call does to the decisions. */
  lemma {:induction false} AfterCall(book: Book, calls: seq<Tool>, meets: nat -> Met, n: nat)
    requires n < |calls|
    ensures var before := Decisions.After(book.pool, Questions(calls, meets, n), book.now);
            Decisions.After(book.pool, Questions(calls, meets, n + 1), book.now) ==
              if before.None? || Asks(calls, meets, n) == [] then before
              else Decisions.Decide(before.value, book.pool, Asked(calls[n], meets(n)), book.now)
  {
    hide Decisions.After, Decisions.Decide, Questions, Asked;
    var qs := Questions(calls, meets, n);
    QuestionsStep(calls, meets, n);
    if Asks(calls, meets, n) == [] {
      assert qs + [] == qs;
    } else {
      Decisions.AfterSnoc(book.pool, qs, Asked(calls[n], meets(n)), book.now);
    }
  }

  /** The run's decisions are taken in the order of its calls, each with the policy that the
      earlier ones left. */
  lemma {:induction false} RunDecides(book: Book, calls: seq<Tool>, meets: nat -> Met, h: Held, n: nat)
    requires n <= |calls| && GatherUpTo(book, calls, meets, h, n).raised.None?
    ensures Decisions.After(book.pool, Questions(calls, meets, n), book.now)
         == Some(GatherUpTo(book, calls, meets, h, n).g.desk)
  {
    hide GatherUpTo, Use, Decisions.After, Decisions.Decide, Asked, Asks, Questions;
    if n == 0 {
      NothingDecided(book, calls, meets, h);
    } else {
      GatherStep(book, calls, meets, h, n);
      RunDecides(book, calls, meets, h, n - 1);
      CallDesk(book, calls, meets, h, n - 1);
      AfterCall(book, calls, meets, n - 1);
    }
  }

  /** So every decision of a run is taken by the policy of the account that its first
      visible order belongs to. */
  lemma {:induction false} RunFollowsFirstOrder(cfg: Config, w: World, h: Held)
    requires Gather(cfg, w, h).raised.None?
    ensures var calls := Calls(cfg, w);
            Gather(cfg, w, h).g.desk.policy ==
              Decisions.Carried(w.book.pool, Decisions.Leader(Questions(calls, w.meets, |calls|)))
  {
    hide GatherUpTo, Calls, Questions, Decisions.After, Decisions.Carried;
    var calls := Calls(cfg, w);
    RunDecides(w.book, calls, w.meets, h, |calls|);
    Decisions.LedBy(w.book.pool, Questions(calls, w.meets, |calls|), w.book.now);
  }

  /** When no call raises on its own, only a decision can end the gathering. */
  lemma {:induction false} DecidesThrough(book: Book, calls: seq<Tool>, meets: nat -> Met, h: Held, n: nat)
    requires n <= |calls| && forall i: nat :: meets(i).raises.None?
    requires Decisions.After(book.pool, Questions(calls, meets, n), book.now).Some?
    ensures GatherUpTo(book, calls, meets, h, n).raised.None?
  {
    hide GatherUpTo, Decisions.After, Decisions.Decide, Asked, Asks, Questions;
    if n == 0 {
      NothingDecided(book, calls, meets, h);
    } else {
      AfterCall(book, calls, meets, n - 1);
      DecidesThrough(book, calls, meets, h, n - 1);
      RunDecides(book, calls, meets, h, n - 1);
      CallDesk(book, calls, meets, h, n - 1);
    }
  }

  const TWO_NAMED := ["ORD-1001", "ORD-2001"]

  /** A question about the cancellation of two orders. */
  const CANCELLING := Signals(true, false, None, false, false, true, false, [])

  function TwoCalls(text: string): seq<Tool> {
    [DataQuery(Some("ORD-1001"), ""), DataQuery(Some("ORD-2001"), ""),
     PolicyDecide(Some("ORD-1001"), "cancellation_fee", ""), PolicyDecide(Some("ORD-2001"), "cancellation_fee", ""),
     DocSearch(text, "")]
  }

  lemma {:induction false} TwoNamedPlan(text: string)
    ensures PlanOf(text, TWO_NAMED, CANCELLING) == TwoCalls(text)
  {
    TwoOrders("ORD-1001", "ORD-2001");
    TwoRules("ORD-1001", "ORD-2001", CANCELLING);
    hide Orders, Rules, IsOrder, Proposal;
    assert First(TWO_NAMED, 3) == TWO_NAMED && First(TWO_NAMED, 2) == TWO_NAMED;
  }

  /** Both records are found, and belong to accounts A and B. */
  function OrderMet(i: nat): Met {
    Met(None, 1, Empty(), Some(Decisions.BookedFor(if i == 2 then "A" else "B")), 0, [], None)
  }

  lemma {:induction false} TwoAsk(text: string)
    ensures var calls := TwoCalls(text);
            && Asks(calls, OrderMet, 0) == [] && Asks(calls, OrderMet, 1) == []
            && Asks(calls, OrderMet, 2) == [Decisions.TWO_ORDERS[0]] && Asks(calls, OrderMet, 3) == [Decisions.TWO_ORDERS[1]]
            && Asks(calls, OrderMet, 4) == []
  {
    var calls := TwoCalls(text);
    assert "ORD-1001"[4] != "ORD-2001"[4];
    assert calls[3] != calls[2];
  }

  lemma {:induction false} TwoQuestions(text: string)
    ensures Questions(TwoCalls(text), OrderMet, 5) == Decisions.TWO_ORDERS
  {
    var calls := TwoCalls(text);
    assert |calls| == 5 && Questions(calls, OrderMet, 0) == [];
    TwoAsk(text);
    hide Asks, Questions, TwoCalls;
    QuestionsStep(calls, OrderMet, 0);
    QuestionsStep(calls, OrderMet, 1);
    QuestionsStep(calls, OrderMet, 2);
    QuestionsStep(calls, OrderMet, 3);
    QuestionsStep(calls, OrderMet, 4);
    assert Questions(calls, OrderMet, 2) == [];
    assert Questions(calls, OrderMet, 3) == [Decisions.TWO_ORDERS[0]];
  }

  /** A run on the planner's plan for two orders of different accounts: two policy packs
      that agree on all that concerns account B free its order and charge it. */
  lemma {:induction false} SecondOrderFollowsFirst(text: string, h: Held, waived: bool)
    ensures PolicyPack.Agree(Decisions.FeePool("A", true), Decisions.FeePool("A", false), Some("B"))
    ensures var calls := PlanOf(text, TWO_NAMED, CANCELLING);
            var p := GatherUpTo(Book(Decisions.FeePool("A", waived), Decisions.NOW), calls, OrderMet, h, |calls|);
            && p.raised.None? && |p.g.desk.decisions| == 2
            && p.g.desk.decisions[1].verdict == (if waived then PolicyRules.Allowed else PolicyRules.Denied)
  {
    hide GatherUpTo, PlanOf, Decisions.After, Decisions.FeePool, PolicyPack.Agree, Questions, TwoCalls;
    var book := Book(Decisions.FeePool("A", waived), Decisions.NOW);
    Decisions.OtherAccountDecides();
    Decisions.TwoDecided(waived);
    TwoNamedPlan(text);
    TwoQuestions(text);
    TwoCallsAre(text);
    DecidesThrough(book, TwoCalls(text), OrderMet, h, 5);
    RunDecides(book, TwoCalls(text), OrderMet, h, 5);
  }

  lemma {:induction false} TwoCallsAre(text: string)
    ensures |TwoCalls(text)| == 5
  {
  }

  // ---- proposals ------------------------------------------------------------

  predicate HeldOk(h: Held) {
    && (h.prepared.Some? <==> h.proposals != [])
    && (h.prepared.Some? ==> h.prepared.value == h.proposals[|h.proposals| - 1])
    && forall i :: 0 <= i < |h.proposals| ==> h.proposals[i] in h.ledger.rows
  }

  lemma {:induction false} ElapsedOk(h: Held, others: seq<Ledger.Event>)
    requires HeldOk(h)
    ensures HeldOk(Elapsed(h, others))
  {
    hide Ledger.Run;
    forall i | 0 <= i < |h.proposals| ensures h.proposals[i] in Elapsed(h, others).ledger.rows {
      LedgerRuns.RowLaterRun(h.ledger, others, h.proposals[i]);
    }
  }

  lemma {:induction false} ProposeOk(h: Held, p: Proposed)
    requires HeldOk(h)
    ensures HeldOk(Propose(h, p))
    ensures |Propose(h, p).proposals| <= |h.proposals| + 1
  {
    hide Ledger.Next;
    forall i | 0 <= i < |h.proposals| ensures h.proposals[i] in Ledger.Next(h.ledger, p.stored).rows {
      Ledger.RowStep(h.ledger, p.stored, h.proposals[i]);
    }
  }

  lemma {:induction false} UseHeld(book: Book, g: Gathered, h: Held, tool: Tool, met: Met)
    requires HeldOk(h)
    ensures HeldOk(Use(book, g, h, tool, met).h)
    ensures |Use(book, g, h, tool, met).h.proposals| <= |h.proposals| + CountProposals([tool])
  {
    hide HeldOk, Propose, Elapsed, Looked, MergedResult;
    ElapsedOk(h, met.others);
    ElapsedProposals(h, met.others);
    assert CountProposals([tool]) == if tool.PrepareAction? then 1 else 0;
    if met.proposal.Some? { ProposeOk(Elapsed(h, met.others), met.proposal.value); }
  }

  lemma {:induction false} ElapsedProposals(h: Held, others: seq<Ledger.Event>)
    ensures Elapsed(h, others).proposals == h.proposals
  {
  }

  /** A plan's preparing calls bound its proposals. */
  lemma {:induction false} GatherHeld(book: Book, calls: seq<Tool>, meets: nat -> Met, h: Held, n: nat)
    requires n <= |calls| && HeldOk(h)
    ensures HeldOk(GatherUpTo(book, calls, meets, h, n).h)
    ensures |GatherUpTo(book, calls, meets, h, n).h.proposals| <= |h.proposals| + CountProposals(calls[..n])
  {
    hide GatherUpTo, Use, HeldOk, CountProposals;
    if n == 0 {
      assert GatherUpTo(book, calls, meets, h, 0).h == h by { NothingDecided(book, calls, meets, h); }
    } else {
      GatherHeld(book, calls, meets, h, n - 1);
      assert calls[..n] == calls[..n - 1] + [calls[n - 1]];
      CountConcat(calls[..n - 1], [calls[n - 1]]);
      var before := GatherUpTo(book, calls, meets, h, n - 1);
      UseHeld(book, before.g, before.h, calls[n - 1], meets(n - 1));
      GatherStep(book, calls, meets, h, n);
    }
  }

  lemma {:induction false} HeldBeforeOk(cfg: Config, w: World, h: Held)
    requires HeldOk(h)
    ensures HeldOk(HeldBefore(cfg, w, h))
    ensures |HeldBefore(cfg, w, h).proposals| <= |h.proposals| + CountProposals(Calls(cfg, w))
  {
    hide GatherUpTo, Calls, HeldOk, CountProposals, Elapsed;
    var calls := Calls(cfg, w);
    GatherHeld(w.book, calls, w.meets, h, |calls|);
    assert calls[..|calls|] == calls;
    ElapsedOk(if Planned(w) then Gather(cfg, w, h).h else h, w.meanwhile);
    ElapsedProposals(if Planned(w) then Gather(cfg, w, h).h else h, w.meanwhile);
  }

  predicate IsPending(st: Ledger.State, p: nat) {
    p in st.rows && st.rows[p].status == Ledger.Pending
  }

  /** After the run a proposal is pending exactly when nobody else had settled it and it
      is not the latest proposal of a refused run. The withdrawal waits for a row lock, so
      it is taken at a moment when nobody holds one. */
  lemma {:induction false} PendingAfterIff(cfg: Config, w: World, h: Held, p: nat)
    requires HeldOk(h) && p in HeldBefore(cfg, w, h).proposals && p !in HeldBefore(cfg, w, h).ledger.locks
    ensures var f, last := Execution(cfg, w, h), HeldBefore(cfg, w, h);
            && p in f.held.ledger.rows
            && (IsPending(f.held.ledger, p) <==>
                  IsPending(last.ledger, p) && !(RefusedBy(f) && last.prepared == Some(p)))
  {
    hide Execution, HeldBefore, ById, GroundableChunks, Gather;
    EveryRunIsSane(cfg, w, h);
    HeldBeforeOk(cfg, w, h);
    assert p in HeldBefore(cfg, w, h).ledger.rows;
    hide Withdraw, IsPending, FromReply;
    WithdrawSettles(HeldBefore(cfg, w, h), p);
  }

  lemma {:induction false} WithdrawSettles(h: Held, p: nat)
    requires p in h.ledger.rows && p !in h.ledger.locks
    ensures p in Withdraw(h).ledger.rows
    ensures IsPending(Withdraw(h).ledger, p) <==> IsPending(h.ledger, p) && h.prepared != Some(p)
  {
  }

  /** With at most one proposal, a refusal leaves none pending, whatever others do then. */
  lemma {:induction false} OneProposalIsWithdrawn(cfg: Config, w: World, h: Held, p: nat, more: seq<Ledger.Event>)
    requires HeldOk(h) && p in HeldBefore(cfg, w, h).proposals && p !in HeldBefore(cfg, w, h).ledger.locks
    requires |HeldBefore(cfg, w, h).proposals| <= 1 && RefusedBy(Execution(cfg, w, h))
    ensures var after := Ledger.Run(Execution(cfg, w, h).held.ledger, more);
            p in after.rows && after.rows[p].status != Ledger.Pending
  {
    hide Execution, HeldBefore, Ledger.Run;
    PendingAfterIff(cfg, w, h, p);
    HeldBeforeOk(cfg, w, h);
    LedgerRuns.RowLaterRun(Execution(cfg, w, h).held.ledger, more, p);
  }

  lemma {:induction false} CountPrefix(tools: seq<Tool>, n: nat)
    requires n <= |tools|
    ensures CountProposals(tools[..n]) <= CountProposals(tools)
  {
    hide CountProposals;
    CountConcat(tools[..n], tools[n..]);
    assert tools[..n] + tools[n..] == tools;
  }

  /** A run on the deterministic planner's plan leaves no proposal behind when it refuses. */
  lemma {:induction false} PlannedRefusalWithdraws(cfg: Config, w: World, st: Ledger.State, text: string, ids: seq<string>,
                                                   s: Signals, p: nat, more: seq<Ledger.Event>)
    requires w.routing.tools == PlanOf(text, ids, s) && RefusedBy(Execution(cfg, w, Held(None, [], st)))
    requires p in HeldBefore(cfg, w, Held(None, [], st)).proposals
    requires p !in HeldBefore(cfg, w, Held(None, [], st)).ledger.locks
    ensures var after := Ledger.Run(Execution(cfg, w, Held(None, [], st)).held.ledger, more);
            p in after.rows && after.rows[p].status != Ledger.Pending
  {
    hide Execution, PlanOf, CountProposals, HeldBefore, Requested, Ledger.Run;
    var h, tools := Held(None, [], st), PlanOf(text, ids, s);
    PlanIsRequested(w, text, ids, s);
    AtMostOneProposal(text, ids, s);
    var calls := Calls(cfg, w);
    CountPrefix(tools, |calls|);
    assert calls == tools[..|calls|];
    HeldBeforeOk(cfg, w, h);
    OneProposalIsWithdrawn(cfg, w, h, p, more);
  }

  const ASKER := Principals.Principal("t", "u", Principals.OperationsAdmin, None)

  function Preparing(id: nat): Ledger.Event {
    Ledger.Prepare(id, ASKER, Ledger.EscalateTicket, "a", Ledger.Opaque(if id == 0 then "TKT-501" else "TKT-502"), Some(7),
                   Ledger.Instant(1, 0))
  }

  function Escalating(i: nat): Met {
    Met(if i == 2 then Some(OverBudget) else None, 0, Empty(), None, 0, [], Some(Proposed(Preparing(i), i)))
  }

  const TWO_PROPOSALS := [PrepareAction("escalate_ticket", Some("TKT-501"), ""),
                          PrepareAction("escalate_ticket", Some("TKT-502"), ""), DocSearch("q", "")]

  /** A plan with two proposals: the refusal withdraws the second and leaves the first
      waiting for approval. */
  lemma {:induction false} TwoProposalsLeaveOne(replies: nat -> Reply, book: Book)
    ensures var w := World(true, false, "q", "q", Routing(None, false, TWO_PROPOSALS), Escalating, [], false, replies,
                           [], book);
            var f := Execution(Config(8, 1, true), w, Held(None, [], Ledger.START));
            && RefusedBy(f) && f.held.ledger.rows.Keys == {0, 1}
            && f.held.ledger.rows[0].status == Ledger.Pending && f.held.ledger.rows[1].status == Ledger.Rejected
  {
    hide Ledger.Next;
    var cfg, h := Config(8, 1, true), Held(None, [], Ledger.START);
    var w := World(true, false, "q", "q", Routing(None, false, TWO_PROPOSALS), Escalating, [], false, replies,
                   [], book);
    TwoPrepared();
    assert TWO_PROPOSALS[2].DocSearch? && HasSearch(TWO_PROPOSALS);
    assert Calls(cfg, w) == TWO_PROPOSALS;
    var two := GatherTwo(book);
    assert GatherUpTo(book, TWO_PROPOSALS, Escalating, h, 3) == two.(raised := Some(OverBudget));
    assert HeldBefore(cfg, w, h) == two.h;
  }

  function Two(): Ledger.State {
    Ledger.Next(Ledger.Next(Ledger.START, Preparing(0)), Preparing(1))
  }

  lemma {:induction false} TwoPrepared()
    ensures Stands(Ledger.Next(Ledger.START, Preparing(0)), Proposed(Preparing(0), 0))
    ensures Stands(Two(), Proposed(Preparing(1), 1))
    ensures Ledger.Next(Two(), Ledger.Withdraw(1)).rows.Keys == {0, 1}
    ensures Ledger.Next(Two(), Ledger.Withdraw(1)).rows[0].status == Ledger.Pending
    ensures Ledger.Next(Two(), Ledger.Withdraw(1)).rows[1].status == Ledger.Rejected
  {
    assert "TKT-501"[6] != "TKT-502"[6];
  }

  lemma {:induction false} GatherTwo(book: Book) returns (two: Progress)
    ensures two == GatherUpTo(book, TWO_PROPOSALS, Escalating, Held(None, [], Ledger.START), 2)
    ensures two.h == Held(Some(1), [0, 1], Two()) && two.raised.None?
  {
    hide Ledger.Next, Stands;
    TwoPrepared();
    var h := Held(None, [], Ledger.START);
    two := GatherUpTo(book, TWO_PROPOSALS, Escalating, h, 2);
    var one := GatherUpTo(book, TWO_PROPOSALS, Escalating, h, 1);
    assert GatherUpTo(book, TWO_PROPOSALS, Escalating, h, 0) == Progress(NOTHING, h, None);
    assert TWO_PROPOSALS[0] != TWO_PROPOSALS[1] by { assert "TKT-501"[6] != "TKT-502"[6]; }
    assert Escalating(0).others == [] && Escalating(1).others == [];
    assert one == Progress(NOTHING.(seen := {TWO_PROPOSALS[0]}),
                           Held(Some(0), [0], Ledger.Next(Ledger.START, Preparing(0))), None);
  }
}

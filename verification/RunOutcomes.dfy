/** How a run ends, told by its replies (agentcore/orchestrator/engine.py, lines 361-981). */
module RunOutcomes {
  import opened Text
  import opened Types
  import opened Validator
  import opened Channels
  import opened Router
  import opened RunLoop
  import Decisions
  import Ledger
  import LedgerRuns
  import LedgerOutcomes

  // ---- which attempt ends the run -------------------------------------------

  /** Does this reply end the attempts, whichever attempt it answers? */
  predicate Ends(reply: Reply, byId: map<nat, Chunk>, verbatim: bool) {
    || reply.raises.Some?
    || (reply.claims == [] && reply.insufficient)
    || (reply.claims != [] && !ClaimsLocatable(reply.claims, byId, verbatim))
    || (reply.claims != [] && Validated(reply.claims, byId, verbatim).Ok())
  }

  predicate NoneEnds(w: World, byId: map<nat, Chunk>, verbatim: bool, lo: nat, hi: nat) {
    forall k: nat :: lo <= k < hi ==> !Ends(w.replies(k), byId, verbatim)
  }

  lemma {:induction false} JudgeEnds(cfg: Config, w: World, h: Held, byId: map<nat, Chunk>, attempt: nat)
    requires attempt <= cfg.Attempts()
    ensures Judge(cfg, w, h, byId, attempt).Settle? <==>
              Ends(w.replies(attempt), byId, cfg.requireVerbatim) || attempt == cfg.Attempts()
  {
    hide Validated, ClaimsLocatable, Raised, Refused, Tabled, Answered;
  }

  /** The attempts end at the first reply that ends them, or when there are no more. */
  lemma {:induction false} SynthesisEnds(cfg: Config, w: World, h: Held, byId: map<nat, Chunk>, attempt: nat)
    requires 0 < attempt <= cfg.Attempts()
    ensures var n := Synthesis(cfg, w, h, byId, attempt).syntheses;
            && attempt <= n <= cfg.Attempts() && NoneEnds(w, byId, cfg.requireVerbatim, attempt, n)
            && (Ends(w.replies(n), byId, cfg.requireVerbatim) || n == cfg.Attempts())
            && Judge(cfg, w, h, byId, n) == Settle(Synthesis(cfg, w, h, byId, attempt))
    decreases cfg.Attempts() - attempt
  {
    hide Judge, Ends, Synthesis;
    SynthesisStep(cfg, w, h, byId, attempt);
    JudgeEnds(cfg, w, h, byId, attempt);
    if Judge(cfg, w, h, byId, attempt).Retry? {
      SynthesisEnds(cfg, w, h, byId, attempt + 1);
    } else {
      JudgeCounts(cfg, w, h, byId, attempt);
    }
  }

  /** The lead claim survived, and a strict majority did. */
  predicate LeadMajority(kept: seq<Claim>, claims: seq<Claim>) {
    kept != [] && claims != [] && kept[0].text == claims[0].text && 2 * |kept| > |claims|
  }

  function Refusal(reason: Reason): Option<Answer> {
    Some(Answer([], Some(reason), false))
  }

  function TablesOr(tables: bool, reason: Reason): Option<Answer> {
    if tables then Some(Answer([], None, true)) else Refusal(reason)
  }

  /** What the page is shown for the reply that ended the attempts. */
  predicate Shows(r: Response, reply: Reply, byId: map<nat, Chunk>, verbatim: bool, tables: bool) {
    var outcome := Validated(reply.claims, byId, verbatim);
    && (reply.raises == Some(OverBudget) ==> r.answer == Refusal(BudgetExhausted))
    && (reply.raises == Some(Upstream) ==> r.answer == Refusal(Unavailable))
    && (reply.raises == Some(Crash) ==> r == Response(FailedRun, None, None))
    && (reply.raises.None? && reply.claims == [] ==> r.answer == TablesOr(tables, LowConfidence))
    && (reply.raises.None? && reply.claims != [] ==>
          if !ClaimsLocatable(reply.claims, byId, verbatim) then r == Response(FailedRun, None, None)
          else if outcome.Ok() || LeadMajority(outcome.claims, reply.claims) then
            r.answer == Some(Answer(outcome.claims, None, false))
          else r.answer == TablesOr(tables, CitationsFailed))
  }

  lemma {:induction false} JudgeShows(cfg: Config, w: World, h: Held, byId: map<nat, Chunk>, n: nat)
    requires Ends(w.replies(n), byId, cfg.requireVerbatim) || n == cfg.Attempts()
    requires n <= cfg.Attempts() && Judge(cfg, w, h, byId, n).Settle?
    ensures Shows(Judge(cfg, w, h, byId, n).final.response, w.replies(n), byId, cfg.requireVerbatim, w.tables)
  {
    hide Validated, ClaimsLocatable, Withdraw;
  }

  // ---- whole runs -----------------------------------------------------------

  function Evidences(cfg: Config, w: World, h: Held): map<nat, Chunk> {
    ById(GroundableChunks(w, Gather(cfg, w, h).g))
  }

  /** A run's groundable evidence is the clauses its decisions rest on, and then what its
      searches selected. */
  lemma {:induction false} EvidenceIs(w: World, g: Gathered)
    ensures var chunks, n := GroundableChunks(w, g), |w.admitted|;
            && |chunks| == n + |g.retrieval.groundable| && chunks[..n] == w.admitted
            && forall i :: 0 <= i < |g.retrieval.groundable| ==> chunks[n + i] == g.retrieval.groundable[i].chunk
  {
  }

  /** A run reaches synthesis exactly when it is in scope, nothing raised, no record was
      invisible, and there is a groundable chunk, a decision or a finding to write about. */
  lemma {:induction false} ReachesSynthesisIff(cfg: Config, w: World, h: Held)
    ensures var p := Gather(cfg, w, h);
            Execution(cfg, w, h).syntheses > 0 <==>
              && (w.staff || !w.namesOther) && w.routing.raises.None? && !w.routing.outOfScope
              && p.raised.None? && p.g.invisible == {}
              && (GroundableChunks(w, p.g) != [] || p.g.desk.decisions != [] || p.g.issues > 0)
  {
    hide Gather, HeldBefore, GroundableChunks, ById, Synthesis, Withdraw;
    SynthesisAttempts(cfg, w, HeldBefore(cfg, w, h), Evidences(cfg, w, h), 1);
  }

  /** And what it answers when it does not. */
  lemma {:induction false} EarlyAnswer(cfg: Config, w: World, h: Held)
    requires Execution(cfg, w, h).syntheses == 0
    ensures var r, p := Execution(cfg, w, h).response, Gather(cfg, w, h);
            var raised := if w.routing.raises.Some? then w.routing.raises else p.raised;
            r.answer ==
              if !w.staff && w.namesOther then Refusal(OutOfScope)
              else if w.routing.raises.None? && w.routing.outOfScope then Refusal(OutOfScope)
              else
                match raised
                case Some(OverBudget) => Refusal(BudgetExhausted)
                case Some(Upstream) => Refusal(Unavailable)
                case Some(Crash) => None
                case None => Refusal(if p.g.invisible != {} then RecordNotFound else NoEligibleSource)
  {
    hide Gather, HeldBefore, GroundableChunks, ById, Synthesis, Withdraw;
    SynthesisAttempts(cfg, w, HeldBefore(cfg, w, h), Evidences(cfg, w, h), 1);
  }

  lemma {:induction false} ReachedIsSynthesis(cfg: Config, w: World, h: Held)
    requires Execution(cfg, w, h).syntheses > 0
    ensures Execution(cfg, w, h) == Synthesis(cfg, w, HeldBefore(cfg, w, h), Evidences(cfg, w, h), 1)
  {
    hide Gather, HeldBefore, GroundableChunks, ById, Synthesis, Withdraw;
  }

  /** A run that reaches synthesis ends at the first attempt whose reply raises, cannot be
      located, validates cleanly, or is empty and insufficient, or else at the last one; and
      what it shows is decided by that reply. */
  lemma {:induction false} RunEndsAtFirst(cfg: Config, w: World, h: Held)
    requires Execution(cfg, w, h).syntheses > 0
    ensures var f, byId := Execution(cfg, w, h), Evidences(cfg, w, h);
            && f.syntheses <= cfg.Attempts() && NoneEnds(w, byId, cfg.requireVerbatim, 1, f.syntheses)
            && (Ends(w.replies(f.syntheses), byId, cfg.requireVerbatim) || f.syntheses == cfg.Attempts())
            && Shows(f.response, w.replies(f.syntheses), byId, cfg.requireVerbatim, w.tables)
  {
    hide Execution, Evidences, HeldBefore, Synthesis, Ends, Judge, Shows, NoneEnds;
    var held, byId := HeldBefore(cfg, w, h), Evidences(cfg, w, h);
    ReachedIsSynthesis(cfg, w, h);
    SynthesisEnds(cfg, w, held, byId, 1);
    JudgeShows(cfg, w, held, byId, Execution(cfg, w, h).syntheses);
  }

  lemma {:induction false} FailureShown(r: Response, reply: Reply, byId: map<nat, Chunk>, verbatim: bool, tables: bool)
    requires Shows(r, reply, byId, verbatim, tables) && r.answer == Refusal(CitationsFailed)
    ensures !Ends(reply, byId, verbatim)
  {
    hide Validated, ClaimsLocatable;
    if reply.raises.Some? {
      match reply.raises.value
      case OverBudget =>
      case Upstream =>
      case Crash =>
    }
  }

  /** A citation failure is reported only when every attempt was used, and none of them
      validated cleanly. */
  lemma {:induction false} CitationsFailedLast(cfg: Config, w: World, h: Held)
    requires Execution(cfg, w, h).response.answer == Refusal(CitationsFailed)
    ensures Execution(cfg, w, h).syntheses == cfg.Attempts()
    ensures forall k: nat :: 1 <= k <= cfg.Attempts() ==> !Ends(w.replies(k), Evidences(cfg, w, h), cfg.requireVerbatim)
  {
    hide Execution, Evidences, Gather, Ends, Shows;
    var f, byId := Execution(cfg, w, h), Evidences(cfg, w, h);
    if f.syntheses == 0 { EarlyAnswer(cfg, w, h); }
    RunEndsAtFirst(cfg, w, h);
    FailureShown(f.response, w.replies(f.syntheses), byId, cfg.requireVerbatim, w.tables);
    forall k: nat | 1 <= k <= cfg.Attempts() ensures !Ends(w.replies(k), byId, cfg.requireVerbatim) {}
  }

  /** The first clean reply is the answer, with all its claims: whatever failed validation,
      or was empty though the evidence was said to suffice, before it. */
  lemma {:induction false} FirstCleanReplyWins(cfg: Config, w: World, h: Held, n: nat)
    requires Execution(cfg, w, h).syntheses > 0 && 1 <= n <= cfg.Attempts()
    requires NoneEnds(w, Evidences(cfg, w, h), cfg.requireVerbatim, 1, n)
    requires var reply, byId := w.replies(n), Evidences(cfg, w, h);
             && reply.raises.None? && reply.claims != [] && ClaimsLocatable(reply.claims, byId, cfg.requireVerbatim)
             && Validated(reply.claims, byId, cfg.requireVerbatim).Ok()
    ensures Execution(cfg, w, h).syntheses == n
    ensures Execution(cfg, w, h).response.answer ==
              Some(Answer(KeptClaims(w.replies(n).claims, Evidences(cfg, w, h), cfg.requireVerbatim), None, false))
    ensures |KeptClaims(w.replies(n).claims, Evidences(cfg, w, h), cfg.requireVerbatim)| == |w.replies(n).claims|
  {
    hide Execution, Evidences, ClaimsLocatable, KeptClaims, AllRejects, Unsupported;
    var f, byId := Execution(cfg, w, h), Evidences(cfg, w, h);
    RunEndsAtFirst(cfg, w, h);
    CleanKeepsAll(w.replies(n).claims, byId, cfg.requireVerbatim);
    assert Ends(w.replies(n), byId, cfg.requireVerbatim);
    hide Ends;
    assert f.syntheses == n;
  }

  // ---- what was gathered ----------------------------------------------------

  /** The searches of the first `n` calls; a repeated call does nothing. */
  function SearchesOf(calls: seq<Tool>, meets: nat -> Met, n: nat): seq<Result>
    requires n <= |calls|
  {
    if n == 0 then []
    else
      SearchesOf(calls, meets, n - 1)
      + (if calls[n - 1].DocSearch? && calls[n - 1] !in calls[..n - 1] then [meets(n - 1).search] else [])
  }

  lemma {:induction false} UseSearches(book: Book, g: Gathered, h: Held, tool: Tool, met: Met)
    ensures var r := Use(book, g, h, tool, met).g.retrieval;
            r == if tool.DocSearch? && tool !in g.seen then MergedResult(g.retrieval, met.search) else g.retrieval
  {
    hide MergedResult, Elapsed, Propose, Decisions.Decide;
  }

  lemma {:induction false} FoldedSnoc(searches: seq<Result>, r: Result)
    ensures Folded(searches + [r]) == MergedResult(Folded(searches), r)
  {
    hide MergedResult;
    assert (searches + [r])[..|searches|] == searches;
  }

  /** A run's evidence is the merge of its searches, in order. */
  lemma {:induction false} RetrievalIsFolded(book: Book, calls: seq<Tool>, meets: nat -> Met, h: Held, n: nat)
    requires n <= |calls| && GatherUpTo(book, calls, meets, h, n).raised.None?
    ensures GatherUpTo(book, calls, meets, h, n).g.retrieval == Folded(SearchesOf(calls, meets, n))
  {
    hide GatherUpTo, Use, Folded, MergedResult, Empty;
    if n == 0 {
      NothingDecided(book, calls, meets, h);
      assert Folded([]) == Empty() by { FoldedNone(); }
    } else {
      var before := GatherUpTo(book, calls, meets, h, n - 1);
      GatherStep(book, calls, meets, h, n);
      RetrievalIsFolded(book, calls, meets, h, n - 1);
      SeenAre(book, calls, meets, h, n - 1);
      UseSearches(book, before.g, before.h, calls[n - 1], meets(n - 1));
      FoldedSnoc(SearchesOf(calls, meets, n - 1), meets(n - 1).search);
      assert SearchesOf(calls, meets, n - 1) + [] == SearchesOf(calls, meets, n - 1);
    }
  }

  lemma {:induction false} FoldedNone()
    ensures Folded([]) == Empty()
  {
  }

  /** The findings of the first `n` calls. */
  function FindingsOf(calls: seq<Tool>, meets: nat -> Met, n: nat): nat
    requires n <= |calls|
  {
    if n == 0 then 0
    else
      FindingsOf(calls, meets, n - 1)
      + (if calls[n - 1].IssueScan? && calls[n - 1] !in calls[..n - 1] then meets(n - 1).issues else 0)
  }

  lemma {:induction false} UseFinds(book: Book, g: Gathered, h: Held, tool: Tool, met: Met)
    ensures Use(book, g, h, tool, met).g.issues == g.issues + (if tool.IssueScan? && tool !in g.seen then met.issues else 0)
  {
    hide MergedResult, Elapsed, Propose, Decisions.Decide;
  }

  /** A run's findings are those of all its scans. */
  lemma {:induction false} FindingsAreSummed(book: Book, calls: seq<Tool>, meets: nat -> Met, h: Held, n: nat)
    requires n <= |calls| && GatherUpTo(book, calls, meets, h, n).raised.None?
    ensures GatherUpTo(book, calls, meets, h, n).g.issues == FindingsOf(calls, meets, n)
  {
    hide GatherUpTo, Use;
    if n == 0 {
      NothingDecided(book, calls, meets, h);
    } else {
      var before := GatherUpTo(book, calls, meets, h, n - 1);
      GatherStep(book, calls, meets, h, n);
      FindingsAreSummed(book, calls, meets, h, n - 1);
      SeenAre(book, calls, meets, h, n - 1);
      UseFinds(book, before.g, before.h, calls[n - 1], meets(n - 1));
    }
  }

  // ---- what a run does to the ledger ----------------------------------------

  /** What a preparing call stores. */
  function Stored(tool: Tool, met: Met): seq<Ledger.Event> {
    if tool.PrepareAction? && met.proposal.Some? && met.proposal.value.stored.Prepare? then [met.proposal.value.stored]
    else []
  }

  /** The ledger's events during the first `n` calls: others' before each new call, and what
      it stores. */
  function EventsOf(calls: seq<Tool>, meets: nat -> Met, n: nat): seq<Ledger.Event>
    requires n <= |calls|
  {
    if n == 0 then []
    else
      EventsOf(calls, meets, n - 1)
      + (if calls[n - 1] in calls[..n - 1] then [] else meets(n - 1).others + Stored(calls[n - 1], meets(n - 1)))
  }

  lemma {:induction false} RunOne(st: Ledger.State, e: Ledger.Event)
    ensures Ledger.Run(st, [e]) == Ledger.Next(st, e) && Ledger.Run(st, []) == st
  {
    hide Ledger.Next;
    assert [e][..0] == [];
  }

  lemma {:induction false} UseLedger(book: Book, g: Gathered, h: Held, tool: Tool, met: Met)
    ensures Use(book, g, h, tool, met).h.ledger ==
              if tool in g.seen then h.ledger else Ledger.Run(h.ledger, met.others + Stored(tool, met))
  {
    hide MergedResult, Decisions.Decide, Ledger.Next, Ledger.Run, Looked;
    LedgerRuns.RunConcat(h.ledger, met.others, Stored(tool, met));
    RunOne(Ledger.Run(h.ledger, met.others), if Stored(tool, met) != [] then Stored(tool, met)[0] else Ledger.Sweep);
  }

  /** A run reaches the ledger through its proposals alone; all else there is others' doing. */
  lemma {:induction false} LedgerIs(book: Book, calls: seq<Tool>, meets: nat -> Met, h: Held, n: nat)
    requires n <= |calls| && GatherUpTo(book, calls, meets, h, n).raised.None?
    ensures GatherUpTo(book, calls, meets, h, n).h.ledger == Ledger.Run(h.ledger, EventsOf(calls, meets, n))
  {
    hide GatherUpTo, Use, Ledger.Run, Stored;
    if n == 0 {
      NothingDecided(book, calls, meets, h);
      RunOne(h.ledger, Ledger.Sweep);
    } else {
      var before := GatherUpTo(book, calls, meets, h, n - 1);
      GatherStep(book, calls, meets, h, n);
      LedgerIs(book, calls, meets, h, n - 1);
      SeenAre(book, calls, meets, h, n - 1);
      UseLedger(book, before.g, before.h, calls[n - 1], meets(n - 1));
      LedgerRuns.RunConcat(h.ledger, EventsOf(calls, meets, n - 1),
                           meets(n - 1).others + Stored(calls[n - 1], meets(n - 1)));
      assert EventsOf(calls, meets, n - 1) + [] == EventsOf(calls, meets, n - 1);
    }
  }

  /** A new preparing call holds the row it is given back, as the latest proposal, exactly
      when its caller may propose it and the row stands for it; no other call proposes. */
  lemma {:induction false} ProposesIff(book: Book, g: Gathered, h: Held, tool: Tool, met: Met)
    ensures var h' := Use(book, g, h, tool, met).h;
            if && tool !in g.seen && tool.PrepareAction? && met.proposal.Some?
               && var e, row := met.proposal.value.stored, met.proposal.value.row;
                  && e.Prepare? && LedgerOutcomes.Proposes(e) && row in h'.ledger.rows
                  && h'.ledger.rows[row].effect.tenant == e.who.tenant
                  && h'.ledger.rows[row].key ==
                       Ledger.Key(e.run, e.kind, Ledger.Sha256(Ledger.Effect(e.who.tenant, e.account, e.kind, e.payload)))
            then h'.prepared == Some(met.proposal.value.row) && h'.proposals == h.proposals + [met.proposal.value.row]
            else h'.prepared == h.prepared && h'.proposals == h.proposals
  {
    hide MergedResult, Decisions.Decide, Ledger.Next, Ledger.Run, Looked;
  }

  /** What ends the gathering: a call's own error, or a new decision that cannot be made. */
  lemma {:induction false} RaisedIs(book: Book, calls: seq<Tool>, meets: nat -> Met, h: Held, n: nat)
    requires 0 < n <= |calls| && GatherUpTo(book, calls, meets, h, n - 1).raised.None?
    ensures var before, met := GatherUpTo(book, calls, meets, h, n - 1), meets(n - 1);
            var tool := calls[n - 1];
            GatherUpTo(book, calls, meets, h, n).raised ==
              if met.raises.Some? then met.raises
              else if tool.PolicyDecide? && tool !in calls[..n - 1]
                      && Decisions.Decide(before.g.desk, book.pool, Decisions.Question(tool.id, tool.rule, met.order),
                                          book.now).None?
              then Some(Crash) else None
  {
    hide GatherUpTo, MergedResult, Elapsed, Propose, Decisions.Decide, Looked;
    GatherStep(book, calls, meets, h, n);
    SeenAre(book, calls, meets, h, n - 1);
  }

  function Withdrawal(f: Final, last: Held): seq<Ledger.Event> {
    if RefusedBy(f) && last.prepared.Some? then [Ledger.Withdraw(last.prepared.value)] else []
  }

  /** A whole run's footprint: what its calls store, others' events, and, if it refuses, the
      withdrawal of its latest proposal. */
  lemma {:induction false} FootprintIs(cfg: Config, w: World, h: Held)
    requires Planned(w) && Gather(cfg, w, h).raised.None?
    ensures var calls, f := Calls(cfg, w), Execution(cfg, w, h);
            f.held.ledger == Ledger.Run(h.ledger, EventsOf(calls, w.meets, |calls|) + w.meanwhile
                                                  + Withdrawal(f, HeldBefore(cfg, w, h)))
  {
    hide Execution, GatherUpTo, Calls, EventsOf, Ledger.Run, Ledger.Next, FromReply, GroundableChunks, ById;
    var calls, f, last := Calls(cfg, w), Execution(cfg, w, h), HeldBefore(cfg, w, h);
    var events, more := EventsOf(calls, w.meets, |calls|), Withdrawal(f, last);
    EveryRunIsSane(cfg, w, h);
    LedgerIs(w.book, calls, w.meets, h, |calls|);
    LedgerRuns.RunConcat(h.ledger, events, w.meanwhile);
    LedgerRuns.RunConcat(h.ledger, events + w.meanwhile, more);
    RunOne(last.ledger, if more != [] then more[0] else Ledger.Sweep);
  }

  /** An empty plan searches for the question; a proposal that no search accompanies gets a
      search for its justification; any other plan is taken as it is, up to the limit. */
  lemma {:induction false} CallsAre(cfg: Config, w: World)
    ensures var tools := w.routing.tools;
            var asked :=
              if tools == [] then [DocSearch(w.question, "")]
              else if (exists i :: 0 <= i < |tools| && tools[i].PrepareAction?)
                      && (forall i :: 0 <= i < |tools| ==> !tools[i].DocSearch?)
              then tools + [DocSearch(w.justification, "")]
              else tools;
            Calls(cfg, w) == if cfg.maxSteps < |asked| then asked[..cfg.maxSteps] else asked
  {
    assert w.routing.tools == [] ==> !HasProposal([DocSearch(w.question, "")]);
  }
}

/** The deterministic planner (agentcore/orchestrator/router.py, lines 86-122 and 282-424).

    What the question's words signal is an input; the lists of words are not modelled. */
module Router {
  import opened Text

  /** A tool call. `rest` stands for the call's other fields, which only tell calls apart. */
  datatype Tool =
    | DataQuery(id: Option<string>, rest: string)
    | TicketHistory(id: Option<string>, rest: string)
    | PolicyDecide(id: Option<string>, rule: string, rest: string)
    | PrepareAction(action: string, subject: Option<string>, rest: string)
    | CohortQuery(rest: string)
    | IssueScan(kinds: seq<string>, ticket: Option<string>, rest: string)
    | DocSearch(query: string, rest: string)
    | Unknown(name: string, rest: string)

  // ---- naming records -------------------------------------------------------

  const LOOKBACK := 14

  /** `s.rfind(word)`: the last position, or -1. */
  function RFind(s: string, word: string): (at: int)
    ensures -1 <= at <= |s|
    ensures at >= 0 ==> At(s, word, at)
    ensures forall i :: at < i && 0 <= i ==> !At(s, word, i)
  {
    RFindBefore(s, word, |s|)
  }

  function RFindBefore(s: string, word: string, hi: nat): (at: int)
    requires hi <= |s| && forall i :: hi < i ==> !At(s, word, i)
    ensures -1 <= at <= |s| && (at >= 0 ==> At(s, word, at))
    ensures forall i :: at < i && 0 <= i ==> !At(s, word, i)
  {
    if At(s, word, hi) then hi else if hi == 0 then -1 else RFindBefore(s, word, hi - 1)
  }

  datatype Word = Word(text: string, prefix: string)

  predicate Nearest(window: string, words: seq<Word>, k: nat)
    requires k < |words|
  {
    && RFind(window, words[k].text) >= 0
    && (forall j :: 0 <= j < |words| ==> RFind(window, words[j].text) <= RFind(window, words[k].text))
    && (forall j :: 0 <= j < k ==> RFind(window, words[j].text) < RFind(window, words[k].text))
  }

  /** The word whose last occurrence in the window is rightmost; of two, the earlier listed. */
  method NearestWord(window: string, words: seq<Word>) returns (r: Option<nat>)
    ensures r.None? <==> forall k :: 0 <= k < |words| ==> RFind(window, words[k].text) < 0
    ensures r.Some? ==> r.value < |words| && Nearest(window, words, r.value)
  {
    hide RFind;
    var best := -1;
    r := None;
    for k := 0 to |words|
      invariant best >= -1 && (r.None? <==> best == -1)
      invariant r.Some? ==> r.value < k && best == RFind(window, words[r.value].text)
      invariant forall j :: 0 <= j < k ==> RFind(window, words[j].text) <= best
      invariant r.Some? ==> forall j :: 0 <= j < r.value ==> RFind(window, words[j].text) < best
    {
      var at := RFind(window, words[k].text);
      if at > best {
        best, r := at, Some(k);
      }
    }
  }

  /** Where the digits of a possible identifier stand. */
  datatype Digits = Digits(start: nat, end: nat)

  function WindowBefore(text: string, start: nat): string
    requires start <= |text|
  {
    text[(if start < LOOKBACK then 0 else start - LOOKBACK)..start]
  }

  predicate NoRepeats(ids: seq<string>) {
    forall i, j :: 0 <= i < j < |ids| ==> ids[i] != ids[j]
  }

  predicate Within(text: string, digits: seq<Digits>) {
    forall d :: 0 <= d < |digits| ==> digits[d].start <= digits[d].end <= |text|
  }

  /** The digits name a record if a record word stands before them: the nearest one. */
  predicate Names(id: string, text: string, d: Digits, words: seq<Word>)
    requires d.start <= d.end <= |text|
  {
    exists k :: 0 <= k < |words| && Nearest(WindowBefore(text, d.start), words, k)
                && id == words[k].prefix + "-" + text[d.start..d.end]
  }

  /** `at[i]` is where the i-th identifier is first named: further on each time, and no
      identifier twice. */
  ghost predicate InOrder(found: seq<string>, at: seq<nat>, text: string, digits: seq<Digits>, words: seq<Word>)
    requires Within(text, digits)
  {
    && |at| == |found|
    && (forall i :: 0 <= i < |at| ==> at[i] < |digits| && Names(found[i], text, digits[at[i]], words))
    && (forall i, d :: 0 <= i < |at| && 0 <= d < at[i] ==> !Names(found[i], text, digits[d], words))
    && (forall i, j :: 0 <= i < j < |at| ==> at[i] < at[j])
    && NoRepeats(found)
  }

  ghost predicate Complete(found: seq<string>, text: string, digits: seq<Digits>, words: seq<Word>)
    requires Within(text, digits)
  {
    forall d, id :: 0 <= d < |digits| && Names(id, text, digits[d], words) ==> id in found
  }

  lemma {:induction false} NamesOne(text: string, d: Digits, words: seq<Word>, a: string, b: string)
    requires d.start <= d.end <= |text| && Names(a, text, d, words) && Names(b, text, d, words)
    ensures a == b
  {
    hide RFind, WindowBefore;
  }

  /** No identifier is invented, none is repeated, all are in the order of the text, and no
      digits with a record word before them are passed over. */
  method FindRecordIds(text: string, digits: seq<Digits>, words: seq<Word>)
      returns (found: seq<string>, ghost at: seq<nat>)
    requires Within(text, digits)
    ensures InOrder(found, at, text, digits, words) && Complete(found, text, digits, words)
  {
    hide RFind, WindowBefore, Nearest, InOrder, Complete, Names;
    found, at := [], [];
    NothingFound(text, digits, words);
    for d := 0 to |digits|
      invariant Within(text, digits[..d])
      invariant InOrder(found, at, text, digits[..d], words) && Complete(found, text, digits[..d], words)
    {
      var window := WindowBefore(text, digits[d].start);
      var word := NearestWord(window, words);
      if word.None? {
        NoWordNoName(text, digits[d], words);
        ReadOn(found, at, text, digits, d, words);
        continue;
      }
      var candidate := words[word.value].prefix + "-" + text[digits[d].start..digits[d].end];
      OnlyName(text, digits[d], words, word.value);
      if candidate !in found {
        FirstNamed(found, at, text, digits, d, words, candidate);
        found, at := found + [candidate], at + [d];
      } else {
        ReadOn(found, at, text, digits, d, words);
      }
    }
    assert digits[..|digits|] == digits;
  }

  lemma {:induction false} NothingFound(text: string, digits: seq<Digits>, words: seq<Word>)
    requires Within(text, digits)
    ensures Within(text, digits[..0]) && InOrder([], [], text, digits[..0], words)
            && Complete([], text, digits[..0], words)
  {
    hide Names;
  }

  lemma {:induction false} OnlyName(text: string, d: Digits, words: seq<Word>, k: nat)
    requires d.start <= d.end <= |text| && k < |words| && Nearest(WindowBefore(text, d.start), words, k)
    ensures forall id :: Names(id, text, d, words) <==> id == words[k].prefix + "-" + text[d.start..d.end]
  {
    hide RFind, WindowBefore, Nearest;
    var name := words[k].prefix + "-" + text[d.start..d.end];
    assert Names(name, text, d, words);
    forall id | Names(id, text, d, words) ensures id == name { NamesOne(text, d, words, id, name); }
  }

  /** Digits that name nothing, or something found before. */
  lemma {:induction false} ReadOn(found: seq<string>, at: seq<nat>, text: string, digits: seq<Digits>, d: nat,
                                  words: seq<Word>)
    requires d < |digits| && Within(text, digits) && Within(text, digits[..d])
    requires InOrder(found, at, text, digits[..d], words) && Complete(found, text, digits[..d], words)
    requires forall id :: Names(id, text, digits[d], words) ==> id in found
    ensures Within(text, digits[..d + 1])
    ensures InOrder(found, at, text, digits[..d + 1], words) && Complete(found, text, digits[..d + 1], words)
  {
    hide Names;
  }

  lemma {:induction false} FirstNamed(found: seq<string>, at: seq<nat>, text: string, digits: seq<Digits>, d: nat,
                                      words: seq<Word>, name: string)
    requires d < |digits| && Within(text, digits) && Within(text, digits[..d])
    requires InOrder(found, at, text, digits[..d], words) && Complete(found, text, digits[..d], words)
    requires name !in found && forall id :: Names(id, text, digits[d], words) <==> id == name
    ensures Within(text, digits[..d + 1])
    ensures InOrder(found + [name], at + [d], text, digits[..d + 1], words)
    ensures Complete(found + [name], text, digits[..d + 1], words)
  {
    hide Names;
    assert forall k :: 0 <= k < d ==> digits[..d + 1][k] == digits[..d][k];
    assert (found + [name])[|found|] == name && (at + [d])[|at|] == d;
  }

  lemma {:induction false} NoWordNoName(text: string, d: Digits, words: seq<Word>)
    requires d.start <= d.end <= |text|
    requires forall k :: 0 <= k < |words| ==> RFind(WindowBefore(text, d.start), words[k].text) < 0
    ensures forall id :: !Names(id, text, d, words)
  {
    hide RFind, WindowBefore;
  }

  // ---- the plan -------------------------------------------------------------

  datatype Signals = Signals(cancellation: bool, credit: bool, action: Option<string>, namesASet: bool, asksToList: bool,
                             asksAboutOrders: bool, issueTerm: bool, kinds: seq<string>)

  predicate IsOrder(id: string) {
    "ORD-" <= id
  }

  function Orders(ids: seq<string>): (orders: seq<string>)
    ensures forall o :: o in orders ==> o in ids && IsOrder(o)
    ensures |orders| <= |ids|
  {
    if ids == [] then []
    else
      var n := |ids| - 1;
      assert ids == ids[..n] + [ids[n]];
      Orders(ids[..n]) + (if IsOrder(ids[n]) then [ids[n]] else [])
  }

  function FirstTicket(ids: seq<string>): (t: Option<string>)
  {
    if ids == [] then None else if "TKT-" <= ids[0] then Some(ids[0]) else FirstTicket(ids[1..])
  }

  function Lookups(ids: seq<string>): (tools: seq<Tool>)
    ensures |tools| == |ids| && forall i :: 0 <= i < |ids| ==> tools[i] == DataQuery(Some(ids[i]), "")
  {
    seq(|ids|, i requires 0 <= i < |ids| => DataQuery(Some(ids[i]), ""))
  }

  function RulesFor(order: string, s: Signals): seq<Tool> {
    (if s.cancellation || !s.credit then [PolicyDecide(Some(order), "cancellation_fee", "")] else [])
    + (if s.credit then [PolicyDecide(Some(order), "failed_pickup_credit", "")] else [])
  }

  function Rules(orders: seq<string>, s: Signals): seq<Tool> {
    if orders == [] then [] else Rules(orders[..|orders| - 1], s) + RulesFor(orders[|orders| - 1], s)
  }

  function WantsCohort(ids: seq<string>, s: Signals): bool {
    s.namesASet && s.asksToList && ids == []
  }

  function WantsIssues(ids: seq<string>, s: Signals): bool {
    s.issueTerm || (s.namesASet && s.asksToList)
  }

  /** A proposal names the first record and gives the start of the question as its reason. */
  function Proposal(text: string, ids: seq<string>, s: Signals): Tool
    requires s.action.Some?
  {
    PrepareAction(s.action.value, if ids != [] then Some(ids[0]) else None, First(text, 200))
  }

  /** Lookups, then rules, then at most one proposal, then the tables, then the documents. */
  function IssueCalls(ids: seq<string>, s: Signals): seq<Tool> {
    if !WantsIssues(ids, s) then []
    else [IssueScan(s.kinds, if WantsCohort(ids, s) then None else FirstTicket(ids), "")]
  }

  function PlanOf(text: string, ids: seq<string>, s: Signals): seq<Tool> {
    Lookups(First(ids, 3))
    + Rules(First(Orders(ids), 2), s)
    + (if s.action.Some? then [Proposal(text, ids, s)] else [])
    + (if WantsCohort(ids, s) && !s.asksAboutOrders then [CohortQuery("open_tickets")] else [])
    + IssueCalls(ids, s)
    + [DocSearch(text, "")]
  }

  method PlanLookups(named: seq<string>) returns (tools: seq<Tool>)
    ensures tools == Lookups(named)
  {
    tools := [];
    for i := 0 to |named|
      invariant tools == Lookups(named)[..i]
    {
      tools := tools + [DataQuery(Some(named[i]), "")];
    }
  }

  method PlanRules(orders: seq<string>, s: Signals) returns (tools: seq<Tool>)
    ensures tools == Rules(orders, s)
  {
    tools := [];
    for i := 0 to |orders|
      invariant tools == Rules(orders[..i], s)
    {
      assert orders[..i + 1][..i] == orders[..i];
      ghost var before := tools;
      if s.cancellation {
        tools := tools + [PolicyDecide(Some(orders[i]), "cancellation_fee", "")];
      }
      if s.credit {
        tools := tools + [PolicyDecide(Some(orders[i]), "failed_pickup_credit", "")];
      }
      if !s.cancellation && !s.credit {
        tools := tools + [PolicyDecide(Some(orders[i]), "cancellation_fee", "")];
      }
      assert tools == before + RulesFor(orders[i], s);
    }
    assert orders[..|orders|] == orders;
  }

  method Plan(text: string, ids: seq<string>, s: Signals) returns (tools: seq<Tool>)
    ensures tools == PlanOf(text, ids, s)
  {
    hide Lookups, Rules, Orders, First;
    tools := PlanLookups(First(ids, 3));
    var rules := PlanRules(First(Orders(ids), 2), s);
    tools := tools + rules;
    if s.action.Some? {
      tools := tools + [Proposal(text, ids, s)];
    }
    var wantsCohort := s.namesASet && s.asksToList && ids == [];
    if wantsCohort && !s.asksAboutOrders {
      tools := tools + [CohortQuery("open_tickets")];
    }
    if WantsIssues(ids, s) || wantsCohort {
      tools := tools + [IssueScan(s.kinds, if wantsCohort then None else FirstTicket(ids), "")];
    }
    tools := tools + [DocSearch(text, "")];
  }

  // ---- its shape ------------------------------------------------------------

  function CountProposals(tools: seq<Tool>): nat {
    if tools == [] then 0
    else CountProposals(tools[..|tools| - 1]) + (if tools[|tools| - 1].PrepareAction? then 1 else 0)
  }

  lemma {:induction false} CountConcat(a: seq<Tool>, b: seq<Tool>)
    ensures CountProposals(a + b) == CountProposals(a) + CountProposals(b)
    decreases |b|
  {
    if b == [] {
      assert a + b == a;
    } else {
      CountConcat(a, b[..|b| - 1]);
      assert (a + b)[..|a + b| - 1] == a + b[..|b| - 1];
    }
  }

  predicate NoProposal(tools: seq<Tool>) {
    forall i :: 0 <= i < |tools| ==> !tools[i].PrepareAction?
  }

  lemma {:induction false} CountNone(tools: seq<Tool>)
    requires NoProposal(tools)
    ensures CountProposals(tools) == 0
  {
    if tools != [] { CountNone(tools[..|tools| - 1]); }
  }

  lemma {:induction false} RulesShape(orders: seq<string>, s: Signals)
    ensures |Rules(orders, s)| == |orders| * (if s.cancellation && s.credit then 2 else 1)
    ensures forall i :: 0 <= i < |Rules(orders, s)| ==>
              Rules(orders, s)[i].PolicyDecide? && Rules(orders, s)[i].id.Some? && Rules(orders, s)[i].id.value in orders
  {
    if orders != [] {
      var n := |orders| - 1;
      RulesShape(orders[..n], s);
      assert orders[..n] + [orders[n]] == orders;
      hide Rules;
      assert |RulesFor(orders[n], s)| == if s.cancellation && s.credit then 2 else 1;
    }
  }

  function PlanLength(ids: seq<string>, s: Signals): nat {
    |First(ids, 3)| + |First(Orders(ids), 2)| * (if s.cancellation && s.credit then 2 else 1)
    + (if s.action.Some? then 1 else 0)
    + (if WantsCohort(ids, s) && !s.asksAboutOrders then 1 else 0)
    + (if WantsIssues(ids, s) then 1 else 0) + 1
  }

  lemma {:induction false} PlanHasLength(text: string, ids: seq<string>, s: Signals)
    ensures |PlanOf(text, ids, s)| == PlanLength(ids, s) <= 10
  {
    hide Orders, Rules, First, Lookups;
    RulesShape(First(Orders(ids), 2), s);
    if ids == [] { assert |Orders(ids)| == 0; }
  }

  /** The first three named records are looked up, before anything else; the last call
      searches the documents. */
  lemma {:induction false} PlanEnds(text: string, ids: seq<string>, s: Signals)
    ensures var tools := PlanOf(text, ids, s);
            && tools[|tools| - 1] == DocSearch(text, "")
            && |First(ids, 3)| < |tools|
            && forall i :: 0 <= i < |First(ids, 3)| ==> tools[i] == DataQuery(Some(ids[i]), "")
  {
    hide Orders, Rules;
  }

  lemma {:induction false} AtMostOneProposal(text: string, ids: seq<string>, s: Signals)
    ensures CountProposals(PlanOf(text, ids, s)) == if s.action.Some? then 1 else 0
  {
    hide Orders, Rules, CountProposals, First;
    var a, b := Lookups(First(ids, 3)), Rules(First(Orders(ids), 2), s);
    var c := if s.action.Some? then [Proposal(text, ids, s)] else [];
    var d := if WantsCohort(ids, s) && !s.asksAboutOrders then [CohortQuery("open_tickets")] else [];
    var e := IssueCalls(ids, s);
    RulesShape(First(Orders(ids), 2), s);
    CountConcat(a + b + c + d + e, [DocSearch(text, "")]);
    CountConcat(a + b + c + d, e);
    CountConcat(a + b + c, d);
    CountConcat(a + b, c);
    CountConcat(a, b);
    CountNone(a);
    CountNone(b);
    CountNone(d);
    CountNone(e);
    CountNone([DocSearch(text, "")]);
    CountOne(c);
  }

  lemma {:induction false} CountOne(c: seq<Tool>)
    requires |c| <= 1 && (c != [] ==> c[0].PrepareAction?)
    ensures CountProposals(c) == |c|
  {
    if c != [] { assert c[..0] == []; }
  }

  /** The document search runs exactly when the whole plan fits into the step limit. */
  lemma {:induction false} SearchSurvivesIff(text: string, ids: seq<string>, s: Signals, maxSteps: nat)
    ensures DocSearch(text, "") in First(PlanOf(text, ids, s), maxSteps) <==> PlanLength(ids, s) <= maxSteps
  {
    hide Orders, First, PlanLength;
    PlanHasLength(text, ids, s);
    var tools := PlanOf(text, ids, s);
    SearchOnlyLast(text, ids, s);
    if |tools| <= maxSteps { assert First(tools, maxSteps)[|tools| - 1] == DocSearch(text, ""); }
  }

  lemma {:induction false} SearchOnlyLast(text: string, ids: seq<string>, s: Signals)
    ensures var tools := PlanOf(text, ids, s);
            |tools| > 0 && tools[|tools| - 1] == DocSearch(text, "")
            && forall i :: 0 <= i < |tools| - 1 ==> !tools[i].DocSearch?
  {
    hide Orders, Rules, First;
    RulesShape(First(Orders(ids), 2), s);
  }

  lemma {:induction false} OrdersSnoc(ids: seq<string>, id: string)
    ensures Orders(ids + [id]) == Orders(ids) + (if IsOrder(id) then [id] else [])
  {
    assert (ids + [id])[..|ids|] == ids;
  }

  lemma {:induction false} ThreeOrders(a: string, b: string, c: string)
    ensures Orders([a, b, c])
         == (if IsOrder(a) then [a] else []) + (if IsOrder(b) then [b] else []) + (if IsOrder(c) then [c] else [])
    ensures IsOrder("ORD-1001") && IsOrder("ORD-1002") && !IsOrder("TKT-501")
  {
    assert [] + [a] == [a] && [a] + [b] == [a, b] && [a, b] + [c] == [a, b, c];
    OrdersSnoc([], a);
    OrdersSnoc([a], b);
    OrdersSnoc([a, b], c);
    assert "TKT-501"[0] != "ORD-"[0];
  }

  /** Three records, two of them orders, both rules asked about and an action requested:
      the plan has nine calls, and eight steps leave the documents unread. */
  lemma {:induction false} FullPlanLosesItsSearch(text: string)
    ensures var ids := ["ORD-1001", "ORD-1002", "TKT-501"];
            var s := Signals(true, true, Some("issue_service_credit"), false, false, true, false, []);
            PlanLength(ids, s) == 9 && DocSearch(text, "") !in First(PlanOf(text, ids, s), 8)
  {
    var ids := ["ORD-1001", "ORD-1002", "TKT-501"];
    var s := Signals(true, true, Some("issue_service_credit"), false, false, true, false, []);
    hide Orders, IsOrder;
    ThreeOrders("ORD-1001", "ORD-1002", "TKT-501");
    SearchSurvivesIff(text, ids, s, 8);
  }

  /** Which records the plan looks up: the first three named, as far as the step limit
      reaches. */
  lemma {:induction false} LookedUpIff(text: string, ids: seq<string>, s: Signals, maxSteps: nat, k: nat)
    requires NoRepeats(ids) && k < |ids|
    ensures DataQuery(Some(ids[k]), "") in First(PlanOf(text, ids, s), maxSteps) <==> k < 3 && k < maxSteps
  {
    hide Orders, Rules;
    RulesShape(First(Orders(ids), 2), s);
    PlanEnds(text, ids, s);
    var tools := PlanOf(text, ids, s);
    OtherLookups(text, ids, s);
    if k < 3 && k < maxSteps { assert First(tools, maxSteps)[k] == tools[k]; }
  }

  lemma {:induction false} OtherLookups(text: string, ids: seq<string>, s: Signals)
    ensures var tools := PlanOf(text, ids, s);
            forall i :: |First(ids, 3)| <= i < |tools| ==> !tools[i].DataQuery? && !tools[i].TicketHistory?
  {
    hide Orders, Rules, NoLookup;
    var tools, n := PlanOf(text, ids, s), |First(ids, 3)|;
    AfterLookups(text, ids, s);
    forall i | n <= i < |tools| ensures !tools[i].DataQuery? && !tools[i].TicketHistory? {
      NoLookupAt(tools[n..], i - n);
    }
  }

  predicate NoLookup(tools: seq<Tool>) {
    forall i :: 0 <= i < |tools| ==> !tools[i].DataQuery? && !tools[i].TicketHistory?
  }

  lemma {:induction false} NoLookupAt(tools: seq<Tool>, i: nat)
    requires NoLookup(tools) && i < |tools|
    ensures !tools[i].DataQuery? && !tools[i].TicketHistory?
  {
  }

  lemma {:induction false} NoLookupConcat(a: seq<Tool>, b: seq<Tool>)
    requires NoLookup(a) && NoLookup(b)
    ensures NoLookup(a + b)
  {
  }

  lemma {:induction false} AfterLookups(text: string, ids: seq<string>, s: Signals)
    ensures |First(ids, 3)| <= |PlanOf(text, ids, s)| && NoLookup(PlanOf(text, ids, s)[|First(ids, 3)|..])
  {
    hide Orders, Rules, First, Proposal, WantsCohort, WantsIssues, Lookups;
    var a, b := Lookups(First(ids, 3)), Rules(First(Orders(ids), 2), s);
    var c := if s.action.Some? then [Proposal(text, ids, s)] else [];
    var d := if WantsCohort(ids, s) && !s.asksAboutOrders then [CohortQuery("open_tickets")] else [];
    var e := IssueCalls(ids, s);
    RulesShape(First(Orders(ids), 2), s);
    ProposalIsPrepared(text, ids, s);
    assert NoLookup(b) && NoLookup(c) && NoLookup(d) && NoLookup(e) && NoLookup([DocSearch(text, "")]);
    hide NoLookup, IssueCalls;
    NoLookupConcat(b, c);
    NoLookupConcat(b + c, d);
    NoLookupConcat(b + c + d, e);
    NoLookupConcat(b + c + d + e, [DocSearch(text, "")]);
    BehindFirst(a, b, c, d, e, [DocSearch(text, "")]);
  }

  lemma {:induction false} ProposalIsPrepared(text: string, ids: seq<string>, s: Signals)
    ensures s.action.Some? ==> Proposal(text, ids, s).PrepareAction?
  {
    hide First;
  }

  lemma {:induction false} BehindFirst<T>(a: seq<T>, b: seq<T>, c: seq<T>, d: seq<T>, e: seq<T>, f: seq<T>)
    ensures (a + b + c + d + e + f)[|a|..] == b + c + d + e + f
  {
    assert a + b + c + d + e + f == a + (b + c + d + e + f);
  }

  /** A fourth record, if it is an order, is still read by the rules. */
  lemma {:induction false} FourthRecordIsDecided(text: string, s: Signals)
    requires s.cancellation || !s.credit
    ensures var ids := ["TKT-501", "TKT-502", "TKT-503", "ORD-1001"];
            && PlanOf(text, ids, s)[3] == PolicyDecide(Some("ORD-1001"), "cancellation_fee", "")
            && DataQuery(Some("ORD-1001"), "") !in PlanOf(text, ids, s)
  {
    var ids := ["TKT-501", "TKT-502", "TKT-503", "ORD-1001"];
    LastIsOnlyOrder();
    FourNamed();
    var tools := PlanOf(text, ids, s);
    LookedUpIff(text, ids, s, |tools|, 3);
    OneOrder("ORD-1001", s);
    assert First(tools, |tools|) == tools;
    hide Orders, Rules;
    assert |Lookups(First(ids, 3))| == 3;
    assert First(["ORD-1001"], 2) == ["ORD-1001"];
  }

  lemma {:induction false} LastIsOnlyOrder()
    ensures Orders(["TKT-501", "TKT-502", "TKT-503", "ORD-1001"]) == ["ORD-1001"]
  {
    NotOrder("TKT-501");
    NotOrder("TKT-502");
    NotOrder("TKT-503");
    ThreeOrders("TKT-501", "TKT-502", "TKT-503");
    hide Orders, IsOrder;
    LastOrder("TKT-501", "TKT-502", "TKT-503", "ORD-1001");
  }

  lemma {:induction false} NotOrder(id: string)
    requires |id| > 0 && id[0] == 'T'
    ensures !IsOrder(id)
  {
    assert "ORD-"[0] == 'O';
  }

  lemma {:induction false} LastOrder(a: string, b: string, c: string, order: string)
    requires Orders([a, b, c]) == [] && IsOrder(order)
    ensures Orders([a, b, c, order]) == [order]
  {
    hide Orders, IsOrder;
    OrdersSnoc([a, b, c], order);
    assert [a, b, c] + [order] == [a, b, c, order] && [] + [order] == [order];
  }

  lemma {:induction false} FourNamed()
    ensures NoRepeats(["TKT-501", "TKT-502", "TKT-503", "ORD-1001"])
  {
    var ids := ["TKT-501", "TKT-502", "TKT-503", "ORD-1001"];
    assert ids[0][6] != ids[1][6] && ids[1][6] != ids[2][6] && ids[0][6] != ids[2][6];
    assert forall i :: 0 <= i < 3 ==> ids[i][0] != ids[3][0];
  }

  /** What stands in a plan and what does not: the rules for the first two orders that the
      wording calls for, by default the cancellation rule. */
  lemma {:induction false} RulesAskedIff(text: string, ids: seq<string>, s: Signals, order: string)
    ensures var plan, asked := PlanOf(text, ids, s), First(Orders(ids), 2);
            && (PolicyDecide(Some(order), "cancellation_fee", "") in plan <==>
                  order in asked && (s.cancellation || !s.credit))
            && (PolicyDecide(Some(order), "failed_pickup_credit", "") in plan <==> order in asked && s.credit)
  {
    hide Orders, First, Rules, PlanOf;
    RulesMember(First(Orders(ids), 2), s, order);
    DecisionIsRule(text, ids, s, PolicyDecide(Some(order), "cancellation_fee", ""));
    DecisionIsRule(text, ids, s, PolicyDecide(Some(order), "failed_pickup_credit", ""));
  }

  lemma {:induction false} DecisionIsRule(text: string, ids: seq<string>, s: Signals, d: Tool)
    requires d.PolicyDecide?
    ensures d in PlanOf(text, ids, s) <==> d in Rules(First(Orders(ids), 2), s)
  {
    hide Orders, Rules, First, PlanOf;
    OthersDecideNothing(text, ids, s);
    var plan, rules, n := PlanOf(text, ids, s), Rules(First(Orders(ids), 2), s), |First(ids, 3)|;
    if d in plan {
      var i :| 0 <= i < |plan| && plan[i] == d;
      assert plan[n + (i - n)] == rules[i - n];
    }
    if d in rules {
      var i :| 0 <= i < |rules| && rules[i] == d;
      assert plan[n + i] == d;
    }
  }

  /** The orders are the records named so, in the order of the text. */
  lemma {:induction false} OrdersAre(ids: seq<string>, k: nat, o: string)
    requires k <= |ids|
    ensures o in Orders(ids) <==> o in ids && "ORD-" <= o
    ensures Orders(ids[..k]) <= Orders(ids)
  {
    if ids != [] {
      var n := |ids| - 1;
      if k == |ids| {
        OrdersAre(ids[..n], n, o);
        assert ids[..k] == ids;
      } else {
        OrdersAre(ids[..n], k, o);
        assert ids[..n][..k] == ids[..k];
      }
      assert ids == ids[..n] + [ids[n]];
    }
  }

  lemma {:induction false} RulesMember(orders: seq<string>, s: Signals, order: string)
    ensures PolicyDecide(Some(order), "cancellation_fee", "") in Rules(orders, s) <==>
              order in orders && (s.cancellation || !s.credit)
    ensures PolicyDecide(Some(order), "failed_pickup_credit", "") in Rules(orders, s) <==> order in orders && s.credit
  {
    if orders != [] {
      var n := |orders| - 1;
      RulesMember(orders[..n], s, order);
      assert orders == orders[..n] + [orders[n]];
      RulesForMember(orders[n], s, order);
      hide RulesFor;
    }
  }

  lemma {:induction false} RulesForMember(own: string, s: Signals, order: string)
    ensures PolicyDecide(Some(order), "cancellation_fee", "") in RulesFor(own, s) <==>
              order == own && (s.cancellation || !s.credit)
    ensures PolicyDecide(Some(order), "failed_pickup_credit", "") in RulesFor(own, s) <==> order == own && s.credit
  {
    assert "cancellation_fee" != "failed_pickup_credit" by { assert "cancellation_fee"[0] != "failed_pickup_credit"[0]; }
  }

  lemma {:induction false} OthersDecideNothing(text: string, ids: seq<string>, s: Signals)
    ensures var plan, rules, n := PlanOf(text, ids, s), Rules(First(Orders(ids), 2), s), |First(ids, 3)|;
            && n + |rules| <= |plan| && (forall i :: 0 <= i < |rules| ==> plan[n + i] == rules[i])
            && forall i :: 0 <= i < |plan| && plan[i].PolicyDecide? ==> n <= i < n + |rules|
  {
    hide Orders, Rules;
  }

  /** A plan proposes the requested action on the first record named, with the start of the
      question as the reason; it lists tickets and scans for issues exactly when asked to. */
  lemma {:induction false} PlanAsksIff(text: string, ids: seq<string>, s: Signals, t: Tool)
    ensures var plan := PlanOf(text, ids, s);
            && (t.PrepareAction? ==>
                  (t in plan <==>
                     s.action == Some(t.action) && t.subject == (if ids == [] then None else Some(ids[0]))
                     && t.rest == if |text| > 200 then text[..200] else text))
            && (t.CohortQuery? ==>
                  (t in plan <==>
                     t.rest == "open_tickets" && s.namesASet && s.asksToList && ids == [] && !s.asksAboutOrders))
            && (t.IssueScan? ==>
                  (t in plan <==>
                     t == IssueScan(s.kinds, FirstTicket(ids), "") && (s.issueTerm || (s.namesASet && s.asksToList))))
            && (t.DocSearch? ==> (t in plan <==> t == DocSearch(text, "")))
            && (t.Unknown? || t.TicketHistory? ==> t !in plan)
  {
    hide Orders, Rules, FirstTicket;
    NoTicketNamed(ids);
    RulesShape(First(Orders(ids), 2), s);
    if !t.PolicyDecide? && !t.DataQuery? { AfterRules(text, ids, s, t); }
  }

  function Place(t: Tool): nat {
    match t
    case DataQuery(_, _) => 0
    case TicketHistory(_, _) => 0
    case PolicyDecide(_, _, _) => 1
    case PrepareAction(_, _, _) => 2
    case CohortQuery(_) => 3
    case IssueScan(_, _, _) => 4
    case DocSearch(_, _) => 5
    case Unknown(_, _) => 6
  }

  predicate Ascends(tools: seq<Tool>) {
    forall i, j :: 0 <= i < j < |tools| ==> Place(tools[i]) <= Place(tools[j])
  }

  predicate AllAt(tools: seq<Tool>, place: nat) {
    forall i :: 0 <= i < |tools| ==> Place(tools[i]) == place
  }

  lemma {:induction false} AscendsOn(a: seq<Tool>, b: seq<Tool>, place: nat)
    requires Ascends(a) && AllAt(b, place) && forall i :: 0 <= i < |a| ==> Place(a[i]) <= place
    ensures Ascends(a + b) && forall i :: 0 <= i < |a + b| ==> Place((a + b)[i]) <= place
  {
    hide Place;
  }

  /** Lookups, then rules, then the proposal, then the tables, then the documents: what the step
      limit cuts off is cut from that end. */
  lemma {:induction false} PlanInOrder(text: string, ids: seq<string>, s: Signals)
    ensures Ascends(PlanOf(text, ids, s))
  {
    hide Orders, Rules, Ascends, AllAt;
    var a, b := Lookups(First(ids, 3)), Rules(First(Orders(ids), 2), s);
    var c := if s.action.Some? then [Proposal(text, ids, s)] else [];
    var d := if WantsCohort(ids, s) && !s.asksAboutOrders then [CohortQuery("open_tickets")] else [];
    var e := IssueCalls(ids, s);
    PartsArePlaced(text, ids, s);
    AscendsOn([], a, 0);
    assert [] + a == a;
    AscendsOn(a, b, 1);
    AscendsOn(a + b, c, 2);
    AscendsOn(a + b + c, d, 3);
    AscendsOn(a + b + c + d, e, 4);
    AscendsOn(a + b + c + d + e, [DocSearch(text, "")], 5);
  }

  lemma {:induction false} PartsArePlaced(text: string, ids: seq<string>, s: Signals)
    ensures Ascends([]) && AllAt(Lookups(First(ids, 3)), 0) && AllAt(Rules(First(Orders(ids), 2), s), 1)
    ensures s.action.Some? ==> AllAt([Proposal(text, ids, s)], 2)
    ensures AllAt([], 2) && AllAt([], 3) && AllAt([CohortQuery("open_tickets")], 3)
    ensures AllAt(IssueCalls(ids, s), 4) && AllAt([DocSearch(text, "")], 5)
  {
    hide Orders, Rules;
    RulesShape(First(Orders(ids), 2), s);
  }

  lemma {:induction false} NoTicketNamed(ids: seq<string>)
    ensures FirstTicket(ids) == None <==> forall i :: 0 <= i < |ids| ==> !("TKT-" <= ids[i])
  {
    if ids != [] {
      NoTicketNamed(ids[1..]);
      assert forall i :: 0 < i < |ids| ==> ids[i] == ids[1..][i - 1];
    }
  }

  lemma {:induction false} AfterRules(text: string, ids: seq<string>, s: Signals, t: Tool)
    requires !t.PolicyDecide? && !t.DataQuery?
    ensures t in PlanOf(text, ids, s) <==>
              || (s.action.Some? && t == Proposal(text, ids, s))
              || (WantsCohort(ids, s) && !s.asksAboutOrders && t == CohortQuery("open_tickets"))
              || t in IssueCalls(ids, s) || t == DocSearch(text, "")
  {
    hide Orders, Rules, IssueCalls, Proposal;
    RulesShape(First(Orders(ids), 2), s);
  }

  /** With a ticket among the records named the scan is for the first of them. */
  lemma {:induction false} ScanNamesTicket(ids: seq<string>, k: nat)
    requires k < |ids| && "TKT-" <= ids[k] && forall i :: 0 <= i < k ==> !("TKT-" <= ids[i])
    ensures FirstTicket(ids) == Some(ids[k])
    decreases k
  {
    if k > 0 { ScanNamesTicket(ids[1..], k - 1); }
  }

  lemma {:induction false} TwoOrders(a: string, b: string)
    requires IsOrder(a) && IsOrder(b)
    ensures Orders([a, b]) == [a, b]
  {
    hide IsOrder;
    assert [] + [a] == [a] && [a] + [b] == [a, b];
    OrdersSnoc([], a);
    OrdersSnoc([a], b);
  }

  lemma {:induction false} TwoRules(a: string, b: string, s: Signals)
    ensures Rules([a, b], s) == RulesFor(a, s) + RulesFor(b, s)
  {
    hide RulesFor;
    assert [a, b][..1] == [a];
    OneOrder(a, s);
  }

  lemma {:induction false} OneOrder(order: string, s: Signals)
    ensures Rules([order], s) == RulesFor(order, s)
  {
    assert [order][..0] == [];
    assert [] + RulesFor(order, s) == RulesFor(order, s);
  }
}

/** Two-layer policy parameters (agentcore/policy/pack.py). */
module PolicyPack {
  import opened Text

  const DEFAULT_SCOPE := "default"

  /** A text may read as a number. */
  datatype Value = Number(amount: real) | Flag(on: bool) | Word(text: string, numeral: Option<real>)

  /** `documentId` is set once the parameter's quote was found in the corpus. */
  datatype Parameter = Parameter(id: string, value: Value, scope: string, documentId: Option<nat>)

  /** The parameters stand for the explanation, which names both values and documents. */
  datatype Note = Note(winning: nat, losing: Option<nat>, parameter: Parameter, displaced: Parameter)

  datatype Policy = Policy(account: Option<string>, parameters: map<string, Parameter>, notes: map<string, Note>)

  // ---- loading --------------------------------------------------------------

  /** What loading enforces: no scope declares a parameter twice. */
  predicate Unique(pool: seq<Parameter>) {
    forall i, j :: 0 <= i < j < |pool| ==> pool[i].scope != pool[j].scope || pool[i].id != pool[j].id
  }

  /** One scope lists an identifier more than once. */
  predicate Repeats(pool: seq<Parameter>, scope: string) {
    exists i, j :: 0 <= i < j < |pool| && pool[i].scope == scope == pool[j].scope && pool[i].id == pool[j].id
  }

  function ScopesOf(pool: seq<Parameter>): set<string> {
    set p | p in pool :: p.scope
  }

  method CheckScopes(pool: seq<Parameter>) returns (ok: bool)
    ensures ok == Unique(pool)
  {
    var scopes := ScopesOf(pool);
    while scopes != {}
      invariant scopes <= ScopesOf(pool)
      invariant forall s :: s in ScopesOf(pool) && s !in scopes ==> !Repeats(pool, s)
    {
      var scope :| scope in scopes;
      if Repeats(pool, scope) {
        return false;
      }
      scopes := scopes - {scope};
    }
    assert forall i :: 0 <= i < |pool| ==> pool[i].scope in ScopesOf(pool);
    ok := true;
  }

  // ---- resolving ------------------------------------------------------------

  /** The last entry of a scope under an identifier. */
  function Entry(pool: seq<Parameter>, scope: string, id: string): (r: Option<Parameter>)
    ensures r.Some? ==> r.value in pool && r.value.scope == scope && r.value.id == id
    ensures r.None? ==> forall p :: p in pool ==> p.scope != scope || p.id != id
  {
    if pool == [] then None
    else
      var n := |pool| - 1;
      assert pool == pool[..n] + [pool[n]];
      if pool[n].scope == scope && pool[n].id == id then Some(pool[n]) else Entry(pool[..n], scope, id)
  }

  function Own(pool: seq<Parameter>, account: Option<string>, id: string): Option<Parameter> {
    if account.Some? && account.value != "" then Entry(pool, account.value, id) else None
  }

  /** The account's own entry if there is one, else the default. */
  function InForce(pool: seq<Parameter>, account: Option<string>, id: string): Option<Parameter> {
    if Own(pool, account, id).Some? then Own(pool, account, id) else Entry(pool, DEFAULT_SCOPE, id)
  }

  function Defaults(pool: seq<Parameter>): map<string, Parameter> {
    if pool == [] then map[]
    else
      var n := |pool| - 1;
      if pool[n].scope == DEFAULT_SCOPE then Defaults(pool[..n])[pool[n].id := pool[n]] else Defaults(pool[..n])
  }

  function Displacing(merged: map<string, Parameter>, p: Parameter): bool {
    p.id in merged && merged[p.id].value != p.value
  }

  /** The merge after the first `n` entries of the pool. A displaced default must be
      displaced by a parameter whose clause was found; `asserted` says it always was. */
  datatype Merge = Merge(merged: map<string, Parameter>, notes: map<string, Note>, asserted: bool)

  function MergedUpTo(pool: seq<Parameter>, account: string, n: nat): Merge
    requires n <= |pool|
  {
    if n == 0 then Merge(Defaults(pool), map[], true)
    else
      var m := MergedUpTo(pool, account, n - 1);
      var p := pool[n - 1];
      if p.scope != account then m
      else if Displacing(m.merged, p) then
        Merge(m.merged[p.id := p],
              if p.documentId.Some?
              then m.notes[p.id := Note(p.documentId.value, m.merged[p.id].documentId, p, m.merged[p.id])]
              else m.notes,
              m.asserted && p.documentId.Some?)
      else m.(merged := m.merged[p.id := p])
  }

  function Merged(pool: seq<Parameter>, account: Option<string>): Merge {
    if account.Some? && account.value != "" then MergedUpTo(pool, account.value, |pool|)
    else Merge(Defaults(pool), map[], true)
  }

  method CollectDefaults(pool: seq<Parameter>) returns (merged: map<string, Parameter>)
    ensures merged == Defaults(pool)
  {
    merged := map[];
    for i := 0 to |pool|
      invariant merged == Defaults(pool[..i])
    {
      assert pool[..i + 1][..i] == pool[..i];
      if pool[i].scope == DEFAULT_SCOPE {
        merged := merged[pool[i].id := pool[i]];
      }
    }
    assert pool[..|pool|] == pool;
  }

  /** None stands for the failed assertion that the winning clause was found. */
  method ResolveForAccount(pool: seq<Parameter>, account: Option<string>) returns (r: Option<Policy>)
    ensures r.Some? == Merged(pool, account).asserted
    ensures r.Some? ==> r.value == Policy(account, Merged(pool, account).merged, Merged(pool, account).notes)
  {
    hide Defaults;
    var merged := CollectDefaults(pool);
    var notes: map<string, Note> := map[];
    if account.Some? && account.value != "" {
      for n := 0 to |pool|
        invariant MergedUpTo(pool, account.value, n) == Merge(merged, notes, true)
      {
        var parameter := pool[n];
        if parameter.scope != account.value {
          continue;
        }
        var displaced := if parameter.id in merged then Some(merged[parameter.id]) else None;
        merged := merged[parameter.id := parameter];
        if displaced.Some? && displaced.value.value != parameter.value {
          if parameter.documentId.None? {
            FailureStays(pool, account.value, n + 1, |pool|);
            return None;
          }
          notes := notes[parameter.id :=
                           Note(parameter.documentId.value, displaced.value.documentId, parameter, displaced.value)];
        }
      }
    }
    r := Some(Policy(account, merged, notes));
  }

  lemma {:induction false} FailureStays(pool: seq<Parameter>, account: string, n: nat, m: nat)
    requires n <= m <= |pool| && !MergedUpTo(pool, account, n).asserted
    ensures !MergedUpTo(pool, account, m).asserted
    decreases m
  {
    if n < m { FailureStays(pool, account, n, m - 1); }
  }

  // ---- what resolution means ------------------------------------------------

  predicate Holds(merged: map<string, Parameter>, id: string, p: Option<Parameter>) {
    (id in merged) == p.Some? && (id in merged ==> merged[id] == p.value)
  }

  lemma {:induction false} DefaultsAre(pool: seq<Parameter>, id: string)
    ensures Holds(Defaults(pool), id, Entry(pool, DEFAULT_SCOPE, id))
  {
    if pool != [] { DefaultsAre(pool[..|pool| - 1], id); }
  }

  lemma {:induction false} EntryTake(pool: seq<Parameter>, n: nat, scope: string, id: string)
    requires n < |pool|
    ensures Entry(pool[..n + 1], scope, id)
         == if pool[n].scope == scope && pool[n].id == id then Some(pool[n]) else Entry(pool[..n], scope, id)
  {
    assert pool[..n + 1][..n] == pool[..n];
  }

  lemma {:induction false} MergedUpToIs(pool: seq<Parameter>, account: string, n: nat, id: string)
    requires n <= |pool|
    ensures var own := Entry(pool[..n], account, id);
            Holds(MergedUpTo(pool, account, n).merged, id, if own.Some? then own else Entry(pool, DEFAULT_SCOPE, id))
  {
    hide Entry, Defaults;
    DefaultsAre(pool, id);
    if n > 0 {
      MergedUpToIs(pool, account, n - 1, id);
      EntryTake(pool, n - 1, account, id);
    } else {
      assert pool[..0] == [];
      assert Entry([], account, id).None?;
    }
  }

  /** What is in force is the account's entry, else the default. */
  lemma {:induction false} ResolutionIs(pool: seq<Parameter>, account: Option<string>, id: string)
    ensures Holds(Merged(pool, account).merged, id, InForce(pool, account, id))
  {
    hide Entry, Defaults, MergedUpTo;
    DefaultsAre(pool, id);
    if account.Some? && account.value != "" {
      MergedUpToIs(pool, account.value, |pool|, id);
      assert pool[..|pool|] == pool;
    }
  }

  /** An account entry that changes a default. */
  predicate Overrides(own: Option<Parameter>, default: Option<Parameter>) {
    own.Some? && default.Some? && own.value.value != default.value.value
  }

  /** A note is kept exactly for an override whose clause was found, and says which
      default was displaced by what. */
  predicate NoteIs(notes: map<string, Note>, id: string, own: Option<Parameter>, default: Option<Parameter>) {
    && (id in notes <==> Overrides(own, default) && own.value.documentId.Some?)
    && (id in notes ==> notes[id] == Note(own.value.documentId.value, default.value.documentId, own.value, default.value))
  }

  lemma {:induction false} EntryBefore(pool: seq<Parameter>, n: nat)
    requires Unique(pool) && n < |pool|
    ensures Entry(pool[..n], pool[n].scope, pool[n].id).None?
  {
    hide Entry;
  }

  lemma {:induction false} NotesUpToAre(pool: seq<Parameter>, account: string, n: nat, id: string)
    requires Unique(pool) && n <= |pool|
    ensures NoteIs(MergedUpTo(pool, account, n).notes, id, Entry(pool[..n], account, id), Entry(pool, DEFAULT_SCOPE, id))
  {
    hide Entry, Defaults, Unique, MergedUpTo, NoteIs;
    if n > 0 {
      NotesUpToAre(pool, account, n - 1, id);
      NotesStep(pool, account, n - 1, id);
    } else {
      NoNotes(pool, account, id);
    }
  }

  lemma {:induction false} NoNotes(pool: seq<Parameter>, account: string, id: string)
    ensures NoteIs(MergedUpTo(pool, account, 0).notes, id, Entry(pool[..0], account, id), Entry(pool, DEFAULT_SCOPE, id))
  {
    hide Entry, Defaults;
    assert pool[..0] == [];
    assert Entry([], account, id).None?;
  }

  lemma {:induction false} NotesStep(pool: seq<Parameter>, account: string, n: nat, id: string)
    requires Unique(pool) && n < |pool|
    requires NoteIs(MergedUpTo(pool, account, n).notes, id, Entry(pool[..n], account, id), Entry(pool, DEFAULT_SCOPE, id))
    ensures NoteIs(MergedUpTo(pool, account, n + 1).notes, id, Entry(pool[..n + 1], account, id),
                   Entry(pool, DEFAULT_SCOPE, id))
  {
    hide Entry, Defaults, Unique;
    EntryTake(pool, n, account, id);
    EntryBefore(pool, n);
    MergedUpToIs(pool, account, n, pool[n].id);
  }

  /** Notes exist exactly for the parameters whose value differs from a displaced default. */
  lemma {:induction false} NotesAre(pool: seq<Parameter>, account: Option<string>, id: string)
    requires Unique(pool)
    ensures NoteIs(Merged(pool, account).notes, id, Own(pool, account, id), Entry(pool, DEFAULT_SCOPE, id))
  {
    hide Entry, Defaults, MergedUpTo, Unique;
    if account.Some? && account.value != "" {
      NotesUpToAre(pool, account.value, |pool|, id);
      assert pool[..|pool|] == pool;
    }
  }

  predicate Unproven(own: Option<Parameter>, default: Option<Parameter>) {
    Overrides(own, default) && own.value.documentId.None?
  }

  lemma {:induction false} AssertedUpToIff(pool: seq<Parameter>, account: string, n: nat)
    requires Unique(pool) && n <= |pool|
    ensures MergedUpTo(pool, account, n).asserted <==>
              forall id :: !Unproven(Entry(pool[..n], account, id), Entry(pool, DEFAULT_SCOPE, id))
  {
    hide Entry, Defaults, Unique;
    if n > 0 {
      var p := pool[n - 1];
      AssertedUpToIff(pool, account, n - 1);
      forall id ensures Entry(pool[..n], account, id)
                     == if p.scope == account && p.id == id then Some(p) else Entry(pool[..n - 1], account, id)
      {
        EntryTake(pool, n - 1, account, id);
      }
      EntryBefore(pool, n - 1);
      MergedUpToIs(pool, account, n - 1, p.id);
      assert p.scope == account ==> Entry(pool[..n], account, p.id) == Some(p);
    } else {
      assert pool[..0] == [];
      assert forall id :: Entry([], account, id).None?;
    }
  }

  /** The assertion holds exactly when every override has a located clause. */
  lemma {:induction false} AssertedIff(pool: seq<Parameter>, account: Option<string>)
    requires Unique(pool)
    ensures Merged(pool, account).asserted <==>
              forall id :: !Unproven(Own(pool, account, id), Entry(pool, DEFAULT_SCOPE, id))
  {
    hide Entry, Defaults, MergedUpTo, Unique;
    if account.Some? && account.value != "" {
      AssertedUpToIff(pool, account.value, |pool|);
      assert pool[..|pool|] == pool;
    }
  }

  // ---- what resolution does not depend on -----------------------------------

  /** The same defaults and the same entries of one account, in any order, whatever the
      other accounts have. */
  ghost predicate Agree(p: seq<Parameter>, q: seq<Parameter>, account: Option<string>) {
    forall x: Parameter :: x.scope == DEFAULT_SCOPE || account == Some(x.scope) ==> (x in p <==> x in q)
  }

  lemma {:induction false} EntriesAgree(p: seq<Parameter>, q: seq<Parameter>, account: Option<string>,
                                        scope: string, id: string)
    requires Unique(p) && Unique(q) && Agree(p, q, account)
    requires scope == DEFAULT_SCOPE || account == Some(scope)
    ensures Entry(p, scope, id) == Entry(q, scope, id)
  {
    hide Entry;
  }

  /** Nothing about other accounts, and no reordering, changes a resolution. */
  lemma {:induction false} NonInterference(p: seq<Parameter>, q: seq<Parameter>, account: Option<string>)
    requires Unique(p) && Unique(q) && Agree(p, q, account)
    ensures Merged(p, account) == Merged(q, account)
  {
    hide Unique, Agree, Merged, Entry;
    forall id
      ensures Entry(p, DEFAULT_SCOPE, id) == Entry(q, DEFAULT_SCOPE, id) && Own(p, account, id) == Own(q, account, id)
    {
      EntriesAgree(p, q, account, DEFAULT_SCOPE, id);
      if account.Some? { EntriesAgree(p, q, account, account.value, id); }
    }
    AssertedIff(p, account);
    AssertedIff(q, account);
    SameMaps(p, q, account);
  }

  ghost predicate SameEntries(p: seq<Parameter>, q: seq<Parameter>, account: Option<string>) {
    forall id :: Entry(p, DEFAULT_SCOPE, id) == Entry(q, DEFAULT_SCOPE, id) && Own(p, account, id) == Own(q, account, id)
  }

  lemma {:induction false} SameMaps(p: seq<Parameter>, q: seq<Parameter>, account: Option<string>)
    requires Unique(p) && Unique(q) && SameEntries(p, q, account)
    ensures Merged(p, account).merged == Merged(q, account).merged && Merged(p, account).notes == Merged(q, account).notes
  {
    hide Unique, Merged, Entry;
    var a, b := Merged(p, account), Merged(q, account);
    forall id ensures (id in a.merged <==> id in b.merged) && (id in a.merged ==> a.merged[id] == b.merged[id]) {
      ResolutionIs(p, account, id);
      ResolutionIs(q, account, id);
      assert Own(p, account, id) == Own(q, account, id);
      assert InForce(p, account, id) == InForce(q, account, id);
    }
    forall id ensures (id in a.notes <==> id in b.notes) && (id in a.notes ==> a.notes[id] == b.notes[id]) {
      NotesAre(p, account, id);
      NotesAre(q, account, id);
    }
  }
}

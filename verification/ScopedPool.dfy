/** Transaction-local scope on pooled database sessions (agentcore/db/engine.py, lines 80-221,
    with the row filter of agentcore/db/migrations/001_init.sql, lines 34-58).

    A session is bound when it is leased and its settings end with a transaction; the
    proxy that is handed out binds them again. */
module ScopedPool {
  import opened Text
  import opened Principals

  /** The three session settings, which end with the transaction that set them. */
  datatype Settings = Settings(tenant: string, account: string, role: Option<Role>)

  const UNSET := Settings("", "", None)

  /** What the database functions make of the settings; the empty string reads as absent. */
  datatype Scope = Scope(tenant: Option<string>, account: Option<string>, role: Option<Role>)

  function NullIfEmpty(s: string): Option<string> {
    if s == "" then None else Some(s)
  }

  function Seen(s: Settings): Scope {
    Scope(NullIfEmpty(s.tenant), NullIfEmpty(s.account), s.role)
  }

  function Bound(p: Principal): Settings {
    Settings(p.tenant, if p.account.Some? then p.account.value else "", Some(p.role))
  }

  // ---- one session ----------------------------------------------------------

  datatype Slot = Slot(leaser: Option<Principal>, local: Settings)

  datatype Action =
    | Lease(principal: Principal, verify: bool, superuser: bool) | Execute | Commit | Rollback | Release | BareCommit

  /** What a statement ran under, and for whom. */
  datatype Entry = Entry(principal: Principal, scope: Scope)

  predicate Verified(local: Settings, p: Principal, superuser: bool) {
    && Seen(local).tenant == Some(p.tenant) && !superuser
    && (p.role == Customer ==> Seen(local).account == p.account)
  }

  class Session {
    var local: Settings

    constructor ()
      ensures local == UNSET
    {
      local := UNSET;
    }

    method EndTransaction()
      modifies this
      ensures local == UNSET
    {
      local := UNSET;
    }

    method ApplyScope(p: Principal)
      modifies this
      ensures local == Bound(p)
    {
      var account := if p.account.Some? then p.account.value else "";
      local := Settings(p.tenant, account, Some(p.role));
    }

    method VerifyScope(p: Principal, superuser: bool) returns (ok: bool)
      ensures ok == Verified(local, p, superuser)
    {
      var row := Seen(local);
      if row.tenant != Some(p.tenant) {
        return false;
      }
      if superuser {
        return false;
      }
      if p.role == Customer && row.account != p.account {
        return false;
      }
      ok := true;
    }
  }

  /** The proxy: whoever commits or rolls back through it keeps the scope. */
  class ScopedConnection {
    const conn: Session
    const principal: Principal

    ghost predicate Valid()
      reads conn
    {
      conn.local == Bound(principal)
    }

    function View(): Slot
      reads conn
    {
      Slot(Some(principal), conn.local)
    }

    constructor (conn: Session, principal: Principal)
      requires conn.local == Bound(principal)
      ensures this.conn == conn && this.principal == principal && Valid()
    {
      this.conn, this.principal := conn, principal;
    }

    method Execute() returns (entry: Entry)
      requires Valid()
      ensures Step(View(), Action.Execute) == (View(), [entry])
    {
      entry := Entry(principal, Seen(conn.local));
    }

    method Commit()
      requires Valid()
      modifies conn
      ensures Valid() && Step(old(View()), Action.Commit) == (View(), [])
    {
      conn.EndTransaction();
      conn.ApplyScope(principal);
    }

    method Rollback()
      requires Valid()
      modifies conn
      ensures Valid() && Step(old(View()), Action.Rollback) == (View(), [])
    {
      conn.EndTransaction();
      conn.ApplyScope(principal);
    }
  }

  /** Entering the scope: the session taken from the pool is bound and then verified; a
      violation rolls back and returns it. */
  method Enter(conn: Session, principal: Principal, verify: bool, superuser: bool)
      returns (scoped: Option<ScopedConnection>)
    modifies conn
    ensures scoped.Some? ==>
              && fresh(scoped.value) && scoped.value.conn == conn && scoped.value.principal == principal
              && scoped.value.Valid()
    ensures Step(Slot(None, old(conn.local)), Lease(principal, verify, superuser))
         == (Slot(if scoped.Some? then Some(principal) else None, conn.local), [])
    ensures verify && (superuser || principal.tenant == "") ==> scoped.None? && conn.local == UNSET
    ensures !verify || (principal.Valid() && principal.tenant != "" && !superuser) ==> scoped.Some?
  {
    conn.ApplyScope(principal);
    if verify {
      var ok := conn.VerifyScope(principal, superuser);
      if !ok {
        conn.EndTransaction();
        return None;
      }
    }
    var proxy := new ScopedConnection(conn, principal);
    scoped := Some(proxy);
  }

  /** Leaving it, cleanly or not, ends the transaction on the session itself. */
  method Leave(scoped: ScopedConnection)
    requires scoped.Valid()
    modifies scoped.conn
    ensures Step(old(scoped.View()), Release) == (Slot(None, scoped.conn.local), [])
  {
    scoped.conn.EndTransaction();
  }

  /** A lease needs an idle session and everything else a leased one. */
  function Step(slot: Slot, a: Action): (Slot, seq<Entry>) {
    match a
    case Lease(p, verify, superuser) =>
      if slot.leaser.Some? then (slot, [])
      else if verify && !Verified(Bound(p), p, superuser) then (Slot(None, UNSET), [])
      else (Slot(Some(p), Bound(p)), [])
    case Execute =>
      if slot.leaser.None? then (slot, []) else (slot, [Entry(slot.leaser.value, Seen(slot.local))])
    case Commit => if slot.leaser.None? then (slot, []) else (slot.(local := Bound(slot.leaser.value)), [])
    case Rollback => if slot.leaser.None? then (slot, []) else (slot.(local := Bound(slot.leaser.value)), [])
    case Release => if slot.leaser.None? then (slot, []) else (Slot(None, UNSET), [])
    case BareCommit => if slot.leaser.None? then (slot, []) else (slot.(local := UNSET), [])
  }

  // ---- a pool under any interleaving ----------------------------------------

  datatype Event = Event(session: nat, action: Action)

  datatype Pool = Pool(slots: seq<Slot>, log: seq<Entry>)

  function Next(pool: Pool, e: Event): Pool {
    if e.session >= |pool.slots| then pool
    else
      var (slot, entries) := Step(pool.slots[e.session], e.action);
      Pool(pool.slots[e.session := slot], pool.log + entries)
  }

  function Run(size: nat, events: seq<Event>): Pool {
    if events == [] then Pool(seq(size, _ => Slot(None, UNSET)), [])
    else Next(Run(size, events[..|events| - 1]), events[|events| - 1])
  }

  predicate Proxied(events: seq<Event>) {
    forall i :: 0 <= i < |events| ==> events[i].action != BareCommit
  }

  /** Idle sessions carry nothing; leased ones their leaser's scope, or, after a commit
      that went round the proxy, nothing. */
  predicate SlotOk(slot: Slot, proxied: bool) {
    match slot.leaser
    case None => slot.local == UNSET
    case Some(p) => slot.local == Bound(p) || (!proxied && slot.local == UNSET)
  }

  predicate EntryOk(e: Entry, proxied: bool) {
    e.scope == Seen(Bound(e.principal)) || (!proxied && e.scope == Seen(UNSET))
  }

  predicate PoolOk(pool: Pool, proxied: bool) {
    && (forall i :: 0 <= i < |pool.slots| ==> SlotOk(pool.slots[i], proxied))
    && (forall i :: 0 <= i < |pool.log| ==> EntryOk(pool.log[i], proxied))
  }

  lemma {:induction false} NextKeeps(pool: Pool, e: Event, proxied: bool)
    requires PoolOk(pool, proxied) && (proxied ==> e.action != BareCommit)
    ensures PoolOk(Next(pool, e), proxied)
  {
  }

  /** However principals' sessions interleave, every statement runs under its leaser's
      scope and no idle session carries any. With bare commits among the events a
      statement may lose its scope, but never gains another's. */
  lemma {:induction false} ScopeNeverSlips(size: nat, events: seq<Event>)
    ensures Proxied(events) ==> PoolOk(Run(size, events), true)
    ensures PoolOk(Run(size, events), false)
  {
    hide Next;
    if events != [] {
      var n := |events| - 1;
      ScopeNeverSlips(size, events[..n]);
      hide PoolOk;
      NextKeeps(Run(size, events[..n]), events[n], false);
      if Proxied(events) { NextKeeps(Run(size, events[..n]), events[n], true); }
    }
  }

  // ---- rows -----------------------------------------------------------------

  /** The row filter. */
  predicate Visible(scope: Scope, tenant: string, account: string) {
    && scope.tenant == Some(tenant)
    && (scope.role == Some(SupportAgent) || scope.role == Some(OperationsAdmin) || scope.account == Some(account))
  }

  predicate Entitled(p: Principal, tenant: string, account: string) {
    tenant == p.tenant && tenant != "" && (p.role != Customer || p.account == Some(account))
  }

  /** A statement sees exactly the rows its leaser is entitled to; round the proxy, none. */
  lemma {:induction false} StatementsSeeOwnRows(size: nat, events: seq<Event>, i: nat, tenant: string, account: string)
    requires i < |Run(size, events).log| && Run(size, events).log[i].principal.Valid()
    ensures var e := Run(size, events).log[i];
            && (Visible(e.scope, tenant, account) ==> Entitled(e.principal, tenant, account))
            && (Proxied(events) && Entitled(e.principal, tenant, account) ==> Visible(e.scope, tenant, account))
  {
    hide Run, Proxied;
    ScopeNeverSlips(size, events);
    assert EntryOk(Run(size, events).log[i], false);
    assert Proxied(events) ==> EntryOk(Run(size, events).log[i], true);
  }

  /** Without the proxy the first commit makes the database look empty. */
  lemma {:induction false} BareCommitBlinds(p: Principal, tenant: string, account: string)
    requires Verified(Bound(p), p, false)
    ensures var events := [Event(0, Lease(p, true, false)), Event(0, BareCommit), Event(0, Execute)];
            var log := Run(1, events).log;
            log == [Entry(p, Scope(None, None, None))] && !Visible(log[0].scope, tenant, account)
  {
    var a, b, c := Event(0, Lease(p, true, false)), Event(0, BareCommit), Event(0, Execute);
    assert [a, b, c][..2] == [a, b] && [a, b][..1] == [a] && [a][..0] == [];
    var start := Run(1, []);
    assert Run(1, [a]) == Next(start, a);
    assert Run(1, [a, b]) == Next(Run(1, [a]), b);
    assert Run(1, [a, b, c]) == Next(Run(1, [a, b]), c);
  }

  /** A lease lasts until the session is released: nobody else is given it before. */
  lemma {:induction false} LeaseLasts(size: nat, events: seq<Event>, n: nat, i: nat)
    requires n <= |events| && i < |Run(size, events[..n]).slots|
    requires Run(size, events[..n]).slots[i].leaser.Some?
    requires forall k :: n <= k < |events| && events[k].session == i ==> events[k].action != Release
    ensures i < |Run(size, events).slots| && Run(size, events).slots[i].leaser == Run(size, events[..n]).slots[i].leaser
    decreases |events|
  {
    if n == |events| {
      assert events[..n] == events;
    } else {
      var last := |events| - 1;
      assert events[..last][..n] == events[..n];
      LeaseLasts(size, events[..last], n, i);
      var before, e := Run(size, events[..last]), events[last];
      hide Run;
      StepKeepsLeaser(before, e, i);
      assert Run(size, events) == Next(before, e) by { RunTake(size, events); }
    }
  }

  lemma {:induction false} RunTake(size: nat, events: seq<Event>)
    requires events != []
    ensures Run(size, events) == Next(Run(size, events[..|events| - 1]), events[|events| - 1])
  {
  }

  lemma {:induction false} StepKeepsLeaser(pool: Pool, e: Event, i: nat)
    requires i < |pool.slots| && pool.slots[i].leaser.Some? && (e.session == i ==> e.action != Release)
    ensures i < |Next(pool, e).slots| && Next(pool, e).slots[i].leaser == pool.slots[i].leaser
  {
  }

  predicate LeasedTo(e: Event, i: nat, p: Principal) {
    && e.session == i && e.action.Lease? && e.action.principal == p
    && !e.action.superuser && p.tenant != ""
  }

  /** In a pool that verifies its leases, whatever interleaves, whoever holds a session was
      leased it under a named tenant, and not as a superuser. */
  lemma {:induction false} OnlyVerifiedLeased(size: nat, events: seq<Event>, i: nat)
    requires forall k :: 0 <= k < |events| && events[k].action.Lease? ==> events[k].action.verify
    requires i < |Run(size, events).slots| && Run(size, events).slots[i].leaser.Some?
    ensures exists k :: 0 <= k < |events| && LeasedTo(events[k], i, Run(size, events).slots[i].leaser.value)
  {
    if events != [] {
      var n := |events| - 1;
      var before, p := Run(size, events[..n]), Run(size, events).slots[i].leaser.value;
      if !LeasedTo(events[n], i, p) {
        StepLeases(before, events[n], i);
        OnlyVerifiedLeased(size, events[..n], i);
        var k :| 0 <= k < n && LeasedTo(events[..n][k], i, p);
        assert LeasedTo(events[k], i, p);
      }
    }
  }

  lemma {:induction false} StepLeases(pool: Pool, e: Event, i: nat)
    requires i < |Next(pool, e).slots| && Next(pool, e).slots[i].leaser.Some?
    requires e.action.Lease? ==> e.action.verify
    ensures i < |pool.slots|
    ensures pool.slots[i].leaser == Next(pool, e).slots[i].leaser || LeasedTo(e, i, Next(pool, e).slots[i].leaser.value)
  {
  }

  /** A session that passes, under the role it was bound for, sees exactly the rows its
      principal is entitled to. */
  lemma {:induction false} VerifiedSeesOwn(local: Settings, p: Principal, tenant: string, account: string)
    requires Verified(local, p, false) && local.role == Some(p.role)
    ensures Visible(Seen(local), tenant, account) <==> Entitled(p, tenant, account)
  {
  }

  /** Verification refuses exactly the sessions the row filter could not protect. */
  lemma {:induction false} VerifiedIff(p: Principal, superuser: bool)
    requires p.Valid()
    ensures Verified(Bound(p), p, superuser) <==> p.tenant != "" && !superuser
  {
  }
}

/** The migration runner: its own or the caller's transaction, a savepoint, and competing processes. */
module Migrations {
  import opened Wrappers
  import Order

  /** Database contents and PRAGMA user_version; both are transactional. */
  datatype Db<C> = Db(data: C, version: nat)

  /** What a migration leaves behind; a failed one may have changed part of the data. */
  datatype Applied<C> = Applied(data: C, failed: bool)

  datatype Migration<!C> = Migration(version: nat, apply: C -> Applied<C>)

  /** The commands that can raise; rollbacks are taken to succeed. */
  datatype Command = BeginImmediate | ReadVersion | Savepoint | SetVersion(version: nat) | Release | Commit

  // ---------------------------------------------------------------- what the chain means

  ghost predicate Ascending<C>(chain: seq<Migration<C>>) {
    forall i, j :: 0 <= i < j < |chain| ==> chain[i].version < chain[j].version
  }

  /** Apply, in order, every migration newer than current; None if one of them fails. */
  function Upgrade<C>(chain: seq<Migration<C>>, current: nat, db: Db<C>): Option<Db<C>> {
    if chain == [] then Some(db)
    else if chain[0].version <= current then Upgrade(chain[1..], current, db)
    else
      var step := chain[0].apply(db.data);
      if step.failed then None else Upgrade(chain[1..], current, Db(step.data, chain[0].version))
  }

  lemma {:induction false} UpgradeSnoc<C>(chain: seq<Migration<C>>, current: nat, db: Db<C>, k: nat)
    requires k < |chain|
    ensures Upgrade(chain[..k + 1], current, db) ==
            match Upgrade(chain[..k], current, db)
            case None => None
            case Some(w) => Upgrade([chain[k]], current, w)
  {
    if k == 0 {
      assert chain[..1] == [chain[0]] && chain[..0] == [];
    } else {
      assert chain[..k + 1][1..] == chain[1..][..k] && chain[..k][1..] == chain[1..][..k - 1];
      if chain[0].version <= current {
        UpgradeSnoc(chain[1..], current, db, k - 1);
      } else if !chain[0].apply(db.data).failed {
        UpgradeSnoc(chain[1..], current, Db(chain[0].apply(db.data).data, chain[0].version), k - 1);
      }
    }
  }

  /** The upgraded database is at the newest version known. */
  lemma {:induction false} UpgradeVersion<C>(chain: seq<Migration<C>>, current: nat, db: Db<C>)
    requires Ascending(chain) && Upgrade(chain, current, db).Some?
    requires db.version <= current || (chain != [] ==> db.version < chain[0].version)
    ensures var end := Upgrade(chain, current, db).value.version;
            if chain == [] || chain[|chain| - 1].version <= current then end == db.version
            else end == chain[|chain| - 1].version
  {
    if chain != [] {
      if chain[0].version <= current {
        UpgradeVersion(chain[1..], current, db);
      } else {
        UpgradeVersion(chain[1..], current, Db(chain[0].apply(db.data).data, chain[0].version));
      }
    }
  }

  /** Nothing is pending at or beyond the newest version. */
  lemma {:induction false} UpgradeNothing<C>(chain: seq<Migration<C>>, current: nat, db: Db<C>)
    requires forall i :: 0 <= i < |chain| ==> chain[i].version <= current
    ensures Upgrade(chain, current, db) == Some(db)
  {
    if chain != [] {
      UpgradeNothing(chain[1..], current, db);
    }
  }

  /** A second upgrade changes nothing: every migration takes effect at most once. */
  lemma UpgradeTwice<C>(chain: seq<Migration<C>>, db: Db<C>)
    requires Ascending(chain) && Upgrade(chain, db.version, db).Some?
    ensures var end := Upgrade(chain, db.version, db).value;
            Upgrade(chain, end.version, end) == Some(end)
  {
    var end := Upgrade(chain, db.version, db).value;
    UpgradeVersion(chain, db.version, db);
    UpgradeNothing(chain, end.version, end);
  }

  // ---------------------------------------------------------------- the same, step by step

  /** The migrations newer than current, as they stand in the chain. */
  function Pending<C>(chain: seq<Migration<C>>, current: nat): seq<Migration<C>> {
    Order.Select((m: Migration<C>) => m.version > current, chain)
  }

  /** They are exactly those, in ascending order. */
  lemma PendingAre<C>(chain: seq<Migration<C>>, current: nat)
    requires Ascending(chain)
    ensures forall m :: m in Pending(chain, current) <==> m in chain && m.version > current
    ensures Ascending(Pending(chain, current))
  {
    var newer := (m: Migration<C>) => m.version > current;
    Order.SelectBounds(newer, chain);
    Order.SelectSorted((a: Migration<C>, b: Migration<C>) => a.version < b.version, newer, chain);
  }

  /** The contents that these migrations lead through: each is what the next one makes of the one before, and none
      of them fails. */
  ghost predicate Leads<C>(pending: seq<Migration<C>>, trace: seq<C>) {
    && |trace| == |pending| + 1
    && forall k :: 0 <= k < |pending| ==> pending[k].apply(trace[k]) == Applied(trace[k + 1], false)
  }

  ghost predicate LeadsTo<C(!new)>(pending: seq<Migration<C>>, from: C, to: C) {
    exists trace :: Leads(pending, trace) && trace[0] == from && trace[|pending|] == to
  }

  /** The version behind these migrations. */
  function VersionBehind<C>(pending: seq<Migration<C>>, current: nat): nat {
    if pending == [] then current else pending[|pending| - 1].version
  }

  lemma LeadsPrepend<C(!new)>(m: Migration<C>, rest: seq<Migration<C>>, from: C, to: C)
    requires !m.apply(from).failed
    ensures LeadsTo([m] + rest, from, to) <==> LeadsTo(rest, m.apply(from).data, to)
  {
    var next := m.apply(from).data;
    if trace :| Leads(rest, trace) && trace[0] == next && trace[|rest|] == to {
      var longer := [from] + trace;
      forall k | 0 <= k < |[m] + rest| ensures ([m] + rest)[k].apply(longer[k]) == Applied(longer[k + 1], false) {
        assert k > 0 ==> ([m] + rest)[k] == rest[k - 1];
      }
      assert Leads([m] + rest, longer);
    }
    if trace :| Leads([m] + rest, trace) && trace[0] == from && trace[|rest| + 1] == to {
      assert ([m] + rest)[0] == m && trace[1] == next;
      forall k | 0 <= k < |rest| ensures rest[k].apply(trace[1..][k]) == Applied(trace[1..][k + 1], false) {
        assert ([m] + rest)[k + 1] == rest[k];
      }
      assert Leads(rest, trace[1..]);
    }
  }

  /** An upgrade is the pending migrations applied in order, none of them failing, and there is one exactly if
      they can be. */
  lemma {:induction false} UpgradeLeads<C(!new)>(chain: seq<Migration<C>>, current: nat, db: Db<C>, to: C)
    ensures (Upgrade(chain, current, db).Some? && Upgrade(chain, current, db).value.data == to) <==>
            LeadsTo(Pending(chain, current), db.data, to)
    ensures Upgrade(chain, current, db).Some? ==>
              Upgrade(chain, current, db).value.version == VersionBehind(Pending(chain, current), db.version)
  {
    if chain == [] {
      assert Leads([], [db.data]);
    } else if chain[0].version <= current {
      UpgradeLeads(chain[1..], current, db, to);
    } else {
      var step, rest := chain[0].apply(db.data), Pending(chain[1..], current);
      assert Pending(chain, current) == [chain[0]] + rest;
      if step.failed {
        forall trace | Leads([chain[0]] + rest, trace) && trace[0] == db.data ensures false {
          assert ([chain[0]] + rest)[0].apply(trace[0]) == Applied(trace[1], false);
        }
      } else {
        UpgradeLeads(chain[1..], current, Db(step.data, chain[0].version), to);
        LeadsPrepend(chain[0], rest, db.data, to);
      }
    }
  }

  // ---------------------------------------------------------------- the runner

  /** A SQLite connection: the committed state, the state it sees, and what is open on it. */
  class Connection<C> {
    var durable: Db<C>
    var db: Db<C>
    var inTransaction: bool
    var savepoint: Option<Db<C>>

    ghost predicate Valid() reads this { !inTransaction ==> db == durable }

    constructor (db: Db<C>)
      ensures Valid() && this.db == db && !inTransaction && savepoint.None?
    {
      this.durable, this.db, this.inTransaction, this.savepoint := db, db, false, None;
    }

    method Rollback()
      modifies this
      ensures Valid() && !inTransaction && savepoint.None? && db == durable && durable == old(durable)
    {
      db, inTransaction, savepoint := durable, false, None;
    }

    method CommitAll()
      modifies this
      ensures Valid() && !inTransaction && savepoint.None? && db == old(db) && durable == old(db)
    {
      durable, inTransaction, savepoint := db, false, None;
    }
  }

  /** Whether no command of the run raises: the loop stops at the first migration that fails. */
  ghost predicate Undisturbed<C>(chain: seq<Migration<C>>, current: nat, own: bool, raises: Command -> bool) {
    && (own ==> !raises(BeginImmediate) && !raises(Commit))
    && !raises(ReadVersion) && !raises(Savepoint) && !raises(Release)
    && forall i :: 0 <= i < |chain| && chain[i].version > current ==> !raises(SetVersion(chain[i].version))
  }

  /** All or nothing: on success exactly the pending migrations are in, on any failure nothing is; the runner
      closes a transaction it opened and leaves a caller's transaction open and uncommitted. */
  method RunMigrations<C(!new)>(conn: Connection<C>, chain: seq<Migration<C>>, raises: Command -> bool)
    returns (ok: bool)
    requires conn.Valid() && conn.savepoint.None?
    modifies conn
    ensures conn.Valid() && conn.savepoint.None? && conn.inTransaction == old(conn.inTransaction)
    ensures !ok ==> conn.db == old(conn.db) && conn.durable == old(conn.durable)
    ensures ok ==> Some(conn.db) == Upgrade(chain, old(conn.db).version, old(conn.db))
    ensures ok ==> conn.durable == if old(conn.inTransaction) then old(conn.durable) else conn.db
    ensures ok <==> Undisturbed(chain, old(conn.db).version, !old(conn.inTransaction), raises)
                    && Upgrade(chain, old(conn.db).version, old(conn.db)).Some?
    ensures var pending := Pending(chain, old(conn.db).version);
            && (ok ==> LeadsTo(pending, old(conn.db).data, conn.db.data)
                       && conn.db.version == VersionBehind(pending, old(conn.db).version))
            && (ok <==> Undisturbed(chain, old(conn.db).version, !old(conn.inTransaction), raises)
                        && exists to :: LeadsTo(pending, old(conn.db).data, to))
  {
    ghost var first := conn.db;
    RunOutcome(chain, first);
    var ownTx := !conn.inTransaction;
    if ownTx {
      if raises(BeginImmediate) {
        return false;
      }
      conn.inTransaction := true;
    }
    var failed := raises(ReadVersion);
    if !failed {
      var current := conn.db.version;
      failed := raises(Savepoint);
      if !failed {
        conn.savepoint := Some(conn.db);
        var i := 0;
        while i < |chain| && !failed
          invariant i <= |chain|
          invariant conn.inTransaction && conn.durable == old(conn.durable) && conn.savepoint == Some(old(conn.db))
          invariant !failed ==> Upgrade(chain[..i], current, old(conn.db)) == Some(conn.db)
          invariant !failed ==>
                      forall k :: 0 <= k < i && chain[k].version > current ==> !raises(SetVersion(chain[k].version))
          invariant failed ==>
                      || Upgrade(chain, current, old(conn.db)).None?
                      || exists k :: 0 <= k < |chain| && chain[k].version > current
                                     && raises(SetVersion(chain[k].version))
        {
          if chain[i].version > current {
            var step := chain[i].apply(conn.db.data);
            ghost var before := conn.db;
            conn.db := conn.db.(data := step.data);
            if step.failed {
              failed := true;
              UpgradeFails(chain, current, old(conn.db), i, before);
            } else if raises(SetVersion(chain[i].version)) {
              failed := true;
            } else {
              conn.db := conn.db.(version := chain[i].version);
            }
          }
          UpgradeSnoc(chain, current, old(conn.db), i);
          i := i + 1;
        }
        assert chain[..|chain|] == chain;
        if !failed {
          failed := raises(Release);
          if !failed {
            conn.savepoint := None;
          }
        }
      }
    }
    if failed {
      if conn.savepoint.Some? {
        conn.db := conn.savepoint.value;
        conn.savepoint := None;
      }
      if ownTx {
        conn.Rollback();
      }
      return false;
    }
    if ownTx {
      if raises(Commit) {
        conn.Rollback();
        return false;
      }
      conn.CommitAll();
    }
    return true;
  }

  /** Success and outcome of an upgrade in terms of the pending migrations. */
  lemma RunOutcome<C(!new)>(chain: seq<Migration<C>>, first: Db<C>)
    ensures var upgraded, pending := Upgrade(chain, first.version, first), Pending(chain, first.version);
            && (upgraded.Some? <==> exists to :: LeadsTo(pending, first.data, to))
            && (upgraded.Some? ==> LeadsTo(pending, first.data, upgraded.value.data)
                                   && upgraded.value.version == VersionBehind(pending, first.version))
  {
    var upgraded, pending := Upgrade(chain, first.version, first), Pending(chain, first.version);
    if upgraded.Some? {
      UpgradeLeads(chain, first.version, first, upgraded.value.data);
    }
    if to :| LeadsTo(pending, first.data, to) {
      UpgradeLeads(chain, first.version, first, to);
    }
  }

  lemma {:induction false} UpgradeFails<C>(chain: seq<Migration<C>>, current: nat, db: Db<C>, k: nat, w: Db<C>)
    requires k < |chain| && Upgrade(chain[..k], current, db) == Some(w)
    requires chain[k].version > current && chain[k].apply(w.data).failed
    ensures Upgrade(chain, current, db).None?
  {
    if k == 0 {
      assert chain[..0] == [];
    } else {
      assert chain[..k][1..] == chain[1..][..k - 1];
      var next := if chain[0].version <= current then db else Db(chain[0].apply(db.data).data, chain[0].version);
      UpgradeFails(chain[1..], current, next, k - 1, w);
    }
  }

  // ---------------------------------------------------------------- competing processes

  /** How far a process is: not migrating, holding the write lock, or inside the chain at position next. */
  datatype Phase<C> = Idle | Locked | Running(current: nat, next: nat, working: Db<C>)

  /** The database file, its write lock, and every process that may open it. */
  datatype System<C> = System(durable: Db<C>, lock: Option<nat>, phase: map<nat, Phase<C>>)

  /** One step of process p; Abort is any failure or crash, Begin fails when the lock is taken. */
  datatype Action = Begin(p: nat) | Read(p: nat) | Advance(p: nat) | Finish(p: nat) | Abort(p: nat)

  function PhaseOf<C>(s: System<C>, p: nat): Phase<C> { if p in s.phase then s.phase[p] else Idle }

  function Unlocked<C>(s: System<C>, p: nat): System<C> { s.(lock := None, phase := s.phase[p := Idle]) }

  function Next<C>(chain: seq<Migration<C>>, s: System<C>, a: Action): System<C> {
    var ph := PhaseOf(s, a.p);
    match a
    case Begin(p) => if s.lock.None? && ph.Idle? then s.(lock := Some(p), phase := s.phase[p := Locked]) else s
    case Read(p) => if ph.Locked? then s.(phase := s.phase[p := Running(s.durable.version, 0, s.durable)]) else s
    case Advance(p) =>
      if ph.Running? && ph.next < |chain| then
        match Upgrade([chain[ph.next]], ph.current, ph.working)
        case None => Unlocked(s, p)
        case Some(w) => s.(phase := s.phase[p := Running(ph.current, ph.next + 1, w)])
      else s
    case Finish(p) =>
      if ph.Running? && ph.next == |chain| then Unlocked(s.(durable := ph.working), p) else s
    case Abort(p) => if ph.Idle? then s else Unlocked(s, p)
  }

  function Run<C>(chain: seq<Migration<C>>, s: System<C>, actions: seq<Action>): System<C>
    decreases |actions|
  {
    if actions == [] then s else Run(chain, Next(chain, s, actions[0]), actions[1..])
  }

  /** The file holds either what was there at first or exactly one whole upgrade of it; only the lock holder
      is inside the chain, and it works on an upgrade of the committed state. */
  ghost predicate Consistent<C>(chain: seq<Migration<C>>, first: Db<C>, s: System<C>) {
    && (s.durable == first || Some(s.durable) == Upgrade(chain, first.version, first))
    && (forall p :: p in s.phase && !s.phase[p].Idle? ==> s.lock == Some(p))
    && (forall p :: p in s.phase && s.phase[p].Running? ==>
          && s.phase[p].next <= |chain|
          && s.phase[p].current == s.durable.version
          && Upgrade(chain[..s.phase[p].next], s.durable.version, s.durable) == Some(s.phase[p].working))
  }

  lemma NextConsistent<C>(chain: seq<Migration<C>>, first: Db<C>, s: System<C>, a: Action)
    requires Ascending(chain) && Consistent(chain, first, s)
    ensures Consistent(chain, first, Next(chain, s, a))
  {
    var ph := PhaseOf(s, a.p);
    assert chain[..0] == [] && chain[..|chain|] == chain;
    if a.Advance? && ph.Running? && ph.next < |chain| {
      UpgradeSnoc(chain, ph.current, s.durable, ph.next);
    }
    if a.Finish? && ph.Running? && ph.next == |chain| && s.durable != first {
      UpgradeTwice(chain, first);
    }
  }

  /** The process has been through the whole chain and commits. */
  predicate Commits<C>(chain: seq<Migration<C>>, s: System<C>, a: Action) {
    a.Finish? && PhaseOf(s, a.p).Running? && PhaseOf(s, a.p).next == |chain|
  }

  /** Some process gets through in this run. */
  predicate SomeoneCommits<C>(chain: seq<Migration<C>>, s: System<C>, actions: seq<Action>)
    decreases |actions|
  {
    actions != [] && (Commits(chain, s, actions[0]) || SomeoneCommits(chain, Next(chain, s, actions[0]), actions[1..]))
  }

  /** The first process to get through puts the whole upgrade in, and any later one leaves it as it is. */
  lemma CommitPutsUpgradeIn<C(!new)>(chain: seq<Migration<C>>, first: Db<C>, s: System<C>, a: Action)
    requires Ascending(chain) && Consistent(chain, first, s) && Commits(chain, s, a)
    ensures Some(Next(chain, s, a).durable) == Upgrade(chain, first.version, first)
    ensures var pending, after := Pending(chain, first.version), Next(chain, s, a).durable;
            LeadsTo(pending, first.data, after.data) && after.version == VersionBehind(pending, first.version)
  {
    RunOutcome(chain, first);
    assert chain[..|chain|] == chain;
    if s.durable != first {
      UpgradeTwice(chain, first);
    }
  }

  /** Nothing but a commit changes the file. */
  lemma OnlyCommitsWrite<C>(chain: seq<Migration<C>>, s: System<C>, a: Action)
    requires !Commits(chain, s, a)
    ensures Next(chain, s, a).durable == s.durable
  {
  }

  /** Once in, the upgrade stays in whatever happens. */
  lemma {:induction false} UpgradeStays<C(!new)>(chain: seq<Migration<C>>, first: Db<C>, s: System<C>,
                                                 actions: seq<Action>)
    requires Ascending(chain) && Consistent(chain, first, s)
    requires Some(s.durable) == Upgrade(chain, first.version, first)
    ensures Some(Run(chain, s, actions).durable) == Upgrade(chain, first.version, first)
    decreases |actions|
  {
    if actions != [] {
      var next := Next(chain, s, actions[0]);
      NextConsistent(chain, first, s, actions[0]);
      if Commits(chain, s, actions[0]) {
        CommitPutsUpgradeIn(chain, first, s, actions[0]);
      } else {
        OnlyCommitsWrite(chain, s, actions[0]);
      }
      UpgradeStays(chain, first, next, actions[1..]);
    }
  }

  /** Over any interleaving of any number of processes, with failures anywhere: if some process gets through,
      the file holds exactly one whole upgrade of what was there at first, each pending migration applied once
      and in order; if none does, it holds what was there at first. */
  lemma {:induction false} MigrationsTakeEffectOnce<C(!new)>(chain: seq<Migration<C>>, first: Db<C>, s: System<C>,
                                                       actions: seq<Action>)
    requires Ascending(chain) && Consistent(chain, first, s) && s.durable == first
    ensures var end := Run(chain, s, actions).durable;
            if SomeoneCommits(chain, s, actions) then Some(end) == Upgrade(chain, first.version, first)
            else end == first
    ensures var end, pending := Run(chain, s, actions).durable, Pending(chain, first.version);
            SomeoneCommits(chain, s, actions) ==>
              LeadsTo(pending, first.data, end.data) && end.version == VersionBehind(pending, first.version)
    decreases |actions|
  {
    RunOutcome(chain, first);
    if actions != [] {
      var next := Next(chain, s, actions[0]);
      NextConsistent(chain, first, s, actions[0]);
      if Commits(chain, s, actions[0]) {
        CommitPutsUpgradeIn(chain, first, s, actions[0]);
        UpgradeStays(chain, first, next, actions[1..]);
      } else {
        OnlyCommitsWrite(chain, s, actions[0]);
        MigrationsTakeEffectOnce(chain, first, next, actions[1..]);
      }
    }
  }

  /** A process that is alone can always get through: begin, read, one step per migration, finish. */
  function Alone(p: nat, steps: nat): seq<Action> {
    [Begin(p), Read(p)] + Advances(p, steps) + [Finish(p)]
  }

  function Advances(p: nat, steps: nat): (r: seq<Action>)
    ensures |r| == steps && forall i :: 0 <= i < steps ==> r[i] == Advance(p)
  {
    seq(steps, i => Advance(p))
  }

  lemma {:induction false} AdvancesReachTheEnd<C>(chain: seq<Migration<C>>, first: Db<C>, s: System<C>, p: nat,
                                                  left: nat)
    requires Ascending(chain) && Consistent(chain, first, s) && s.durable == first
    requires PhaseOf(s, p).Running? && PhaseOf(s, p).next + left == |chain|
    requires Upgrade(chain, first.version, first).Some?
    ensures SomeoneCommits(chain, s, Advances(p, left) + [Finish(p)])
    decreases left
  {
    var actions := Advances(p, left) + [Finish(p)];
    if left > 0 {
      var ph := PhaseOf(s, p);
      UpgradePrefix(chain, first, ph.next + 1);
      UpgradeSnoc(chain, first.version, first, ph.next);
      NextConsistent(chain, first, s, Advance(p));
      AdvancesReachTheEnd(chain, first, Next(chain, s, Advance(p)), p, left - 1);
      assert actions[0] == Advance(p) && actions[1..] == Advances(p, left - 1) + [Finish(p)];
    } else {
      assert actions == [Finish(p)];
    }
  }

  /** An upgrade that goes through goes through on every prefix of the chain. */
  lemma {:induction false} UpgradePrefix<C>(chain: seq<Migration<C>>, db: Db<C>, k: nat)
    requires k <= |chain| && Upgrade(chain, db.version, db).Some?
    ensures Upgrade(chain[..k], db.version, db).Some?
    decreases |chain| - k
  {
    if k < |chain| {
      UpgradePrefix(chain, db, k + 1);
      UpgradeSnoc(chain, db.version, db, k);
    } else {
      assert chain[..k] == chain;
    }
  }

  /** So the promise is not empty: if the pending migrations succeed, an idle process that finds the lock free and
      is left alone puts the upgrade in. */
  lemma LoneProcessUpgrades<C(!new)>(chain: seq<Migration<C>>, first: Db<C>, s: System<C>, p: nat)
    requires Ascending(chain) && Consistent(chain, first, s) && s.durable == first
    requires s.lock.None? && PhaseOf(s, p).Idle? && exists to :: LeadsTo(Pending(chain, first.version), first.data, to)
    ensures Some(Run(chain, s, Alone(p, |chain|)).durable) == Upgrade(chain, first.version, first)
    ensures LeadsTo(Pending(chain, first.version), first.data, Run(chain, s, Alone(p, |chain|)).durable.data)
  {
    RunOutcome(chain, first);
    var begun := Next(chain, s, Begin(p));
    var reading := Next(chain, begun, Read(p));
    NextConsistent(chain, first, s, Begin(p));
    NextConsistent(chain, first, begun, Read(p));
    AdvancesReachTheEnd(chain, first, reading, p, |chain|);
    var actions := Alone(p, |chain|);
    assert actions[0] == Begin(p) && actions[1..][0] == Read(p);
    assert actions[1..][1..] == Advances(p, |chain|) + [Finish(p)];
    assert SomeoneCommits(chain, begun, actions[1..]);
    MigrationsTakeEffectOnce(chain, first, s, actions);
  }
}

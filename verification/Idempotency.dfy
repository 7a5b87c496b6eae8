/** The write idempotency ledger: claim, complete, clear and replay, with completed rows pruned after a week. */
module Idempotency {
  import opened Wrappers

  /** Primary key of the ledger; name is what the caller sent, "" means that no idempotency was asked for. */
  datatype Key = Key(endpoint: string, actor: string, name: string)

  type Response = map<string, string>

  datatype Status = Processing | Completed

  datatype Row = Row(hash: string, status: Status, response: Response, updatedAt: int)

  type Rows = map<Key, Row>

  datatype Conflict = KeyReused | StillProcessing

  /** What a request is told: do the work, here is the earlier response, or a conflict. */
  datatype Answer = Run | Replay(response: Response) | Refuse(conflict: Conflict)

  // Seconds in seven days.
  const RETENTION := 604_800
  const PRUNE_EVERY := 128

  function Lookup(rows: Rows, k: Key, hash: string): Answer {
    if k.name == "" || k !in rows then Run
    else if rows[k].hash != hash then Refuse(KeyReused)
    else if rows[k].status != Completed then Refuse(StillProcessing)
    else Replay(rows[k].response["idempotent" := "true"])
  }

  function Claimed(rows: Rows, k: Key, hash: string, now: int): Rows {
    if k.name == "" || k in rows then rows else rows[k := Row(hash, Processing, map[], now)]
  }

  function Pruned(rows: Rows, now: int): Rows {
    map k | k in rows && !(rows[k].status == Completed && rows[k].updatedAt < now - RETENTION) :: rows[k]
  }

  function Updated(rows: Rows, k: Key, hash: string, response: Response, now: int): Rows {
    if k in rows && rows[k].hash == hash then rows[k := Row(hash, Completed, response, now)] else rows
  }

  /** prune says whether this completion is one of those that prune first. */
  function Complete(rows: Rows, k: Key, hash: string, response: Response, now: int, prune: bool): Rows {
    if k.name == "" then rows else Updated(if prune then Pruned(rows, now) else rows, k, hash, response, now)
  }

  function Cleared(rows: Rows, k: Key, hash: string): Rows {
    if k.name != "" && k in rows && rows[k].hash == hash && rows[k].status == Processing then rows - {k} else rows
  }

  class WriteLedger {
    var rows: Rows
    var completions: nat

    constructor ()
      ensures rows == map[] && completions == 0
    {
      rows, completions := map[], 0;
    }

    /** None lets the caller go on to claim the key. */
    method ReplayOrNone(k: Key, hash: string) returns (result: Result<Option<Response>, Conflict>)
      ensures result == match Lookup(rows, k, hash)
                        case Run => Ok(None)
                        case Replay(response) => Ok(Some(response))
                        case Refuse(conflict) => Err(conflict)
      ensures result == if k.name == "" || k !in rows then Ok(None)
                        else if rows[k].hash != hash then Err(KeyReused)
                        else if rows[k].status == Processing then Err(StillProcessing)
                        else Ok(Some(rows[k].response["idempotent" := "true"]))
    {
      if k.name == "" || k !in rows {
        return Ok(None);
      }
      if rows[k].hash != hash {
        return Err(KeyReused);
      }
      if rows[k].status != Completed {
        return Err(StillProcessing);
      }
      return Ok(Some(rows[k].response["idempotent" := "true"]));
    }

    /** Insert, and fall back to replay when the primary key is taken. */
    method Claim(k: Key, hash: string, now: int) returns (result: Result<Option<Response>, Conflict>)
      modifies this`rows
      ensures rows == Claimed(old(rows), k, hash, now)
      ensures result == match Lookup(old(rows), k, hash)
                        case Run => Ok(None)
                        case Replay(response) => Ok(Some(response))
                        case Refuse(conflict) => Err(conflict)
      ensures k.name != "" && k !in old(rows) ==>
                result == Ok(None) && rows == old(rows)[k := Row(hash, Processing, map[], now)]
      ensures k.name == "" || k in old(rows) ==> rows == old(rows)
    {
      if k.name == "" {
        return Ok(None);
      }
      if k in rows {
        result := ReplayOrNone(k, hash);
        return;
      }
      rows := rows[k := Row(hash, Processing, map[], now)];
      return Ok(None);
    }

    /** A pruning statement that fails is ignored. */
    method MarkCompleted(k: Key, hash: string, response: Response, now: int, pruneFails: bool)
      modifies this
      ensures completions == if k.name == "" then old(completions) else old(completions) + 1
      ensures rows == Complete(old(rows), k, hash, response, now, completions % PRUNE_EVERY == 0 && !pruneFails)
      ensures forall key :: key in rows ==>
                && key in old(rows)
                && rows[key] == if k.name != "" && key == k && old(rows)[k].hash == hash
                                then Row(hash, Completed, response, now) else old(rows)[key]
      ensures forall key :: key in old(rows) ==>
                var row := old(rows)[key];
                key !in rows <==> && k.name != "" && completions % 128 == 0 && !pruneFails
                                  && row.status == Completed && row.updatedAt < now - 7 * 86_400
    {
      if k.name == "" {
        return;
      }
      completions := completions + 1;
      if completions % PRUNE_EVERY == 0 {
        if !pruneFails {
          rows := Pruned(rows, now);
        }
      }
      if k in rows && rows[k].hash == hash {
        rows := rows[k := rows[k].(status := Completed, response := response, updatedAt := now)];
      }
    }

    method ClearClaim(k: Key, hash: string)
      modifies this`rows
      ensures rows == Cleared(old(rows), k, hash)
      ensures forall key :: key in rows ==> key in old(rows) && rows[key] == old(rows)[key]
      ensures forall key :: key in old(rows) ==>
                (key !in rows <==> && k.name != "" && key == k && old(rows)[k].hash == hash
                                   && old(rows)[k].status == Processing)
    {
      if k.name == "" {
        return;
      }
      if k in rows && rows[k].hash == hash && rows[k].status == Processing {
        rows := rows - {k};
      }
    }
  }

  // ---------------------------------------------------------------- any interleaving of ledger calls

  /** Ledger calls, each committed by itself. */
  datatype Call =
    | Ask(k: Key, hash: string, now: int)
    | Finish(k: Key, hash: string, response: Response, now: int, prune: bool)
    | Clear(k: Key, hash: string)

  function Step(rows: Rows, c: Call): Rows {
    match c
    case Ask(k, hash, now) => Claimed(rows, k, hash, now)
    case Finish(k, hash, response, now, prune) => Complete(rows, k, hash, response, now, prune)
    case Clear(k, hash) => Cleared(rows, k, hash)
  }

  /** The rows before position n of a run. */
  function At(rows: Rows, run: seq<Call>, n: nat): Rows
    requires n <= |run|
  {
    if n == 0 then rows else Step(At(rows, run, n - 1), run[n - 1])
  }

  predicate ToldToRun(rows: Rows, run: seq<Call>, n: nat, k: Key)
    requires n < |run|
  {
    run[n].Ask? && run[n].k == k && Lookup(At(rows, run, n), k, run[n].hash) == Run
  }

  /** Position n clears the claim of k, or prunes its completed row. */
  predicate Removes(rows: Rows, run: seq<Call>, n: nat, k: Key)
    requires n < |run|
  {
    k in At(rows, run, n) && k !in At(rows, run, n + 1)
  }

  function Runs(rows: Rows, run: seq<Call>, n: nat, k: Key): nat
    requires n <= |run|
  {
    if n == 0 then 0 else Runs(rows, run, n - 1, k) + if ToldToRun(rows, run, n - 1, k) then 1 else 0
  }

  function Removals(rows: Rows, run: seq<Call>, n: nat, k: Key): nat
    requires n <= |run|
  {
    if n == 0 then 0 else Removals(rows, run, n - 1, k) + if Removes(rows, run, n - 1, k) then 1 else 0
  }

  function Held(rows: Rows, k: Key): nat { if k in rows then 1 else 0 }

  /** However calls interleave, the answers "run" for a key and the removals of its row balance exactly. */
  lemma {:induction false} RunsBalanceRemovals(rows: Rows, run: seq<Call>, n: nat, k: Key)
    requires n <= |run| && k.name != ""
    ensures Held(rows, k) + Runs(rows, run, n, k) == Removals(rows, run, n, k) + Held(At(rows, run, n), k)
  {
    if n > 0 {
      RunsBalanceRemovals(rows, run, n - 1, k);
    }
  }

  lemma {:induction false} HeldUntilRemoved(rows: Rows, run: seq<Call>, i: nat, j: nat, k: Key)
    requires i <= j <= |run| && k in At(rows, run, i)
    requires forall m :: i <= m < j ==> !Removes(rows, run, m, k)
    ensures k in At(rows, run, j)
    decreases j - i
  {
    if i < j {
      assert !Removes(rows, run, i, k);
      HeldUntilRemoved(rows, run, i + 1, j, k);
    }
  }

  /** Two answers "run" for a key are separated by a removal of its row. */
  lemma NoSecondRunWithoutRemoval(rows: Rows, run: seq<Call>, i: nat, j: nat, k: Key)
    requires i < j < |run| && k.name != "" && ToldToRun(rows, run, i, k) && ToldToRun(rows, run, j, k)
    ensures exists m :: i < m < j && Removes(rows, run, m, k)
  {
    if forall m :: i < m < j ==> !Removes(rows, run, m, k) {
      HeldUntilRemoved(rows, run, i + 1, j, k);
    }
  }

  /** The only calls that remove a row: the clear of a row still processing, by its own request hash, and the
      pruning of a row completed more than a week ago. */
  lemma RemovalIsClearOrPruning(rows: Rows, run: seq<Call>, n: nat, k: Key)
    requires n < |run| && Removes(rows, run, n, k)
    ensures var row := At(rows, run, n)[k];
            match run[n]
            case Ask(_, _, _) => false
            case Clear(k', hash) => k' == k && row.status == Processing && row.hash == hash
            case Finish(_, _, _, now, prune) => prune && row.status == Completed && row.updatedAt < now - RETENTION
  {
  }

  predicate Completes(run: seq<Call>, n: nat, k: Key, hash: string)
    requires n < |run|
  {
    run[n].Finish? && run[n].k == k && run[n].hash == hash
  }

  /** A completed row stays as it is until it is removed or completed again. */
  lemma {:induction false} CompletedRowStays(rows: Rows, run: seq<Call>, c: nat, n: nat, k: Key, row: Row)
    requires c <= n <= |run| && k in At(rows, run, c) && At(rows, run, c)[k] == row && row.status == Completed
    requires forall m :: c <= m < n ==> !Removes(rows, run, m, k) && !Completes(run, m, k, row.hash)
    ensures k in At(rows, run, n) && At(rows, run, n)[k] == row
    decreases n - c
  {
    if c < n {
      assert !Removes(rows, run, c, k) && !Completes(run, c, k, row.hash);
      CompletedRowStays(rows, run, c + 1, n, k, row);
    }
  }

  /** Once the claim is completed, and until removed or completed again, a key replays exactly the stored response
      to the same request and conflicts for any other. */
  lemma CompletedKeyReplays(rows: Rows, run: seq<Call>, c: nat, n: nat, k: Key, hash: string)
    requires c < n < |run| && k.name != "" && Completes(run, c, k, run[c].hash)
    requires k in At(rows, run, c) && At(rows, run, c)[k].hash == run[c].hash
    requires At(rows, run, c)[k].status == Processing
    requires forall m :: c < m < n ==> !Removes(rows, run, m, k) && !Completes(run, m, k, run[c].hash)
    ensures Lookup(At(rows, run, n), k, hash) ==
            if hash == run[c].hash then Replay(run[c].response["idempotent" := "true"]) else Refuse(KeyReused)
  {
    CompletedRowStays(rows, run, c + 1, n, k, At(rows, run, c + 1)[k]);
  }

  // ---------------------------------------------------------------- the handlers

  const VERIFY := "/v1/agent-catalog/agents/{id}/verify"
  const CLAIM := "/v1/agent-catalog/agents/{id}/claim"
  const REFRESH := "/v1/agent-catalog/agents/{id}/refresh"

  /** The endpoints that may commit their claim before they do their work, to fetch without the write lock. */
  predicate CommitsEarly(k: Key) { k.endpoint == VERIFY || k.endpoint == CLAIM }

  /** The only endpoint that may complete a key a second time, with what came of its enqueuing. */
  predicate ComesBack(k: Key) { k.endpoint == REFRESH }

  lemma EarlyNeverComesBack(k: Key)
    ensures !(CommitsEarly(k) && ComesBack(k))
  {
    assert |VERIFY| != |REFRESH| && |CLAIM| != |REFRESH|;
  }

  /** What a process works on, and whether its claim has been committed by itself. */
  datatype Work = Work(k: Key, hash: string, committed: bool)

  /** The write transaction that holds the lock: whose it is, and the ledger as it sees it. */
  datatype Open = Open(p: nat, rows: Rows)

  /** The committed ledger, the open write transaction, what each process works on, and what it may come back to. */
  datatype System = System(rows: Rows, open: Option<Open>, working: map<nat, Work>, late: map<nat, Work>)

  const IDLE := System(map[], None, map[], map[])

  /** One step of process p. Enter takes the write lock and asks the ledger; Commit commits the claim and gives the
      lock back; Succeed completes the key and commits; ComeBack completes it again in a transaction of its own.
      Fail is a crash or an exception: an exception clears the claim first, but a session that does not end
      normally is rolled back, clear and all. */
  datatype Move =
    | Enter(p: nat, k: Key, hash: string, now: int)
    | Commit(p: nat)
    | Succeed(p: nat, response: Response, now: int, prune: bool, again: bool)
    | ComeBack(p: nat, response: Response, now: int, prune: bool)
    | Fail(p: nat)

  predicate HoldsLock(s: System, p: nat) { s.open.Some? && s.open.value.p == p }

  /** A move that cannot be made, because another process has the lock, leaves everything as it is. */
  predicate Enabled(s: System, m: Move) {
    match m
    case Enter(p, k, hash, _) => s.open.None? && p !in s.working && p !in s.late && Lookup(s.rows, k, hash) == Run
    case Commit(p) => HoldsLock(s, p) && p in s.working && CommitsEarly(s.working[p].k)
    case Succeed(p, _, _, _, _) => p in s.working && if s.working[p].committed then s.open.None? else HoldsLock(s, p)
    case ComeBack(p, _, _, _) => p in s.late && s.open.None?
    case Fail(_) => true
  }

  function Next(s: System, m: Move): System {
    if !Enabled(s, m) then s
    else
      match m
      case Enter(p, k, hash, now) =>
        s.(open := Some(Open(p, Claimed(s.rows, k, hash, now))), working := s.working[p := Work(k, hash, false)])
      case Commit(p) =>
        s.(rows := s.open.value.rows, open := None, working := s.working[p := s.working[p].(committed := true)])
      case Succeed(p, response, now, prune, again) =>
        var work := s.working[p];
        System(Complete(if work.committed then s.rows else s.open.value.rows, work.k, work.hash, response, now, prune),
               None, s.working - {p}, if again && ComesBack(work.k) then s.late[p := work] else s.late)
      case ComeBack(p, response, now, prune) =>
        s.(rows := Complete(s.rows, s.late[p].k, s.late[p].hash, response, now, prune), late := s.late - {p})
      case Fail(p) =>
        System(s.rows, if HoldsLock(s, p) then None else s.open, s.working - {p}, s.late - {p})
  }

  function Execute(s: System, moves: seq<Move>): System
    decreases |moves|
  {
    if moves == [] then s else Execute(Next(s, moves[0]), moves[1..])
  }

  predicate Holds(rows: Rows, work: Work) {
    work.k in rows && rows[work.k].hash == work.hash && rows[work.k].status == Processing
  }

  predicate Strands(rows: Rows, k: Key) { k in rows && rows[k].status == Processing }

  /** The open transaction is that of the one process whose claim is not committed, and has added just its claim. */
  ghost predicate OneOpen(s: System) {
    && (forall p :: p in s.working && !s.working[p].committed ==> HoldsLock(s, p))
    && (s.open.Some? ==>
          && s.open.value.p in s.working && !s.working[s.open.value.p].committed
          && var work := s.working[s.open.value.p];
             if work.k.name == "" then s.open.value.rows == s.rows
             else work.k !in s.rows && Holds(s.open.value.rows, work) && s.open.value.rows - {work.k} == s.rows)
  }

  /** Whoever works behind a committed claim has its row, still processing. */
  ghost predicate ClaimsHeld(s: System) {
    forall p :: p in s.working && s.working[p].committed ==>
      && CommitsEarly(s.working[p].k)
      && (s.working[p].k.name != "" ==> Holds(s.rows, s.working[p]))
  }

  /** No two committed claims are for one key. */
  ghost predicate ClaimsApart(s: System) {
    forall p, q :: && p in s.working && q in s.working && p != q
                   && s.working[p].committed && s.working[q].committed && s.working[p].k.name != "" ==>
      s.working[p].k != s.working[q].k
  }

  /** No committed row of an endpoint that claims and completes in one transaction is ever seen processing, and
      nobody comes back to any other. */
  ghost predicate ApartFromLate(s: System) {
    && (forall k :: Strands(s.rows, k) ==> CommitsEarly(k))
    && (forall p :: p in s.late ==> ComesBack(s.late[p].k))
  }

  ghost predicate Inv(s: System) { OneOpen(s) && ClaimsHeld(s) && ClaimsApart(s) && ApartFromLate(s) }

  lemma NextOneOpen(s: System, m: Move)
    requires Inv(s)
    ensures OneOpen(Next(s, m))
  {
  }

  lemma NextClaimsHeld(s: System, m: Move)
    requires Inv(s)
    ensures ClaimsHeld(Next(s, m))
  {
  }

  lemma NextClaimsApart(s: System, m: Move)
    requires Inv(s)
    ensures ClaimsApart(Next(s, m))
  {
  }

  lemma NextApartFromLate(s: System, m: Move)
    requires Inv(s)
    ensures ApartFromLate(Next(s, m))
  {
  }

  lemma NextKeepsInv(s: System, m: Move)
    requires Inv(s)
    ensures Inv(Next(s, m))
  {
    NextOneOpen(s, m);
    NextClaimsHeld(s, m);
    NextClaimsApart(s, m);
    NextApartFromLate(s, m);
  }

  lemma {:induction false} ExecuteKeepsInv(s: System, moves: seq<Move>)
    requires Inv(s)
    ensures Inv(Execute(s, moves))
    decreases |moves|
  {
    if moves != [] {
      NextKeepsInv(s, moves[0]);
      ExecuteKeepsInv(Next(s, moves[0]), moves[1..]);
    }
  }

  /** No two processes work on the same named key. */
  ghost predicate Exclusive(s: System) {
    forall p, q :: p in s.working && q in s.working && p != q && s.working[p].k == s.working[q].k ==>
      s.working[p].k.name == ""
  }

  /** Whatever the interleaving of transactions, the prunings, the second completions and the failures, no two
      processes ever run the same key at once. */
  lemma AlwaysExclusive(moves: seq<Move>)
    ensures Exclusive(Execute(IDLE, moves))
  {
    ExecuteKeepsInv(IDLE, moves);
  }

  // ---------------------------------------------------------------- how often a key takes effect

  function HeldDone(rows: Rows, k: Key): nat { if k in rows && rows[k].status == Completed then 1 else 0 }

  predicate CompletesKey(s: System, m: Move, k: Key) { m.Succeed? && Enabled(s, m) && s.working[m.p].k == k }

  predicate PrunesKey(s: System, m: Move, k: Key) { k in s.rows && k !in Next(s, m).rows }

  /** How often the work of a key is completed. */
  function Effects(s: System, moves: seq<Move>, k: Key): nat
    decreases |moves|
  {
    if moves == [] then 0
    else (if CompletesKey(s, moves[0], k) then 1 else 0) + Effects(Next(s, moves[0]), moves[1..], k)
  }

  function Prunings(s: System, moves: seq<Move>, k: Key): nat
    decreases |moves|
  {
    if moves == [] then 0
    else (if PrunesKey(s, moves[0], k) then 1 else 0) + Prunings(Next(s, moves[0]), moves[1..], k)
  }

  /** The open transaction shows every key but its own as it is committed. */
  lemma OpenShows(s: System, k: Key)
    requires OneOpen(s) && s.open.Some?
    requires s.working[s.open.value.p].k != k || k.name == ""
    ensures k in s.open.value.rows <==> k in s.rows
    ensures k in s.rows ==> s.open.value.rows[k] == s.rows[k]
  {
    var work, rows := s.working[s.open.value.p], s.open.value.rows;
    assert k in rows <==> k in rows - {work.k} || (work.k == k && k in rows);
  }

  lemma CompleteBalances(rows: Rows, work: Work, response: Response, now: int, prune: bool, k: Key)
    requires k.name != "" && (work.k == k ==> Holds(rows, work))
    ensures var after := Complete(rows, work.k, work.hash, response, now, prune);
            HeldDone(rows, k) + (if work.k == k then 1 else 0)
            == HeldDone(after, k) + (if k in rows && k !in after then 1 else 0)
  {
  }

  lemma StepBalances(s: System, m: Move, k: Key)
    requires Inv(s) && k.name != ""
    ensures HeldDone(s.rows, k) + (if CompletesKey(s, m, k) then 1 else 0)
         == HeldDone(Next(s, m).rows, k) + (if PrunesKey(s, m, k) then 1 else 0)
  {
    if Enabled(s, m) {
      match m
      case Commit(p) =>
        if s.working[p].k != k {
          OpenShows(s, k);
        }
      case Succeed(p, response, now, prune, _) =>
        var work := s.working[p];
        if !work.committed && work.k != k {
          OpenShows(s, k);
        }
        CompleteBalances(if work.committed then s.rows else s.open.value.rows, work, response, now, prune, k);
      case ComeBack(p, _, _, _) => EarlyNeverComesBack(s.late[p].k);
      case _ =>
    }
  }

  /** A row goes only when it was completed more than a week ago. */
  lemma OnlyOldRowsGo(s: System, m: Move, k: Key)
    requires Inv(s) && PrunesKey(s, m, k)
    ensures (m.Succeed? || m.ComeBack?) && m.prune
    ensures s.rows[k].status == Completed && s.rows[k].updatedAt < m.now - RETENTION
  {
  }

  lemma {:induction false} EffectsBalance(s: System, moves: seq<Move>, k: Key)
    requires Inv(s) && k.name != ""
    ensures HeldDone(s.rows, k) + Effects(s, moves, k)
         == HeldDone(Execute(s, moves).rows, k) + Prunings(s, moves, k)
    decreases |moves|
  {
    if moves != [] {
      StepBalances(s, moves[0], k);
      NextKeepsInv(s, moves[0]);
      EffectsBalance(Next(s, moves[0]), moves[1..], k);
    }
  }

  /** In every run a key takes effect once for every time its row was pruned, and once more exactly while its row
      is there, completed. */
  lemma EffectsBalancePrunings(moves: seq<Move>, k: Key)
    requires k.name != ""
    ensures Effects(IDLE, moves, k) == Prunings(IDLE, moves, k) + HeldDone(Execute(IDLE, moves).rows, k)
  {
    EffectsBalance(IDLE, moves, k);
  }

  /** The moves of a request that nothing disturbs; early says whether it commits its claim first. */
  function Undisturbed(p: nat, k: Key, hash: string, response: Response, now: int, prune: bool, early: bool)
    : seq<Move>
  {
    var end := [Succeed(p, response, now, prune, false)];
    [Enter(p, k, hash, now)] + if early && CommitsEarly(k) then [Commit(p)] + end else end
  }

  /** The ledger replays this response of a key to the same request, and conflicts for any other. */
  ghost predicate Replays(rows: Rows, k: Key, hash: string, response: Response) {
    forall h :: Lookup(rows, k, h) ==
                if h == hash then Replay(response["idempotent" := "true"]) else Refuse(KeyReused)
  }

  lemma SuccessReplays(s: System, p: nat, response: Response, now: int, prune: bool)
    requires Enabled(s, Succeed(p, response, now, prune, false)) && s.working[p].k.name != ""
    requires var work := s.working[p];
             Holds(if work.committed then s.rows else s.open.value.rows, work)
    ensures var end, work := Execute(s, [Succeed(p, response, now, prune, false)]), s.working[p];
            end.open.None? && p !in end.working && Replays(end.rows, work.k, work.hash, response)
  {
    var m := Succeed(p, response, now, prune, false);
    assert [m][1..] == [];
    assert Execute(s, [m]) == Next(s, m);
  }

  /** A request for a free key that nothing disturbs is run and completed, with or without an early commit; from
      then on its key replays the response to the same request and conflicts for any other. */
  lemma RequestTakesEffect(s: System, p: nat, k: Key, hash: string, response: Response, now: int, prune: bool,
                           early: bool)
    requires s.open.None? && p !in s.working && p !in s.late && k.name != "" && k !in s.rows
    ensures var end := Execute(s, Undisturbed(p, k, hash, response, now, prune, early));
            end.open.None? && p !in end.working && Replays(end.rows, k, hash, response)
  {
    var enter, succeed := Enter(p, k, hash, now), Succeed(p, response, now, prune, false);
    var entered := Next(s, enter);
    var moves := Undisturbed(p, k, hash, response, now, prune, early);
    assert moves[0] == enter;
    if early && CommitsEarly(k) {
      var committed := Next(entered, Commit(p));
      assert moves[1..] == [Commit(p)] + [succeed] && ([Commit(p)] + [succeed])[1..] == [succeed];
      SuccessReplays(committed, p, response, now, prune);
    } else {
      assert moves[1..] == [succeed];
      SuccessReplays(entered, p, response, now, prune);
    }
  }

  // ---------------------------------------------------------------- after a failure

  /** A committed claim that nobody works on and nobody will come back to. */
  ghost predicate Stranded(s: System, k: Key, hash: string) {
    && k.name != "" && k in s.rows && s.rows[k].status == Processing && s.rows[k].hash == hash
    && (forall p :: p in s.working ==> s.working[p].k != k)
    && (forall p :: p in s.late ==> s.late[p].k != k)
  }

  lemma NextStranded(s: System, m: Move, k: Key, hash: string)
    requires Inv(s) && Stranded(s, k, hash)
    ensures Stranded(Next(s, m), k, hash)
  {
  }

  /** A stranded key is never run again, by anyone: it refuses every request for good. */
  lemma {:induction false} StrandedKeyNeverRunsAgain(s: System, moves: seq<Move>, k: Key, hash: string)
    requires Inv(s) && Stranded(s, k, hash)
    ensures Stranded(Execute(s, moves), k, hash)
    ensures forall h :: Lookup(Execute(s, moves).rows, k, h) == Refuse(if h == hash then StillProcessing else KeyReused)
    decreases |moves|
  {
    if moves != [] {
      NextStranded(s, moves[0], k, hash);
      NextKeepsInv(s, moves[0]);
      StrandedKeyNeverRunsAgain(Next(s, moves[0]), moves[1..], k, hash);
    }
  }

  /** After these moves some process works on the key. */
  ghost predicate RunsAgain(s: System, moves: seq<Move>, k: Key) {
    exists p :: p in Execute(s, moves).working && Execute(s, moves).working[p].k == k
  }

  lemma EnterRuns(s: System, p: nat, k: Key, hash: string)
    requires Enabled(s, Enter(p, k, hash, 0))
    ensures RunsAgain(s, [Enter(p, k, hash, 0)], k)
  {
    var m := Enter(p, k, hash, 0);
    assert [m][1..] == [];
    assert Execute(s, [m]) == Next(s, m) && p in Next(s, m).working;
  }

  /** After an exception or a crash at any point of any run, the key can be run again if and only if its claim had
      not been committed by itself; then any request can have it at once. */
  lemma RetryIffNotCommitted(moves: seq<Move>, p: nat)
    requires p in Execute(IDLE, moves).working && Execute(IDLE, moves).working[p].k.name != ""
    ensures var s := Execute(IDLE, moves);
            var work, after := s.working[p], Next(s, Fail(p));
            && ((exists more :: RunsAgain(after, more, work.k)) <==> !work.committed)
            && (!work.committed ==> forall hash :: Enabled(after, Enter(p, work.k, hash, 0)))
  {
    ExecuteKeepsInv(IDLE, moves);
    var s := Execute(IDLE, moves);
    var work, after := s.working[p], Next(s, Fail(p));
    NextKeepsInv(s, Fail(p));
    if work.committed {
      assert Stranded(after, work.k, work.hash);
      forall more | RunsAgain(after, more, work.k) ensures false {
        StrandedKeyNeverRunsAgain(after, more, work.k, work.hash);
      }
    } else {
      EnterRuns(after, p, work.k, work.hash);
    }
  }
}

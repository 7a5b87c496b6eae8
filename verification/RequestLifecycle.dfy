/** The sockets of one request: registration, the deadline timer and the exit, interleaved at the lock. */
module RequestLifecycle {
  type Socket = nat

  /** The fields under the lock. */
  datatype Guarded = Guarded(sockets: seq<Socket>, closed: bool)

  /** The locked section of register: what it leaves, and whether the caller comes too late. */
  function Admit(g: Guarded, sock: Socket, late: bool): (Guarded, bool) {
    if g.closed || late then (g, true) else (g.(sockets := g.sockets + [sock]), false)
  }

  /** The locked section of expiry: what it leaves, and the sockets it takes away to abort. */
  function Seize(g: Guarded): (Guarded, seq<Socket>) { (Guarded([], true), g.sockets) }

  class Lifecycle {
    const deadline: int
    var sockets: seq<Socket>
    var closed: bool
    /** Every socket aborted so far. */
    var aborted: multiset<Socket>

    function Fields(): Guarded reads this { Guarded(sockets, closed) }

    constructor (deadline: int)
      ensures Fields() == Guarded([], false) && aborted == multiset{} && this.deadline == deadline
    {
      this.deadline, sockets, closed, aborted := deadline, [], false, multiset{};
    }

    method Abort(sock: Socket)
      modifies this`aborted
      ensures aborted == old(aborted) + multiset{sock}
    {
      aborted := aborted + multiset{sock};
    }

    /** False is the error raised after the latecomer has been aborted. */
    method Register(sock: Socket, clock: int) returns (ok: bool)
      modifies this
      ensures (Fields(), !ok) == Admit(old(Fields()), sock, clock >= deadline)
      ensures multiset(sockets) + aborted == multiset(old(sockets)) + old(aborted) + multiset{sock}
      ensures ok <==> !old(closed) && clock < deadline
      ensures closed == old(closed)
      ensures ok ==> sockets == old(sockets) + [sock] && aborted == old(aborted)
      ensures !ok ==> sockets == old(sockets) && aborted == old(aborted) + multiset{sock}
    {
      var late := closed || clock >= deadline;
      if !late {
        sockets := sockets + [sock];
      }
      if late {
        Abort(sock);
      }
      return !late;
    }

    method Expire()
      modifies this
      ensures Fields() == Seize(old(Fields())).0
      ensures closed && sockets == [] && aborted == old(aborted) + multiset(old(sockets))
    {
      closed := true;
      var taken := sockets;
      sockets := [];
      var i := 0;
      while i < |taken|
        invariant i <= |taken|
        invariant Fields() == Guarded([], true) && aborted == old(aborted) + multiset(taken[..i])
      {
        Abort(taken[i]);
        assert taken[..i + 1] == taken[..i] + [taken[i]];
        i := i + 1;
      }
      assert taken[..|taken|] == taken;
    }
  }

  // ---------------------------------------------------------------- interleavings

  /** Where the timer thread and the exiting thread are. */
  datatype Timer = Armed | Firing | Stopped

  datatype Exit = Inside | TimerCancelled | Joined | Expiring | Left

  /** owed holds, by thread, the sockets that it has taken under the lock but not aborted yet. */
  datatype Life = Life(g: Guarded, owed: map<nat, seq<Socket>>, timer: Timer, exit: Exit,
                       handed: multiset<Socket>, aborted: multiset<Socket>)

  const TIMER := 0
  const EXIT := 1
  const START := Life(Guarded([], false), map[], Armed, Inside, multiset{}, multiset{})

  /** Atomic steps. late says whether the clock of the registering thread t has reached the deadline. */
  datatype Action =
    | Register(t: nat, sock: Socket, late: bool)
    | AbortOne(t: nat)
    | Fire
    | TimerReturns
    | CancelTimer
    | Join
    | ExpireOnExit
    | Leave

  function Owed(s: Life, t: nat): seq<Socket> { if t in s.owed then s.owed[t] else [] }

  function Next(s: Life, a: Action): Life {
    match a
    case Register(t, sock, late) =>
      if t <= EXIT || Owed(s, t) != [] then s
      else
        var (g, tooLate) := Admit(s.g, sock, late);
        s.(g := g, handed := s.handed + multiset{sock}, owed := if tooLate then s.owed[t := [sock]] else s.owed)
    case AbortOne(t) =>
      if Owed(s, t) == [] then s
      else s.(owed := s.owed[t := s.owed[t][1..]], aborted := s.aborted + multiset{s.owed[t][0]})
    case Fire =>
      if s.timer.Armed? then s.(timer := Firing, g := Seize(s.g).0, owed := s.owed[TIMER := Seize(s.g).1]) else s
    case TimerReturns => if s.timer.Firing? && Owed(s, TIMER) == [] then s.(timer := Stopped) else s
    case CancelTimer =>
      if s.exit.Inside? then s.(exit := TimerCancelled, timer := if s.timer.Armed? then Stopped else s.timer) else s
    case Join => if s.exit.TimerCancelled? && s.timer.Stopped? then s.(exit := Joined) else s
    case ExpireOnExit =>
      if s.exit.Joined? then s.(exit := Expiring, g := Seize(s.g).0, owed := s.owed[EXIT := Seize(s.g).1]) else s
    case Leave => if s.exit.Expiring? && Owed(s, EXIT) == [] then s.(exit := Left) else s
  }

  function Run(s: Life, actions: seq<Action>): Life
    decreases |actions|
  {
    if actions == [] then s else Run(Next(s, actions[0]), actions[1..])
  }

  /** The sockets owed by the threads in ts. */
  ghost function Debts(owed: map<nat, seq<Socket>>, ts: set<nat>): multiset<Socket>
    requires ts <= owed.Keys
    decreases |ts|
  {
    if ts == {} then multiset{}
    else
      var t :| t in ts;
      multiset(owed[t]) + Debts(owed, ts - {t})
  }

  ghost function AllDebts(s: Life): multiset<Socket> { Debts(s.owed, s.owed.Keys) }

  lemma {:induction false} DebtsSplit(owed: map<nat, seq<Socket>>, ts: set<nat>, t: nat)
    requires ts <= owed.Keys && t in ts
    ensures Debts(owed, ts) == multiset(owed[t]) + Debts(owed, ts - {t})
    decreases |ts|
  {
    var first :| first in ts && Debts(owed, ts) == multiset(owed[first]) + Debts(owed, ts - {first});
    if first != t {
      DebtsSplit(owed, ts - {first}, t);
      DebtsSplit(owed, ts - {t}, first);
      assert ts - {first} - {t} == ts - {t} - {first};
    }
  }

  lemma {:induction false} DebtsOfOthers(owed: map<nat, seq<Socket>>, other: map<nat, seq<Socket>>, ts: set<nat>)
    requires ts <= owed.Keys && ts <= other.Keys
    requires forall t :: t in ts ==> owed[t] == other[t]
    ensures Debts(owed, ts) == Debts(other, ts)
    decreases |ts|
  {
    if ts != {} {
      var t :| t in ts;
      DebtsSplit(owed, ts, t);
      DebtsSplit(other, ts, t);
      DebtsOfOthers(owed, other, ts - {t});
    }
  }

  /** Changing what one thread owes changes the total by the difference. */
  lemma DebtsUpdate(s: Life, t: nat, sockets: seq<Socket>)
    ensures Debts(s.owed[t := sockets], s.owed[t := sockets].Keys) + multiset(Owed(s, t))
         == AllDebts(s) + multiset(sockets)
  {
    var after := s.owed[t := sockets];
    assert after.Keys - {t} == s.owed.Keys - {t};
    DebtsSplit(after, after.Keys, t);
    DebtsOfOthers(after, s.owed, after.Keys - {t});
    if t in s.owed {
      DebtsSplit(s.owed, s.owed.Keys, t);
    } else {
      assert s.owed.Keys - {t} == s.owed.Keys;
    }
  }

  /** Every socket ever handed to register is on the list, owed by a thread, or aborted. */
  ghost predicate Conserved(s: Life) {
    s.handed == multiset(s.g.sockets) + AllDebts(s) + s.aborted
  }

  /** Once closed, the list is empty; the exit passes its join only when the timer thread is done; and only a
      firing timer and an expiring exit owe anything of their own. */
  ghost predicate Ordered(s: Life) {
    && (s.g.closed ==> s.g.sockets == [])
    && (s.exit in {Joined, Expiring, Left} ==> s.timer.Stopped?)
    && (s.exit in {Expiring, Left} ==> s.g.closed)
    && (!s.timer.Firing? ==> Owed(s, TIMER) == [])
    && (!s.exit.Expiring? ==> Owed(s, EXIT) == [])
  }

  lemma NextOrdered(s: Life, a: Action)
    requires Ordered(s)
    ensures Ordered(Next(s, a)) && (s.g.closed ==> Next(s, a).g.closed)
  {
  }

  lemma PaidOne(after: multiset<Socket>, before: multiset<Socket>, one: multiset<Socket>, rest: multiset<Socket>,
                aborted: multiset<Socket>)
    requires after + (one + rest) == before + rest
    ensures after + (aborted + one) == before + aborted
  {
    forall x: Socket | true ensures (after + (aborted + one))[x] == (before + aborted)[x] {
      assert (after + (one + rest))[x] == (before + rest)[x];
    }
  }

  lemma SeizeConserves(s: Life, t: nat)
    requires Owed(s, t) == [] && Conserved(s)
    ensures Conserved(s.(g := Seize(s.g).0, owed := s.owed[t := Seize(s.g).1]))
  {
    DebtsUpdate(s, t, s.g.sockets);
    var after := s.(g := Seize(s.g).0, owed := s.owed[t := Seize(s.g).1]);
    assert AllDebts(after) == AllDebts(s) + multiset(s.g.sockets);
  }

  lemma AbortConserves(s: Life, t: nat)
    requires Owed(s, t) != [] && Conserved(s)
    ensures Conserved(Next(s, AbortOne(t)))
  {
    var first, rest := s.owed[t][0], s.owed[t][1..];
    var after := Next(s, AbortOne(t));
    DebtsUpdate(s, t, rest);
    assert s.owed[t] == [first] + rest;
    assert after.owed == s.owed[t := rest];
    PaidOne(AllDebts(after), AllDebts(s), multiset{first}, multiset(rest), s.aborted);
    assert after.handed == multiset(s.g.sockets) + (AllDebts(s) + s.aborted);
  }

  lemma RegisterConserves(s: Life, t: nat, sock: Socket, late: bool)
    requires t > EXIT && Owed(s, t) == [] && Conserved(s)
    ensures Conserved(Next(s, Register(t, sock, late)))
  {
    var after := Next(s, Register(t, sock, late));
    if s.g.closed || late {
      DebtsUpdate(s, t, [sock]);
      assert AllDebts(after) == AllDebts(s) + multiset{sock};
    } else {
      assert AllDebts(after) == AllDebts(s);
      assert multiset(after.g.sockets) == multiset(s.g.sockets) + multiset{sock};
    }
  }

  lemma NextConserved(s: Life, a: Action)
    requires Ordered(s) && Conserved(s)
    ensures Conserved(Next(s, a))
  {
    match a
    case Register(t, sock, late) =>
      if t > EXIT && Owed(s, t) == [] {
        RegisterConserves(s, t, sock, late);
      }
    case AbortOne(t) =>
      if Owed(s, t) != [] {
        AbortConserves(s, t);
      }
    case Fire =>
      if s.timer.Armed? {
        SeizeConserves(s, TIMER);
      }
    case ExpireOnExit =>
      if s.exit.Joined? {
        SeizeConserves(s, EXIT);
      }
    case _ =>
  }

  lemma {:induction false} RunKeeps(s: Life, actions: seq<Action>)
    requires Ordered(s) && Conserved(s)
    ensures Ordered(Run(s, actions)) && Conserved(Run(s, actions))
    decreases |actions|
  {
    if actions != [] {
      NextOrdered(s, actions[0]);
      NextConserved(s, actions[0]);
      RunKeeps(Next(s, actions[0]), actions[1..]);
    }
  }

  /** Once the lifecycle is closed, its socket list is empty in every later state. */
  lemma {:induction false} ClosedListStaysEmpty(s: Life, actions: seq<Action>)
    requires Ordered(s) && s.g.closed
    ensures Run(s, actions).g == Guarded([], true)
    decreases |actions|
  {
    if actions != [] {
      NextOrdered(s, actions[0]);
      ClosedListStaysEmpty(Next(s, actions[0]), actions[1..]);
    }
  }

  lemma {:induction false} NoDebts(owed: map<nat, seq<Socket>>, ts: set<nat>)
    requires ts <= owed.Keys && forall t :: t in ts ==> owed[t] == []
    ensures Debts(owed, ts) == multiset{}
    decreases |ts|
  {
    if ts != {} {
      var t :| t in ts;
      DebtsSplit(owed, ts, t);
      NoDebts(owed, ts - {t});
    }
  }

  /** For every interleaving: once the exit has returned and no registration is still aborting its own late
      socket, every socket ever handed over has been aborted, exactly as often as it was handed over. */
  lemma NoSocketLeaks(actions: seq<Action>)
    ensures var s := Run(START, actions);
            && s.handed == multiset(s.g.sockets) + AllDebts(s) + s.aborted
            && (s.exit.Left? && (forall t :: t in s.owed && t > EXIT ==> s.owed[t] == []) ==> s.handed == s.aborted)
  {
    RunKeeps(START, actions);
    var s := Run(START, actions);
    if s.exit.Left? && (forall t :: t in s.owed && t > EXIT ==> s.owed[t] == []) {
      assert Owed(s, TIMER) == [] && Owed(s, EXIT) == [];
      forall t | t in s.owed ensures s.owed[t] == [] {
        assert t == TIMER || t == EXIT || t > EXIT;
      }
      NoDebts(s.owed, s.owed.Keys);
    }
  }

  function Repeat(a: Action, n: nat): (r: seq<Action>)
    ensures |r| == n && forall i :: 0 <= i < n ==> r[i] == a
  {
    seq(n, i => a)
  }

  /** A thread that owes sockets pays them off by its own steps, whatever it finds closed. */
  lemma {:induction false} ThreadPaysOff(s: Life, t: nat)
    ensures var end := Run(s, Repeat(AbortOne(t), |Owed(s, t)|));
            Owed(end, t) == [] && end == s.(owed := end.owed, aborted := end.aborted)
            && forall u :: u != t ==> Owed(end, u) == Owed(s, u)
    decreases |Owed(s, t)|
  {
    var steps := Repeat(AbortOne(t), |Owed(s, t)|);
    if Owed(s, t) != [] {
      var next := Next(s, AbortOne(t));
      ThreadPaysOff(next, t);
      assert steps[1..] == Repeat(AbortOne(t), |Owed(next, t)|);
    }
  }

  // ---------------------------------------------------------------- the exit always returns

  function TimerLeft(timer: Timer): nat {
    match timer
    case Armed => 2
    case Firing => 1
    case Stopped => 0
  }

  function ExitLeft(exit: Exit): nat {
    match exit
    case Inside => 4
    case TimerCancelled => 3
    case Joined => 2
    case Expiring => 1
    case Left => 0
  }

  /** How much the timer, the exit and the threads that owe sockets still have to do. */
  ghost function StepsLeft(s: Life): nat {
    TimerLeft(s.timer) + ExitLeft(s.exit) + |s.g.sockets| + |AllDebts(s)|
  }

  lemma DebtSize(s: Life, t: nat, sockets: seq<Socket>)
    ensures |Debts(s.owed[t := sockets], s.owed[t := sockets].Keys)| + |Owed(s, t)| == |AllDebts(s)| + |sockets|
  {
    DebtsUpdate(s, t, sockets);
    var after := Debts(s.owed[t := sockets], s.owed[t := sockets].Keys);
    assert |after + multiset(Owed(s, t))| == |AllDebts(s) + multiset(sockets)|;
  }

  /** Every step other than a registration that does anything gets the end of the request nearer. */
  lemma StepsLead(s: Life, a: Action)
    requires Ordered(s) && !a.Register? && Next(s, a) != s
    ensures StepsLeft(Next(s, a)) < StepsLeft(s) && Next(s, a).handed == s.handed
  {
    match a
    case AbortOne(t) => DebtSize(s, t, s.owed[t][1..]);
    case Fire => DebtSize(s, TIMER, s.g.sockets);
    case ExpireOnExit => DebtSize(s, EXIT, s.g.sockets);
    case _ =>
  }

  lemma StuckOwesNothing(s: Life, t: nat)
    ensures Next(s, AbortOne(t)) == s ==> Owed(s, t) == []
  {
    if Owed(s, t) != [] {
      assert |Next(s, AbortOne(t)).owed[t]| == |s.owed[t]| - 1;
    }
  }

  /** The steps stop only when the exit has returned and every socket has been aborted. */
  lemma StuckIsDone(s: Life)
    requires Ordered(s) && Conserved(s)
    requires forall a: Action :: !a.Register? ==> Next(s, a) == s
    ensures s.exit.Left? && s.handed == s.aborted
  {
    forall t ensures Owed(s, t) == [] {
      assert Next(s, AbortOne(t)) == s;
      StuckOwesNothing(s, t);
    }
    assert forall t :: t in s.owed ==> s.owed[t] == Owed(s, t);
    NoDebts(s.owed, s.owed.Keys);
    assert s.timer.Stopped? by {
      assert Next(s, Fire) == s && Next(s, TimerReturns) == s;
    }
    assert s.exit.Left? by {
      assert Next(s, CancelTimer) == s && Next(s, Join) == s && Next(s, ExpireOnExit) == s && Next(s, Leave) == s;
    }
  }

  /** From every reachable state the timer, the exit and the threads that owe sockets get, by their own steps
      alone, to a returned exit with every socket handed over so far aborted. */
  lemma {:induction false} ExitAlwaysReturns(s: Life) returns (actions: seq<Action>)
    requires Ordered(s) && Conserved(s)
    ensures forall a :: a in actions ==> !a.Register?
    ensures |actions| <= StepsLeft(s)
    ensures var end := Run(s, actions); end.exit.Left? && end.handed == end.aborted == s.handed
    decreases StepsLeft(s)
  {
    if forall a: Action :: !a.Register? ==> Next(s, a) == s {
      StuckIsDone(s);
      actions := [];
    } else {
      var a: Action :| !a.Register? && Next(s, a) != s;
      StepsLead(s, a);
      NextOrdered(s, a);
      NextConserved(s, a);
      var rest := ExitAlwaysReturns(Next(s, a));
      actions := [a] + rest;
      assert actions[1..] == rest;
    }
  }
}

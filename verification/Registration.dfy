/** Email-first registration: a code, then a one-shot ticket, then an account, over a table that is purged. */
module Registration {
  import opened Wrappers

  // Seconds.
  const LIFETIME := 900
  const KEEP := 86_400

  /** A registration_verifications row. Digests are taken to be injective, so a digest is the text it digests;
      None stands for the empty column. */
  datatype Row = Row(code: Option<string>, codeExpires: Option<int>, ticket: Option<string>, ticketExpires: Option<int>)

  function Coded(code: string, expires: int): Row { Row(Some(code), Some(expires), None, None) }

  function Ticketed(ticket: string, expires: int): Row { Row(None, None, Some(ticket), Some(expires)) }

  /** Column text before the text of t: the empty column is before every time. */
  predicate ColumnBefore(column: Option<int>, t: int) { column.None? || column.value < t }

  predicate ColumnAfter(column: Option<int>, t: int) { column.Some? && column.value > t }

  /** Rows by email, and the emails that have an account. */
  datatype Tables = Tables(pending: map<string, Row>, accounts: set<string>)

  /** A verification that has read and accepted a code, and has not written its ticket yet. */
  datatype Flight = Flight(email: string, at: int)

  /** The tables, and the verifications under way by the id of their request. */
  datatype Service = Service(tables: Tables, flight: map<nat, Flight>)

  const EMPTY := Service(Tables(map[], {}), map[])

  /** One transaction; times are those of the server. A verification reads its row in one and writes its ticket
      in another. late says that the account came in between the check of a start and its transaction, sent that
      the mail went out, valid that the fields of the form are acceptable, and completes that no step after the
      account row raises. */
  datatype Event =
    | Start(email: string, code: string, late: bool, sent: bool, now: int)
    | Read(id: nat, email: string, code: string, now: int)
    | Write(id: nat, ticket: string, now: int)
    | Register(email: string, ticket: string, valid: bool, completes: bool, now: int)

  datatype Outcome =
    | Sent
    | Accepted
    | Issued(ticket: string)
    | Created
    | ValidationError
    | AuthError
    | ConflictError
    | Failed
    | NoRequest

  // ---------------------------------------------------------------- the operations on the tables

  function LastExpiry(row: Row): Option<int> {
    if row.ticketExpires.Some? then row.ticketExpires else row.codeExpires
  }

  function Purged(pending: map<string, Row>, now: int): map<string, Row> {
    map e | e in pending && !ColumnBefore(LastExpiry(pending[e]), now - KEEP) :: pending[e]
  }

  predicate CodeAccepted(s: Tables, email: string, code: string, now: int) {
    email in s.pending && s.pending[email].code == Some(code) && !ColumnBefore(s.pending[email].codeExpires, now)
  }

  /** The update names the email only: it turns whatever row that has into a ticket, and finds nothing if none. */
  function Written(s: Tables, email: string, ticket: string, now: int): Tables {
    if email in s.pending then s.(pending := s.pending[email := Ticketed(ticket, now + LIFETIME)]) else s
  }

  predicate TicketAccepted(s: Tables, email: string, ticket: string, now: int) {
    && ticket != "" && email in s.pending
    && s.pending[email].ticket == Some(ticket) && ColumnAfter(s.pending[email].ticketExpires, now)
  }

  /** purges says whether a start also purges, as it does in service. */
  function Started(s: Tables, email: string, code: string, late: bool, sent: bool, now: int, purges: bool)
    : (Tables, Outcome)
  {
    if email in s.accounts && !late then (s, ConflictError)
    else if !sent then (s, Failed)
    else
      var kept := if purges then Purged(s.pending, now) else s.pending;
      (s.(pending := kept[email := Coded(code, now + LIFETIME)]), Sent)
  }

  function Registered(s: Tables, email: string, ticket: string, valid: bool, completes: bool, now: int)
    : (Tables, Outcome)
  {
    if !valid then (s, ValidationError)
    else if !TicketAccepted(s, email, ticket, now) then (s, AuthError)
    else if email in s.accounts then (s, ConflictError)
    else if !completes then (s, Failed)
    else (Tables(s.pending - {email}, s.accounts + {email}), Created)
  }

  function Apply(s: Service, e: Event, purges: bool): (Service, Outcome) {
    match e
    case Start(email, code, late, sent, now) =>
      var (next, outcome) := Started(s.tables, email, code, late, sent, now, purges);
      (s.(tables := next), outcome)
    case Read(id, email, code, now) =>
      if CodeAccepted(s.tables, email, code, now) then (s.(flight := s.flight[id := Flight(email, now)]), Accepted)
      else (s, AuthError)
    case Write(id, ticket, now) =>
      if id !in s.flight then (s, NoRequest)
      else (Service(Written(s.tables, s.flight[id].email, ticket, now), s.flight - {id}), Issued(ticket))
    case Register(email, ticket, valid, completes, now) =>
      var (next, outcome) := Registered(s.tables, email, ticket, valid, completes, now);
      (s.(tables := next), outcome)
  }

  class AccountStore {
    var pending: map<string, Row>
    var accounts: set<string>

    constructor ()
      ensures Tables(pending, accounts) == EMPTY.tables
    {
      pending, accounts := map[], {};
    }

    /** A row goes when its ticket, or if it has none its code, expired more than a day ago or is not there. */
    method PurgeExpired(now: int)
      modifies this`pending
      ensures forall e :: e in pending ==> e in old(pending) && pending[e] == old(pending)[e]
      ensures forall e :: e in old(pending) ==>
                var row := old(pending)[e];
                e in pending <==>
                  || (row.ticketExpires.Some? && row.ticketExpires.value >= now - KEEP)
                  || (row.ticketExpires.None? && row.codeExpires.Some? && row.codeExpires.value >= now - KEEP)
      ensures pending == Purged(old(pending), now)
    {
      pending := Purged(pending, now);
    }

    /** The code handler: conflict check, purge, upsert, mail; a failed mail rolls all of it back. */
    method Start(email: string, code: string, late: bool, sent: bool, now: int) returns (outcome: Outcome)
      modifies this
      ensures (Tables(pending, accounts), outcome) ==
              Started(old(Tables(pending, accounts)), email, code, late, sent, now, true)
      ensures accounts == old(accounts)
      ensures outcome == if email in old(accounts) && !late then ConflictError else if !sent then Failed else Sent
      ensures outcome != Sent ==> pending == old(pending)
      ensures outcome == Sent ==> email in pending && pending[email] == Row(Some(code), Some(now + 900), None, None)
      ensures outcome == Sent ==>
                forall e :: e != email && e in pending ==> e in old(pending) && pending[e] == old(pending)[e]
      ensures outcome == Sent ==>
                forall e :: e != email && e in old(pending) ==>
                  var expiry := LastExpiry(old(pending)[e]);
                  e in pending <==> expiry.Some? && expiry.value >= now - 86_400
    {
      if email in accounts && !late {
        return ConflictError;
      }
      var entry := pending;
      PurgeExpired(now);
      pending := pending[email := Row(Some(code), Some(now + LIFETIME), None, None)];
      if !sent {
        pending := entry;
        return Failed;
      }
      return Sent;
    }

    method ReadCode(email: string, code: string, now: int) returns (ok: bool)
      ensures ok == CodeAccepted(Tables(pending, accounts), email, code, now)
      ensures ok <==> && email in pending && pending[email].code == Some(code)
                      && pending[email].codeExpires.Some? && now <= pending[email].codeExpires.value
    {
      if email !in pending {
        return false;
      }
      var row := pending[email];
      if row.code != Some(code) {
        return false;
      }
      return !ColumnBefore(row.codeExpires, now);
    }

    method WriteTicket(email: string, ticket: string, now: int)
      modifies this`pending
      ensures Tables(pending, accounts) == Written(old(Tables(pending, accounts)), email, ticket, now)
      ensures pending == if email in old(pending)
                         then old(pending)[email := Row(None, None, Some(ticket), Some(now + 900))] else old(pending)
    {
      if email in pending {
        pending := pending[email := pending[email].(code := None, codeExpires := None, ticket := Some(ticket),
                                                    ticketExpires := Some(now + LIFETIME))];
      }
    }

    /** A verification that nothing overtakes: its read, and its write as the very next transaction. */
    method Verify(id: nat, email: string, code: string, ticket: string, readAt: int, now: int)
      returns (outcome: Outcome)
      modifies this`pending
      ensures var before := Service(old(Tables(pending, accounts)), map[]);
              var read := Apply(before, Read(id, email, code, readAt), true);
              if read.1 == Accepted
              then (Service(Tables(pending, accounts), map[]), outcome) == Apply(read.0, Write(id, ticket, now), true)
              else outcome == AuthError && pending == old(pending)
    {
      var ok := ReadCode(email, code, readAt);
      if !ok {
        return AuthError;
      }
      WriteTicket(email, ticket, now);
      return Issued(ticket);
    }

    /** One conditional delete: compare, check the expiry and use up. */
    method ConsumeTicket(email: string, ticket: string, now: int) returns (ok: bool)
      modifies this`pending
      ensures ok == TicketAccepted(old(Tables(pending, accounts)), email, ticket, now)
      ensures ok <==> && ticket != "" && email in old(pending) && old(pending)[email].ticket == Some(ticket)
                      && old(pending)[email].ticketExpires.Some? && now < old(pending)[email].ticketExpires.value
      ensures pending == if ok then old(pending) - {email} else old(pending)
    {
      if ticket == "" || email !in pending {
        return false;
      }
      ok := pending[email].ticket == Some(ticket) && ColumnAfter(pending[email].ticketExpires, now);
      if ok {
        pending := pending - {email};
      }
    }

    method Register(email: string, ticket: string, valid: bool, completes: bool, now: int) returns (outcome: Outcome)
      modifies this
      ensures (Tables(pending, accounts), outcome) ==
              Registered(old(Tables(pending, accounts)), email, ticket, valid, completes, now)
      ensures outcome == if !valid then ValidationError
                         else if !(&& ticket != "" && email in old(pending)
                                   && old(pending)[email].ticket == Some(ticket)
                                   && old(pending)[email].ticketExpires.Some?
                                   && now < old(pending)[email].ticketExpires.value) then AuthError
                         else if email in old(accounts) then ConflictError
                         else if !completes then Failed else Created
      ensures outcome == Created ==> pending == old(pending) - {email} && accounts == old(accounts) + {email}
      ensures outcome != Created ==> pending == old(pending) && accounts == old(accounts)
    {
      if !valid {
        return ValidationError;
      }
      var entry := pending;
      var consumed := ConsumeTicket(email, ticket, now);
      if !consumed {
        return AuthError;
      }
      if email in accounts {
        pending := entry;
        return ConflictError;
      }
      accounts := accounts + {email};
      if !completes {
        pending, accounts := entry, accounts - {email};
        return Failed;
      }
      return Created;
    }
  }

  // ---------------------------------------------------------------- when purging is invisible

  ghost predicate ClockAdvances(run: seq<Event>) {
    forall i, j :: 0 <= i < j < |run| ==> run[i].now <= run[j].now
  }

  function Outcomes(s: Service, run: seq<Event>, purges: bool): seq<Outcome>
    decreases |run|
  {
    if run == [] then []
    else
      var (next, outcome) := Apply(s, run[0], purges);
      [outcome] + Outcomes(next, run[1..], purges)
  }

  /** Every ticket is written at most this many seconds after its code was read. */
  predicate Prompt(s: Service, run: seq<Event>, delay: nat)
    decreases |run|
  {
    run == [] || (&& (run[0].Write? && run[0].id in s.flight ==> run[0].now <= s.flight[run[0].id].at + delay)
                  && Prompt(Apply(s, run[0], false).0, run[1..], delay))
  }

  /** While a verification is under way, the row of its email, if any, expires no earlier than it was read. */
  ghost predicate FlightsFresh(s: Service, now: int) {
    && (forall e :: e in s.tables.pending ==> Shaped(s.tables.pending[e]))
    && (forall id :: id in s.flight ==>
          var f := s.flight[id];
          f.at <= now && (f.email in s.tables.pending ==> !ColumnBefore(LastExpiry(s.tables.pending[f.email]), f.at)))
  }

  /** Rows are written in two shapes only: waiting for a code, or waiting for a ticket. */
  predicate Shaped(row: Row) {
    || (row.code.Some? && row.codeExpires.Some? && row.ticket.None? && row.ticketExpires.None?)
    || (row.code.None? && row.codeExpires.None? && row.ticket.Some? && row.ticketExpires.Some?)
  }

  /** The same tables, except that one side may still hold rows that are dead at this time. */
  ghost predicate SameButDead(purged: Service, kept: Service, now: int) {
    var p, k := purged.tables, kept.tables;
    && p.accounts == k.accounts && purged.flight == kept.flight
    && (forall e :: e in p.pending ==> e in k.pending && k.pending[e] == p.pending[e])
    && (forall e :: e in k.pending && e !in p.pending ==> ColumnBefore(LastExpiry(k.pending[e]), now - KEEP))
  }

  lemma ApplyKeepsFlightsFresh(s: Service, e: Event, before: int)
    requires FlightsFresh(s, before) && before <= e.now
    ensures FlightsFresh(Apply(s, e, false).0, e.now)
  {
  }

  lemma StartKeepsTwins(purged: Service, kept: Service, e: Event, before: int)
    requires e.Start? && SameButDead(purged, kept, before) && before <= e.now
    ensures Apply(purged, e, true).1 == Apply(kept, e, false).1
    ensures SameButDead(Apply(purged, e, true).0, Apply(kept, e, false).0, e.now)
  {
  }

  lemma WriteKeepsTwins(purged: Service, kept: Service, e: Event, before: int)
    requires e.Write? && FlightsFresh(kept, before) && SameButDead(purged, kept, before) && before <= e.now
    requires Prompt(kept, [e], KEEP)
    ensures Apply(purged, e, true).1 == Apply(kept, e, false).1
    ensures SameButDead(Apply(purged, e, true).0, Apply(kept, e, false).0, e.now)
  {
    if e.id in kept.flight {
      var email := kept.flight[e.id].email;
      assert email in kept.tables.pending ==> email in purged.tables.pending;
    }
  }

  lemma ApplyKeepsTwins(purged: Service, kept: Service, e: Event, before: int)
    requires FlightsFresh(kept, before) && SameButDead(purged, kept, before) && before <= e.now
    requires Prompt(kept, [e], KEEP)
    ensures Apply(purged, e, true).1 == Apply(kept, e, false).1
    ensures SameButDead(Apply(purged, e, true).0, Apply(kept, e, false).0, e.now)
  {
    match e
    case Start(_, _, _, _, _) => StartKeepsTwins(purged, kept, e, before);
    case Write(_, _, _) => WriteKeepsTwins(purged, kept, e, before);
    case _ =>
  }

  lemma {:induction false} TwinsAgree(purged: Service, kept: Service, run: seq<Event>, before: int)
    requires FlightsFresh(kept, before) && SameButDead(purged, kept, before) && Prompt(kept, run, KEEP)
    requires ClockAdvances(run) && (run != [] ==> before <= run[0].now)
    ensures Outcomes(purged, run, true) == Outcomes(kept, run, false)
    decreases |run|
  {
    if run != [] {
      assert Prompt(kept, [run[0]], KEEP);
      ApplyKeepsTwins(purged, kept, run[0], before);
      ApplyKeepsFlightsFresh(kept, run[0], before);
      TwinsAgree(Apply(purged, run[0], true).0, Apply(kept, run[0], false).0, run[1..], run[0].now);
    }
  }

  // The code of "a" is read at the last moment, and its row is purged a day and a second later, before the write.
  const OVERDUE := LIFETIME + KEEP + 1
  const Begin := [Start("a", "c", false, true, 0), Read(1, "a", "c", LIFETIME)]
  const Finish := [Write(1, "t", OVERDUE), Register("a", "t", true, true, OVERDUE)]
  const OverdueRun := Begin + [Start("b", "d", false, true, OVERDUE)] + Finish

  ghost predicate PurgingInvisible(run: seq<Event>) {
    Outcomes(EMPTY, run, true) == Outcomes(EMPTY, run, false)
  }

  lemma OverduePurgeShows(delay: nat)
    requires delay > KEEP
    ensures ClockAdvances(OverdueRun) && Prompt(EMPTY, OverdueRun, delay) && !PurgingInvisible(OverdueRun)
  {
    var run := OverdueRun;
    var waiting := Service(Tables(map["a" := Coded("c", LIFETIME)], {}), map[]);
    var reading := waiting.(flight := map[1 := Flight("a", LIFETIME)]);
    var other := Coded("d", OVERDUE + LIFETIME);
    var kept := reading.(tables := Tables(map["a" := Coded("c", LIFETIME), "b" := other], {}));
    var purged := reading.(tables := Tables(map["b" := other], {}));
    assert forall purges :: Apply(EMPTY, run[0], purges).0 == waiting;
    assert forall purges :: Apply(waiting, run[1], purges).0 == reading;
    assert Apply(reading, run[2], true).0 == purged && Apply(reading, run[2], false).0 == kept;
    assert run[1..][1..] == run[2..] && run[2..][1..] == run[3..] && run[3..][1..] == run[4..] && run[4..][1..] == [];
    var after := Apply(kept, run[3], false).0;
    assert after.tables.pending["a"] == Ticketed("t", OVERDUE + LIFETIME);
    assert Prompt(after, run[4..], delay);
    assert Prompt(kept, run[3..], delay);
    assert Prompt(reading, run[2..], delay);
    assert Outcomes(Apply(purged, run[3], true).0, run[4..], true)[0] == AuthError;
    LaterDiffers(purged, kept, run[3..]);
    LaterDiffers(reading, reading, run[2..]);
    LaterDiffers(waiting, waiting, run[1..]);
    LaterDiffers(EMPTY, EMPTY, run);
  }

  lemma LaterDiffers(purged: Service, kept: Service, run: seq<Event>)
    requires run != []
    requires Outcomes(Apply(purged, run[0], true).0, run[1..], true)
          != Outcomes(Apply(kept, run[0], false).0, run[1..], false)
    ensures Outcomes(purged, run, true) != Outcomes(kept, run, false)
  {
    assert Outcomes(purged, run, true)[1..] == Outcomes(Apply(purged, run[0], true).0, run[1..], true);
  }

  /** With a clock that does not run backwards, purging never changes the outcome of any request, exactly as
      long as no verification takes more than a day between its read and its write. */
  lemma PurgingIsInvisibleIff(delay: nat)
    ensures (forall run :: ClockAdvances(run) && Prompt(EMPTY, run, delay) ==> PurgingInvisible(run))
       <==> delay <= KEEP
  {
    if delay > KEEP {
      OverduePurgeShows(delay);
    } else {
      forall run: seq<Event> | ClockAdvances(run) && Prompt(EMPTY, run, delay) ensures PurgingInvisible(run) {
        PromptLonger(EMPTY, run, delay);
        if run != [] {
          TwinsAgree(EMPTY, EMPTY, run, run[0].now);
        }
      }
    }
  }

  lemma {:induction false} PromptLonger(s: Service, run: seq<Event>, delay: nat)
    requires Prompt(s, run, delay) && delay <= KEEP
    ensures Prompt(s, run, KEEP)
    decreases |run|
  {
    if run != [] {
      PromptLonger(Apply(s, run[0], false).0, run[1..], delay);
    }
  }

  // ---------------------------------------------------------------- which codes and tickets are good

  /** The state before position n of a run in service. */
  function At(run: seq<Event>, n: nat): Service
    requires n <= |run|
  {
    if n == 0 then EMPTY else Apply(At(run, n - 1), run[n - 1], true).0
  }

  function OutcomeAt(run: seq<Event>, k: nat): Outcome
    requires k < |run|
  {
    Apply(At(run, k), run[k], true).1
  }

  predicate StartedAt(run: seq<Event>, i: nat, email: string) {
    i < |run| && run[i].Start? && run[i].email == email && OutcomeAt(run, i) == Sent
  }

  predicate AcceptedAt(run: seq<Event>, h: nat, id: nat) {
    h < |run| && run[h].Read? && run[h].id == id && OutcomeAt(run, h) == Accepted
  }

  predicate Writes(s: Service, e: Event, email: string) {
    e.Write? && e.id in s.flight && s.flight[e.id].email == email
  }

  predicate WrittenAt(run: seq<Event>, j: nat, email: string) {
    j < |run| && Writes(At(run, j), run[j], email)
  }

  /** Nothing of this email is started or written at these positions. */
  ghost predicate Quiet(run: seq<Event>, email: string, from: nat, to: nat) {
    forall m: nat :: from <= m < to ==> !StartedAt(run, m, email) && !WrittenAt(run, m, email)
  }

  /** Before position n, start i is the latest of its email and no ticket has been written since. */
  ghost predicate Waiting(run: seq<Event>, i: nat, n: nat, email: string) {
    i < n <= |run| && StartedAt(run, i, email) && Quiet(run, email, i + 1, n)
  }

  /** Before position n, the ticket written at j is the latest of its email and nothing was started since. */
  ghost predicate Granted(run: seq<Event>, j: nat, n: nat, email: string) {
    j < n <= |run| && WrittenAt(run, j, email) && email in At(run, j).tables.pending && Quiet(run, email, j + 1, n)
  }

  /** Before position n, the read at h is the latest accepted one of request id, which has not written yet. */
  ghost predicate Reading(run: seq<Event>, h: nat, n: nat, id: nat) {
    && h < n <= |run| && AcceptedAt(run, h, id)
    && forall m: nat :: h < m < n ==> !AcceptedAt(run, m, id) && !(run[m].Write? && run[m].id == id)
  }

  function CodeRow(e: Event): Row
    requires e.Start?
  {
    Coded(e.code, e.now + LIFETIME)
  }

  function TicketRow(e: Event): Row
    requires e.Write?
  {
    Ticketed(e.ticket, e.now + LIFETIME)
  }

  /** How a row came about. */
  ghost predicate Explained(run: seq<Event>, n: nat, email: string, row: Row) {
    || (exists i: nat :: Waiting(run, i, n, email) && row == CodeRow(run[i]))
    || (exists j: nat :: Granted(run, j, n, email) && row == TicketRow(run[j]))
  }

  /** Only a start and a ticket write a row, and only that of their email. */
  lemma RowAfter(s: Service, e: Event, email: string)
    requires email in Apply(s, e, true).0.tables.pending
    ensures var (next, outcome) := Apply(s, e, true);
            var row := next.tables.pending[email];
            if e.Start? && email == e.email && outcome == Sent then row == CodeRow(e)
            else email in s.tables.pending &&
                 row == if Writes(s, e, email) then TicketRow(e) else s.tables.pending[email]
  {
  }

  lemma QuietLonger(run: seq<Event>, email: string, from: nat, n: nat)
    requires from <= n < |run| && Quiet(run, email, from, n) && !StartedAt(run, n, email) && !WrittenAt(run, n, email)
    ensures Quiet(run, email, from, n + 1)
  {
  }

  lemma StillExplained(run: seq<Event>, n: nat, email: string, row: Row)
    requires n < |run| && Explained(run, n, email, row) && !StartedAt(run, n, email) && !WrittenAt(run, n, email)
    ensures Explained(run, n + 1, email, row)
  {
    if i: nat :| Waiting(run, i, n, email) && row == CodeRow(run[i]) {
      QuietLonger(run, email, i + 1, n);
      assert Waiting(run, i, n + 1, email);
    } else {
      var j: nat :| Granted(run, j, n, email) && row == TicketRow(run[j]);
      QuietLonger(run, email, j + 1, n);
      assert Granted(run, j, n + 1, email);
    }
  }

  lemma {:induction false} RowsAreExplained(run: seq<Event>, n: nat, email: string)
    requires n <= |run| && email in At(run, n).tables.pending
    ensures Explained(run, n, email, At(run, n).tables.pending[email])
  {
    if n > 0 {
      var s, e := At(run, n - 1), run[n - 1];
      RowAfter(s, e, email);
      if StartedAt(run, n - 1, email) {
        assert Waiting(run, n - 1, n, email);
      } else if WrittenAt(run, n - 1, email) {
        assert Granted(run, n - 1, n, email);
      } else {
        RowsAreExplained(run, n - 1, email);
        StillExplained(run, n - 1, email, s.tables.pending[email]);
      }
    }
  }

  lemma ReadingLonger(run: seq<Event>, h: nat, n: nat, id: nat)
    requires n < |run| && !AcceptedAt(run, n, id) && !(run[n].Write? && run[n].id == id)
    ensures Reading(run, h, n + 1, id) == Reading(run, h, n, id)
  {
    assert h == n ==> !AcceptedAt(run, h, id);
  }

  /** A request has a ticket to write exactly while its latest accepted read is not followed by its write. */
  lemma {:induction false} FlightIsReading(run: seq<Event>, n: nat, id: nat)
    requires n <= |run|
    ensures id in At(run, n).flight <==> exists h: nat :: Reading(run, h, n, id)
    ensures forall h: nat :: Reading(run, h, n, id) ==>
              id in At(run, n).flight && At(run, n).flight[id] == Flight(run[h].email, run[h].now)
  {
    if n > 0 {
      var last := n - 1;
      FlightIsReading(run, last, id);
      if AcceptedAt(run, last, id) {
        assert Reading(run, last, n, id);
      } else if run[last].Write? && run[last].id == id {
        assert forall h: nat :: Reading(run, h, n, id) ==> h == last || h < last;
      } else {
        forall h: nat ensures Reading(run, h, n, id) == Reading(run, h, last, id) {
          ReadingLonger(run, h, last, id);
        }
      }
    }
  }

  // Rows are not purged while a day and a quarter of an hour have not passed.
  const SAFE := LIFETIME + KEEP

  lemma {:induction false} CodeSurvives(run: seq<Event>, i: nat, n: nat, email: string)
    requires Waiting(run, i, n, email) && forall m :: i < m < n ==> run[m].now <= run[i].now + SAFE
    ensures email in At(run, n).tables.pending && At(run, n).tables.pending[email] == CodeRow(run[i])
    decreases n
  {
    if i < n - 1 {
      CodeSurvives(run, i, n - 1, email);
      assert !StartedAt(run, n - 1, email) && !WrittenAt(run, n - 1, email);
    }
  }

  lemma {:induction false} TicketSurvives(run: seq<Event>, j: nat, n: nat, email: string)
    requires Granted(run, j, n, email) && forall m :: j < m < n ==> run[m].now <= run[j].now + SAFE
    requires email !in At(run, n).tables.accounts
    ensures email in At(run, n).tables.pending && At(run, n).tables.pending[email] == TicketRow(run[j])
    decreases n
  {
    if j < n - 1 {
      assert email !in At(run, n - 1).tables.accounts;
      TicketSurvives(run, j, n - 1, email);
      assert !StartedAt(run, n - 1, email) && !WrittenAt(run, n - 1, email);
    }
  }

  /** Position h presents the code of start i while it is valid. */
  predicate Presents(run: seq<Event>, i: nat, h: nat)
    requires i < |run| && h < |run|
  {
    run[i].Start? && run[h].Read? && run[h].code == run[i].code && run[h].now <= run[i].now + LIFETIME
  }

  lemma AcceptedWasPresented(run: seq<Event>, h: nat) returns (i: nat)
    requires h < |run| && run[h].Read? && OutcomeAt(run, h) == Accepted
    ensures Waiting(run, i, h, run[h].email) && Presents(run, i, h)
  {
    var email := run[h].email;
    RowsAreExplained(run, h, email);
    i :| Waiting(run, i, h, email) && At(run, h).tables.pending[email] == CodeRow(run[i]);
  }

  /** With a clock that does not run backwards, a code is accepted exactly when it is that of the latest start of
      its email, presented in time, and no ticket has been written for that email since. */
  lemma CodeAcceptedExactly(run: seq<Event>, h: nat)
    requires h < |run| && ClockAdvances(run) && run[h].Read?
    ensures OutcomeAt(run, h) == Accepted <==> exists i: nat :: Waiting(run, i, h, run[h].email) && Presents(run, i, h)
  {
    if OutcomeAt(run, h) == Accepted {
      var i := AcceptedWasPresented(run, h);
    }
    if i: nat :| Waiting(run, i, h, run[h].email) && Presents(run, i, h) {
      CodeSurvives(run, i, h, run[h].email);
    }
  }

  /** Position k uses, in time, the latest ticket of this email: it was written at j, into a row that was there,
      by the request whose read at h presented, in time, the code of the start i that was then the latest. */
  ghost predicate Earned(run: seq<Event>, i: nat, h: nat, j: nat, k: nat) {
    && k < |run| && run[k].Register? && Granted(run, j, k, run[k].email)
    && Reading(run, h, j, run[j].id) && Waiting(run, i, h, run[k].email) && Presents(run, i, h)
    && run[h].email == run[k].email && run[k].ticket == run[j].ticket && run[k].now < run[j].now + LIFETIME
  }

  /** In every run an account is created only after an unexpired code was presented, while it was that of the
      latest start of the email, by the very request that gave out the ticket used here. */
  lemma EveryAccountIsEarned(run: seq<Event>, k: nat)
    requires k < |run| && OutcomeAt(run, k) == Created
    ensures exists i: nat, h: nat, j: nat :: Earned(run, i, h, j, k)
  {
    var email := run[k].email;
    RowsAreExplained(run, k, email);
    var j: nat :| Granted(run, j, k, email) && At(run, k).tables.pending[email] == TicketRow(run[j]);
    FlightIsReading(run, j, run[j].id);
    var h: nat :| Reading(run, h, j, run[j].id);
    var i := AcceptedWasPresented(run, h);
    assert Earned(run, i, h, j, k);
  }

  /** With a clock that does not run backwards, a registration creates an account exactly when it is acceptable
      by itself, the email has none yet, and it is earned. */
  lemma RegisterSucceedsExactly(run: seq<Event>, k: nat)
    requires k < |run| && ClockAdvances(run) && run[k].Register?
    ensures OutcomeAt(run, k) == Created <==>
            && run[k].valid && run[k].completes && run[k].ticket != ""
            && run[k].email !in At(run, k).tables.accounts
            && exists i: nat, h: nat, j: nat :: Earned(run, i, h, j, k)
  {
    if OutcomeAt(run, k) == Created {
      EveryAccountIsEarned(run, k);
    }
    if run[k].email !in At(run, k).tables.accounts {
      if i: nat, h: nat, j: nat :| Earned(run, i, h, j, k) {
        TicketSurvives(run, j, k, run[k].email);
      }
    }
  }

  /** From any state, whoever has no account yet and goes through the steps in time gets one: start, the code within
      a quarter of an hour, and the ticket within another. */
  lemma HonestRegistrationSucceeds(s: Service, email: string, code: string, late: bool, id: nat, ticket: string,
                                   start: int, read: int, write: int, register: int)
    requires email !in s.tables.accounts && ticket != ""
    requires read <= start + 900 && register < write + 900
    ensures var run := [Start(email, code, late, true, start), Read(id, email, code, read), Write(id, ticket, write),
                        Register(email, ticket, true, true, register)];
            Outcomes(s, run, true) == [Sent, Accepted, Issued(ticket), Created]
  {
    var a, b := Start(email, code, late, true, start), Read(id, email, code, read);
    var c, d := Write(id, ticket, write), Register(email, ticket, true, true, register);
    var started := Apply(s, a, true).0;
    var accepted := Apply(started, b, true).0;
    var issued := Apply(accepted, c, true).0;
    assert [a, b, c, d][1..] == [b, c, d] && [b, c, d][1..] == [c, d] && [c, d][1..] == [d] && [d][1..] == [];
    assert Outcomes(issued, [d], true) == [Created];
    assert Outcomes(accepted, [c, d], true) == [Issued(ticket), Created];
    assert Outcomes(started, [b, c, d], true) == [Accepted, Issued(ticket), Created];
  }

  // ---------------------------------------------------------------- a start that overtakes a verification

  /** No start of the email lies between the read of a verification and its write. */
  ghost predicate NotOvertaken(run: seq<Event>, h: nat, j: nat, email: string) {
    forall m: nat :: h < m < j ==> !StartedAt(run, m, email)
  }

  /** Start i is still the latest of the email before position k. */
  ghost predicate LatestStart(run: seq<Event>, i: nat, k: nat, email: string) {
    i < k && StartedAt(run, i, email) && forall m: nat :: i < m < k ==> !StartedAt(run, m, email)
  }

  /** What Earned says about the latest start: its code is the one presented exactly when no start of the email came
      between the read and the write. */
  lemma LatestStartIffNotOvertaken(run: seq<Event>, i: nat, h: nat, j: nat, k: nat)
    requires Earned(run, i, h, j, k)
    ensures LatestStart(run, i, k, run[k].email) <==> NotOvertaken(run, h, j, run[k].email)
  {
  }

  /** An account has one start, one read and one write behind it. */
  lemma EarnedInOneWay(run: seq<Event>, i: nat, h: nat, j: nat, i': nat, h': nat, j': nat, k: nat)
    requires Earned(run, i, h, j, k) && Earned(run, i', h', j', k)
    ensures i == i' && h == h' && j == j'
  {
    var email := run[k].email;
    assert WrittenAt(run, j, email) && WrittenAt(run, j', email);
    assert AcceptedAt(run, h, run[j].id) && AcceptedAt(run, h', run[j'].id);
    assert StartedAt(run, i, email) && StartedAt(run, i', email);
  }

  /** In every run each account has exactly one verification behind it, and rests on the code of the latest start
      at the time of registration if and only if no start of the email came between its read and its write. */
  lemma AccountRestsOnLatestStartIff(run: seq<Event>, k: nat) returns (h: nat, j: nat)
    requires k < |run| && OutcomeAt(run, k) == Created
    ensures exists i: nat :: Earned(run, i, h, j, k)
    ensures forall i': nat, h': nat, j': nat :: Earned(run, i', h', j', k) ==> h' == h && j' == j
    ensures (exists i: nat :: LatestStart(run, i, k, run[k].email) && Earned(run, i, h, j, k)) <==>
            NotOvertaken(run, h, j, run[k].email)
  {
    EveryAccountIsEarned(run, k);
    var i: nat, h0: nat, j0: nat :| Earned(run, i, h0, j0, k);
    h, j := h0, j0;
    LatestStartIffNotOvertaken(run, i, h, j, k);
    forall i': nat, h': nat, j': nat | Earned(run, i', h', j', k) ensures i' == i && h' == h && j' == j {
      EarnedInOneWay(run, i, h, j, i', h', j', k);
    }
  }

  const OvertakenRun := [Start("a", "first", false, true, 0), Read(1, "a", "first", 1),
                         Start("a", "second", false, true, 2), Write(1, "t", 3), Register("a", "t", true, true, 4)]

  /** An account is created although the code of the latest start was never presented. */
  lemma OvertakenCodeStillRegisters()
    ensures OutcomeAt(OvertakenRun, 4) == Created
    ensures LatestStart(OvertakenRun, 2, 4, "a")
    ensures forall h: nat :: h < 5 ==> !Presents(OvertakenRun, 2, h)
  {
    var run := OvertakenRun;
    assert At(run, 1).tables.pending == map["a" := Coded("first", LIFETIME)];
    assert At(run, 2).flight == map[1 := Flight("a", 1)];
    assert At(run, 3).tables.pending == map["a" := Coded("second", 2 + LIFETIME)];
    assert At(run, 4).tables.pending == map["a" := Ticketed("t", 3 + LIFETIME)];
  }

  // ---------------------------------------------------------------- one code, one ticket, one account

  /** How many of the first n requests are of this kind, given the state each meets. */
  function Count(run: seq<Event>, n: nat, kind: (Service, Event) -> bool): nat
    requires n <= |run|
  {
    if n == 0 then 0 else Count(run, n - 1, kind) + if kind(At(run, n - 1), run[n - 1]) then 1 else 0
  }

  function Starts(run: seq<Event>, n: nat, email: string): nat
    requires n <= |run|
  {
    Count(run, n, (s: Service, e: Event) => e.Start? && e.email == email && Apply(s, e, true).1 == Sent)
  }

  function Tickets(run: seq<Event>, n: nat, email: string): nat
    requires n <= |run|
  {
    Count(run, n, (s: Service, e: Event) => Writes(s, e, email))
  }

  /** Tickets that were written when the code they were given for had been replaced or used up meanwhile. */
  function LateTickets(run: seq<Event>, n: nat, email: string): nat
    requires n <= |run|
  {
    Count(run, n, (s: Service, e: Event) => Writes(s, e, email) && !HasCode(s, email))
  }

  function Accounts(run: seq<Event>, n: nat, email: string): nat
    requires n <= |run|
  {
    Count(run, n, (s: Service, e: Event) => e.Register? && e.email == email && Apply(s, e, true).1 == Created)
  }

  predicate HasCode(s: Service, email: string) {
    email in s.tables.pending && s.tables.pending[email].code.Some?
  }

  predicate HasTicket(s: Service, email: string) {
    email in s.tables.pending && s.tables.pending[email].ticket.Some?
  }

  /** Each start yields at most one ticket, but for those written after the code was gone, and each ticket at most
      one account, also counting those outstanding. */
  lemma {:induction false} OneCodeOneTicketOneAccount(run: seq<Event>, n: nat, email: string)
    requires n <= |run|
    ensures var s := At(run, n);
            && Tickets(run, n, email) + (if HasCode(s, email) then 1 else 0)
               <= Starts(run, n, email) + LateTickets(run, n, email)
            && Accounts(run, n, email) + (if HasTicket(s, email) then 1 else 0) <= Tickets(run, n, email)
            && Accounts(run, n, email) == (if email in s.tables.accounts then 1 else 0)
            && (email in s.tables.pending ==> Shaped(s.tables.pending[email]))
  {
    if n > 0 {
      OneCodeOneTicketOneAccount(run, n - 1, email);
    }
  }

  /** Two reads can share a code only by overlapping: both were made before either of them wrote its ticket. */
  lemma SharedCodeMeansOverlap(run: seq<Event>, i: nat, h: nat, j: nat, h': nat, j': nat, email: string)
    requires Waiting(run, i, h, email) && Waiting(run, i, h', email) && h < h'
    requires j < |run| && run[j].Write? && Reading(run, h, j, run[j].id) && run[h].email == email
    requires j' < |run| && run[j'].Write? && Reading(run, h', j', run[j'].id) && run[h'].email == email
    ensures h < h' < j && h' < j'
  {
    FlightIsReading(run, j, run[j].id);
    assert WrittenAt(run, j, email);
  }
}

/** Signed runtime requests: the order of the checks, the clock-skew window, and the pruned nonce table. */
module RequestNonce {
  import opened Order
  import opened Wrappers

  datatype Error = PermissionDenied | ValidationError

  // Times are microseconds; the window is 300 seconds.
  const WINDOW := 300_000_000
  const MIN_NONCE_LENGTH := 8
  const MAX_NONCE_LENGTH := 128
  const PRUNE_EVERY := 64

  /** A zoned timestamp as ISO 8601 text shows it: the local reading and the UTC offset. */
  datatype Stamp = Stamp(local: int, offset: int) {
    function Instant(): int { local - offset }

    function Later(d: int): Stamp { Stamp(local + d, offset) }

    /** The order of the texts: the local reading first, then the sign ('+' before '-') and size of the offset. */
    predicate TextBefore(other: Stamp) {
      || local < other.local
      || (local == other.local && OffsetTextBefore(offset, other.offset))
    }
  }

  predicate OffsetTextBefore(a: int, b: int) {
    if (a < 0) == (b < 0) then (if a < 0 then b < a else a < b) else b < 0
  }

  /** The issued_at field; a reading without an offset is taken as UTC. */
  datatype IssuedAt = Unreadable | Naive(local: int) | Zoned(stamp: Stamp) {
    function Stamped(): Stamp
      requires !Unreadable?
    {
      match this
      case Naive(local) => Stamp(local, 0)
      case Zoned(stamp) => stamp
    }
  }

  /** When a binding expires. */
  datatype Expiry = Never | Garbled | At(instant: int)

  /** The newest active binding of a key. */
  datatype Binding = Binding(bindingId: string, key: string, expiry: Expiry)

  /** The signed payload; fields holds the normalised text of every member, nonce is None unless it is a string. */
  datatype Payload = Payload(fields: map<string, string>, issuedAt: IssuedAt, nonce: Option<string>)

  /** A request signature; kid is "" when the header has no string there. */
  datatype Jws = Malformed | Jws(alg: string, kid: string, payload: Payload, signature: string)

  /** One presented request: what is signed, the body fields it has to cover, and the agent's bindings by key id. */
  datatype Request = Request(jws: Jws, expected: seq<(string, string)>, bindings: map<string, Binding>)

  type Verifier = (string, Payload, string) -> bool

  /** What a request that passes every check asks to consume. */
  datatype Claim = Claim(kid: string, nonce: string, issued: Stamp)

  // ---------------------------------------------------------------- the checks

  function FieldOr(fields: map<string, string>, name: string, default: string): string {
    if name in fields then fields[name] else default
  }

  /** The error of the first expected field that is not covered or differs. */
  function FieldError(fields: map<string, string>, expected: seq<(string, string)>): Option<Error> {
    if expected == [] then None
    else if expected[0].0 !in fields then Some(ValidationError)
    else if fields[expected[0].0] != expected[0].1 then Some(PermissionDenied)
    else FieldError(fields, expected[1..])
  }

  predicate InWindow(issued: Stamp, now: int) { -WINDOW <= now - issued.Instant() <= WINDOW }

  /** The request is signed by the newest active, unexpired binding of its key, covers exactly the body it
      came with, was issued within the window, and carries a nonce of acceptable length. */
  ghost predicate Genuine(verifies: Verifier, request: Request, now: int) {
    var jws := request.jws;
    && jws.Jws? && jws.alg == "EdDSA" && jws.kid != "" && jws.kid in request.bindings
    && var binding := request.bindings[jws.kid];
    && (binding.expiry == Never || (binding.expiry.At? && now < binding.expiry.instant))
    && verifies(binding.key, jws.payload, jws.signature)
    && FieldOr(jws.payload.fields, "binding_id", "") == binding.bindingId
    && (forall i :: 0 <= i < |request.expected| ==>
          && request.expected[i].0 in jws.payload.fields
          && jws.payload.fields[request.expected[i].0] == request.expected[i].1)
    && !jws.payload.issuedAt.Unreadable? && InWindow(jws.payload.issuedAt.Stamped(), now)
    && jws.payload.nonce.Some? && MIN_NONCE_LENGTH <= |jws.payload.nonce.value| <= MAX_NONCE_LENGTH
  }

  function ClaimOf(request: Request): Option<Claim> {
    var jws := request.jws;
    if jws.Jws? && !jws.payload.issuedAt.Unreadable? && jws.payload.nonce.Some?
    then Some(Claim(jws.kid, jws.payload.nonce.value, jws.payload.issuedAt.Stamped()))
    else None
  }

  /** Everything that is decided before the table is touched, in the order in which errors are raised. */
  function Check(verifies: Verifier, request: Request, now: int): Result<Claim, Error> {
    var jws := request.jws;
    if jws.Malformed? || jws.alg != "EdDSA" || jws.kid == "" || jws.kid !in request.bindings then Err(PermissionDenied)
    else
      var binding := request.bindings[jws.kid];
      var covered := FieldError(jws.payload.fields, request.expected);
      if binding.expiry.Garbled? || (binding.expiry.At? && binding.expiry.instant <= now) then Err(PermissionDenied)
      else if !verifies(binding.key, jws.payload, jws.signature) then Err(PermissionDenied)
      else if FieldOr(jws.payload.fields, "binding_id", "") != binding.bindingId then Err(PermissionDenied)
      else if covered.Some? then Err(covered.value)
      else if jws.payload.issuedAt.Unreadable? then Err(ValidationError)
      else if !InWindow(jws.payload.issuedAt.Stamped(), now) then Err(PermissionDenied)
      else if jws.payload.nonce == None || jws.payload.nonce == Some("") then Err(ValidationError)
      else if |jws.payload.nonce.value| < MIN_NONCE_LENGTH || |jws.payload.nonce.value| > MAX_NONCE_LENGTH
      then Err(ValidationError)
      else Ok(Claim(jws.kid, jws.payload.nonce.value, jws.payload.issuedAt.Stamped()))
  }

  lemma {:induction false} FieldErrorNone(fields: map<string, string>, expected: seq<(string, string)>)
    ensures FieldError(fields, expected).None? <==>
            forall i :: 0 <= i < |expected| ==> expected[i].0 in fields && fields[expected[i].0] == expected[i].1
  {
    if expected != [] {
      FieldErrorNone(fields, expected[1..]);
      assert forall i :: 1 <= i < |expected| ==> expected[i] == expected[1..][i - 1];
      if FieldError(fields, expected).None? {
        forall i | 0 <= i < |expected| ensures expected[i].0 in fields && fields[expected[i].0] == expected[i].1 {
          if i > 0 {
            assert expected[1..][i - 1] == expected[i];
          }
        }
      } else if FieldError(fields, expected[1..]).Some? {
        var i :| && 0 <= i < |expected[1..]|
                 && !(expected[1..][i].0 in fields && fields[expected[1..][i].0] == expected[1..][i].1);
        assert expected[i + 1] == expected[1..][i];
      }
    }
  }

  lemma CheckPassesExactlyTheGenuine(verifies: Verifier, request: Request, now: int)
    ensures Check(verifies, request, now).Ok? <==> Genuine(verifies, request, now)
    ensures Check(verifies, request, now).Ok? ==> ClaimOf(request) == Some(Check(verifies, request, now).value)
  {
    if request.jws.Jws? {
      FieldErrorNone(request.jws.payload.fields, request.expected);
    }
  }

  /** The window is five minutes to either side of the instant of issue, ends included. */
  lemma WindowExactly(issued: Stamp, now: int)
    ensures InWindow(issued, now) <==>
            issued.local - issued.offset - 300_000_000 <= now <= issued.local - issued.offset + 300_000_000
  {
  }

  /** The key, the algorithm, the binding and the signature are in order. */
  ghost predicate Authentic(verifies: Verifier, request: Request, now: int) {
    var jws := request.jws;
    && jws.Jws? && jws.alg == "EdDSA" && jws.kid != "" && jws.kid in request.bindings
    && var binding := request.bindings[jws.kid];
    && (binding.expiry == Never || (binding.expiry.At? && now < binding.expiry.instant))
    && verifies(binding.key, jws.payload, jws.signature)
    && FieldOr(jws.payload.fields, "binding_id", "") == binding.bindingId
  }

  predicate Covered(fields: map<string, string>, f: (string, string)) { f.0 in fields && fields[f.0] == f.1 }

  /** The first body field that is not covered is missing altogether. */
  ghost predicate FirstGapIsMissing(fields: map<string, string>, expected: seq<(string, string)>) {
    exists i :: && 0 <= i < |expected| && expected[i].0 !in fields
                && forall j :: 0 <= j < i ==> Covered(fields, expected[j])
  }

  lemma {:induction false} FieldErrorIs(fields: map<string, string>, expected: seq<(string, string)>)
    ensures FieldError(fields, expected) == Some(ValidationError) <==> FirstGapIsMissing(fields, expected)
    ensures FieldError(fields, expected).None? <==> forall i :: 0 <= i < |expected| ==> Covered(fields, expected[i])
  {
    if expected != [] {
      var rest := expected[1..];
      FieldErrorIs(fields, rest);
      assert forall i :: 0 <= i < |rest| ==> rest[i] == expected[i + 1];
      if Covered(fields, expected[0]) {
        if FirstGapIsMissing(fields, rest) {
          var i :| && 0 <= i < |rest| && rest[i].0 !in fields && forall j :: 0 <= j < i ==> Covered(fields, rest[j]);
          assert expected[i + 1].0 !in fields && forall j :: 0 <= j < i + 1 ==> Covered(fields, expected[j]);
        }
        if FirstGapIsMissing(fields, expected) {
          var i :| && 0 <= i < |expected| && expected[i].0 !in fields
                   && forall j :: 0 <= j < i ==> Covered(fields, expected[j]);
          assert rest[i - 1].0 !in fields && forall j :: 0 <= j < i - 1 ==> Covered(fields, rest[j]);
        }
        assert forall i :: 0 <= i < |expected| ==> i == 0 || expected[i] == rest[i - 1];
      } else {
        assert expected[0].0 !in fields ==> FirstGapIsMissing(fields, expected);
      }
    }
  }

  /** A refused request is malformed, rather than forbidden, exactly if it is authentic and either the first field it
      does not cover is missing, or it covers all of them and its time cannot be read, or it is in time and has no
      nonce of 8 to 128 characters. */
  lemma RefusalKinds(verifies: Verifier, request: Request, now: int)
    requires Check(verifies, request, now).Err?
    ensures Check(verifies, request, now).error == ValidationError <==>
            && Authentic(verifies, request, now)
            && var payload := request.jws.payload;
               || FirstGapIsMissing(payload.fields, request.expected)
               || (&& (forall i :: 0 <= i < |request.expected| ==> Covered(payload.fields, request.expected[i]))
                   && (|| payload.issuedAt.Unreadable?
                       || (&& InWindow(payload.issuedAt.Stamped(), now)
                           && (payload.nonce.None? || !(8 <= |payload.nonce.value| <= 128)))))
  {
    if request.jws.Jws? {
      FieldErrorIs(request.jws.payload.fields, request.expected);
    }
  }

  // ---------------------------------------------------------------- offsets as text

  function Digit(d: int): char
    requires 0 <= d < 10
  {
    "0123456789"[d]
  }

  /** A whole number of minutes as the text of an offset: its sign, hours and minutes. */
  function OffsetText(minutes: int): string
    requires -1440 < minutes < 1440
  {
    var m := if minutes < 0 then -minutes else minutes;
    [if minutes < 0 then '-' else '+', Digit(m / 600), Digit(m / 60 % 10), ':', Digit(m % 60 / 10), Digit(m % 10)]
  }

  lemma DigitOrder(a: int, b: int)
    requires 0 <= a < 10 && 0 <= b < 10
    ensures Digit(a) < Digit(b) <==> a < b
    ensures Digit(a) == Digit(b) <==> a == b
  {
  }

  lemma FrontDecides(x: char, a: string, y: char, b: string)
    ensures TextBefore([x] + a, [y] + b) <==> x < y || (x == y && TextBefore(a, b))
  {
    assert ([x] + a)[1..] == a && ([y] + b)[1..] == b;
  }

  /** Four digits behind a sign, compared as text. */
  lemma DigitsDecide(x: char, y: char, a: int, b: int, c: int, d: int, a': int, b': int, c': int, d': int)
    requires 0 <= a < 10 && 0 <= b < 10 && 0 <= c < 10 && 0 <= d < 10
    requires 0 <= a' < 10 && 0 <= b' < 10 && 0 <= c' < 10 && 0 <= d' < 10
    ensures TextBefore([x, Digit(a), Digit(b), ':', Digit(c), Digit(d)],
                       [y, Digit(a'), Digit(b'), ':', Digit(c'), Digit(d')])
       <==> x < y || (x == y && (a < a' || (a == a' && (b < b' || (b == b' && (c < c' || (c == c' && d < d')))))))
  {
    DigitOrder(a, a');
    DigitOrder(b, b');
    DigitOrder(c, c');
    DigitOrder(d, d');
    FrontDecides(Digit(d), [], Digit(d'), []);
    FrontDecides(Digit(c), [Digit(d)], Digit(c'), [Digit(d')]);
    FrontDecides(':', [Digit(c), Digit(d)], ':', [Digit(c'), Digit(d')]);
    FrontDecides(Digit(b), [':', Digit(c), Digit(d)], Digit(b'), [':', Digit(c'), Digit(d')]);
    FrontDecides(Digit(a), [Digit(b), ':', Digit(c), Digit(d)], Digit(a'), [Digit(b'), ':', Digit(c'), Digit(d')]);
    FrontDecides(x, [Digit(a), Digit(b), ':', Digit(c), Digit(d)],
                 y, [Digit(a'), Digit(b'), ':', Digit(c'), Digit(d')]);
    assert [Digit(d)] == [Digit(d)] + [] && [Digit(d')] == [Digit(d')] + [];
    assert [Digit(c), Digit(d)] == [Digit(c)] + [Digit(d)] && [Digit(c'), Digit(d')] == [Digit(c')] + [Digit(d')];
    assert [':', Digit(c), Digit(d)] == [':'] + [Digit(c), Digit(d)];
    assert [':', Digit(c'), Digit(d')] == [':'] + [Digit(c'), Digit(d')];
    assert [Digit(b), ':', Digit(c), Digit(d)] == [Digit(b)] + [':', Digit(c), Digit(d)];
    assert [Digit(b'), ':', Digit(c'), Digit(d')] == [Digit(b')] + [':', Digit(c'), Digit(d')];
    assert [Digit(a), Digit(b), ':', Digit(c), Digit(d)] == [Digit(a)] + [Digit(b), ':', Digit(c), Digit(d)];
    assert [Digit(a'), Digit(b'), ':', Digit(c'), Digit(d')] == [Digit(a')] + [Digit(b'), ':', Digit(c'), Digit(d')];
    assert [x, Digit(a), Digit(b), ':', Digit(c), Digit(d)] == [x] + [Digit(a), Digit(b), ':', Digit(c), Digit(d)];
    assert [y, Digit(a'), Digit(b'), ':', Digit(c'), Digit(d')]
        == [y] + [Digit(a'), Digit(b'), ':', Digit(c'), Digit(d')];
  }

  lemma PlacesDecide(a: int, b: int, c: int, d: int, a': int, b': int, c': int, d': int)
    requires 0 <= b < 10 && 0 <= c < 6 && 0 <= d < 10 && 0 <= b' < 10 && 0 <= c' < 6 && 0 <= d' < 10
    ensures 600 * a + 60 * b + 10 * c + d < 600 * a' + 60 * b' + 10 * c' + d' <==>
            a < a' || (a == a' && (b < b' || (b == b' && (c < c' || (c == c' && d < d')))))
  {
  }

  lemma Places(m: int)
    requires 0 <= m < 1440
    ensures m == 600 * (m / 600) + 60 * (m / 60 % 10) + 10 * (m % 60 / 10) + m % 10
    ensures 0 <= m / 600 < 10 && 0 <= m / 60 % 10 < 10 && 0 <= m % 60 / 10 < 6 && 0 <= m % 10 < 10
  {
    assert m / 60 / 10 == m / 600;
  }

  /** The order used for offsets is the order of their texts. */
  lemma OffsetOrderIsTextOrder(a: int, b: int)
    requires -1440 < a < 1440 && -1440 < b < 1440
    ensures OffsetTextBefore(a * 60_000_000, b * 60_000_000) <==> TextBefore(OffsetText(a), OffsetText(b))
  {
    var m, n := if a < 0 then -a else a, if b < 0 then -b else b;
    Places(m);
    Places(n);
    PlacesDecide(m / 600, m / 60 % 10, m % 60 / 10, m % 10, n / 600, n / 60 % 10, n % 60 / 10, n % 10);
    DigitsDecide(if a < 0 then '-' else '+', if b < 0 then '-' else '+',
                 m / 600, m / 60 % 10, m % 60 / 10, m % 10, n / 600, n / 60 % 10, n % 60 / 10, n % 10);
    OffsetCases(a, b, m, n);
  }

  lemma OffsetCases(a: int, b: int, m: int, n: int)
    requires m == (if a < 0 then -a else a) && n == (if b < 0 then -b else b)
    ensures OffsetTextBefore(a * 60_000_000, b * 60_000_000) <==>
            (a >= 0 && b < 0) || ((a < 0) == (b < 0) && m < n)
  {
  }

  // ---------------------------------------------------------------- the table

  type Rows = map<(string, string), Stamp>

  /** Delete every row whose expiry text is before the text of now. */
  function Pruned(rows: Rows, now: int): Rows {
    map k | k in rows && !rows[k].TextBefore(Stamp(now, 0)) :: rows[k]
  }

  function Consumed(rows: Rows, counter: nat, claim: Claim, now: int): Rows {
    var inserted := rows[(claim.kid, claim.nonce) := claim.issued.Later(WINDOW)];
    if counter % PRUNE_EVERY == 0 then Pruned(inserted, now) else inserted
  }

  class NonceLedger {
    var rows: Rows
    var counter: nat

    constructor ()
      ensures rows == map[] && counter == 0
    {
      rows, counter := map[], 0;
    }

    method Consume(claim: Claim, now: int) returns (result: Result<(), Error>)
      modifies this
      ensures result.Ok? <==> MIN_NONCE_LENGTH <= |claim.nonce| <= MAX_NONCE_LENGTH
                              && (claim.kid, claim.nonce) !in old(rows)
      ensures result.Ok? ==> rows == Consumed(old(rows), old(counter), claim, now) && counter == old(counter) + 1
      ensures result.Ok? ==>
                forall key :: key in old(rows) ==>
                  && (key in rows <==> !(old(counter) % 64 == 0 && old(rows)[key].TextBefore(Stamp(now, 0))))
                  && (key in rows ==> rows[key] == old(rows)[key])
      ensures result.Ok? ==>
                forall key :: key in rows && key !in old(rows) ==>
                  && key == (claim.kid, claim.nonce)
                  && rows[key] == Stamp(claim.issued.local + 300_000_000, claim.issued.offset)
      ensures result.Ok? ==>
                var expiry := Stamp(claim.issued.local + 300_000_000, claim.issued.offset);
                (claim.kid, claim.nonce) in rows <==> !(old(counter) % 64 == 0 && expiry.TextBefore(Stamp(now, 0)))
      ensures result.Err? ==> rows == old(rows) && counter == old(counter)
      ensures result.Err? ==> result.error == if MIN_NONCE_LENGTH <= |claim.nonce| <= MAX_NONCE_LENGTH
                                              then PermissionDenied else ValidationError
    {
      if |claim.nonce| < MIN_NONCE_LENGTH || |claim.nonce| > MAX_NONCE_LENGTH {
        return Err(ValidationError);
      }
      if (claim.kid, claim.nonce) in rows {
        return Err(PermissionDenied);
      }
      rows := rows[(claim.kid, claim.nonce) := claim.issued.Later(WINDOW)];
      if counter % PRUNE_EVERY == 0 {
        rows := Pruned(rows, now);
      }
      counter := counter + 1;
      return Ok(());
    }

    /** Accepts exactly the genuine requests whose nonce is not on record; a refused request leaves no trace. */
    method Verify(verifies: Verifier, request: Request, now: int) returns (result: Result<Payload, Error>)
      modifies this
      ensures result.Ok? <==> Genuine(verifies, request, now)
                              && (request.jws.kid, request.jws.payload.nonce.value) !in old(rows)
      ensures result.Ok? ==> && result.value == request.jws.payload
                             && rows == Consumed(old(rows), old(counter), ClaimOf(request).value, now)
                             && counter == old(counter) + 1
      ensures result.Err? ==> rows == old(rows) && counter == old(counter)
      ensures result.Err? ==> result.error == match Check(verifies, request, now)
                                              case Err(e) => e
                                              case Ok(_) => PermissionDenied
    {
      CheckPassesExactlyTheGenuine(verifies, request, now);
      var jws := request.jws;
      if jws.Malformed? || jws.alg != "EdDSA" || jws.kid == "" || jws.kid !in request.bindings {
        return Err(PermissionDenied);
      }
      var binding := request.bindings[jws.kid];
      match binding.expiry {
        case Never =>
        case Garbled => return Err(PermissionDenied);
        case At(instant) =>
          if instant <= now {
            return Err(PermissionDenied);
          }
      }
      if !verifies(binding.key, jws.payload, jws.signature) {
        return Err(PermissionDenied);
      }
      if FieldOr(jws.payload.fields, "binding_id", "") != binding.bindingId {
        return Err(PermissionDenied);
      }
      var i := 0;
      while i < |request.expected|
        invariant i <= |request.expected|
        invariant FieldError(jws.payload.fields, request.expected)
               == FieldError(jws.payload.fields, request.expected[i..])
      {
        var (field, actual) := request.expected[i];
        if field !in jws.payload.fields {
          return Err(ValidationError);
        }
        if jws.payload.fields[field] != actual {
          return Err(PermissionDenied);
        }
        assert request.expected[i..][1..] == request.expected[i + 1..];
        i := i + 1;
      }
      assert request.expected[i..] == [];
      if jws.payload.issuedAt.Unreadable? {
        return Err(ValidationError);
      }
      var issued := jws.payload.issuedAt.Stamped();
      var age := now - issued.Instant();
      if (if age < 0 then -age else age) > WINDOW {
        return Err(PermissionDenied);
      }
      if jws.payload.nonce == None || jws.payload.nonce == Some("") {
        return Err(ValidationError);
      }
      var consumed := Consume(Claim(jws.kid, jws.payload.nonce.value, issued), now);
      match consumed
      case Err(e) => return Err(e);
      case Ok(_) => return Ok(jws.payload);
    }
  }

  // ---------------------------------------------------------------- runs

  /** One call; counter is the prune counter of whichever worker process serves it. */
  datatype Attempt = Attempt(request: Request, now: int, counter: nat)

  predicate Accepted(verifies: Verifier, rows: Rows, a: Attempt) {
    match Check(verifies, a.request, a.now)
    case Err(_) => false
    case Ok(claim) => (claim.kid, claim.nonce) !in rows
  }

  function Step(verifies: Verifier, rows: Rows, a: Attempt): Rows {
    if Accepted(verifies, rows, a)
    then Consumed(rows, a.counter, Check(verifies, a.request, a.now).value, a.now)
    else rows
  }

  /** How many attempts of the run are accepted for this claim. */
  function Acceptances(verifies: Verifier, rows: Rows, run: seq<Attempt>, claim: Claim): nat
    decreases |run|
  {
    if run == [] then 0
    else
      (if Accepted(verifies, rows, run[0]) && ClaimOf(run[0].request) == Some(claim) then 1 else 0)
      + Acceptances(verifies, Step(verifies, rows, run[0]), run[1..], claim)
  }

  ghost predicate ClockAdvances(run: seq<Attempt>) {
    forall i, j :: 0 <= i < j < |run| ==> run[i].now <= run[j].now
  }

  /** The claim can never pass again: it is on record, or its window has closed. */
  predicate Spent(rows: Rows, claim: Claim, now: int) {
    || ((claim.kid, claim.nonce) in rows && rows[(claim.kid, claim.nonce)] == claim.issued.Later(WINDOW))
    || claim.issued.Instant() + WINDOW < now
  }

  lemma StepKeepsSpent(verifies: Verifier, rows: Rows, a: Attempt, claim: Claim)
    requires claim.issued.offset >= 0 && Spent(rows, claim, a.now)
    ensures !(Accepted(verifies, rows, a) && ClaimOf(a.request) == Some(claim))
    ensures Spent(Step(verifies, rows, a), claim, a.now)
  {
    CheckPassesExactlyTheGenuine(verifies, a.request, a.now);
  }

  lemma AcceptanceSpends(verifies: Verifier, rows: Rows, a: Attempt, claim: Claim)
    requires claim.issued.offset >= 0
    requires Accepted(verifies, rows, a) && ClaimOf(a.request) == Some(claim)
    ensures Spent(Step(verifies, rows, a), claim, a.now)
  {
    CheckPassesExactlyTheGenuine(verifies, a.request, a.now);
  }

  lemma {:induction false} SpentIsFinal(verifies: Verifier, rows: Rows, run: seq<Attempt>, claim: Claim, since: int)
    requires ClockAdvances(run) && claim.issued.offset >= 0
    requires Spent(rows, claim, since) && (run != [] ==> since <= run[0].now)
    ensures Acceptances(verifies, rows, run, claim) == 0
    decreases |run|
  {
    if run != [] {
      StepKeepsSpent(verifies, rows, run[0], claim);
      SpentIsFinal(verifies, Step(verifies, rows, run[0]), run[1..], claim, run[0].now);
    }
  }

  /** Over any run, whatever the workers' prune counters are, a request issued at or east of UTC is accepted
      at most once. */
  lemma {:induction false} AcceptedAtMostOnce(verifies: Verifier, rows: Rows, run: seq<Attempt>, claim: Claim)
    requires ClockAdvances(run) && claim.issued.offset >= 0
    ensures Acceptances(verifies, rows, run, claim) <= 1
    decreases |run|
  {
    if run != [] {
      var after := Step(verifies, rows, run[0]);
      if Accepted(verifies, rows, run[0]) && ClaimOf(run[0].request) == Some(claim) {
        AcceptanceSpends(verifies, rows, run[0], claim);
        SpentIsFinal(verifies, after, run[1..], claim, run[0].now);
      } else {
        AcceptedAtMostOnce(verifies, after, run[1..], claim);
      }
    }
  }

  ghost predicate NeverTwice(claim: Claim) {
    forall verifies: Verifier, rows: Rows, run: seq<Attempt> ::
      ClockAdvances(run) ==> Acceptances(verifies, rows, run, claim) <= 1
  }

  /** The call that accepts a request deletes its row again exactly if it prunes and the expiry, as written with the
      offset of the issuer, comes before the current UTC text; at eight hours behind UTC that is every instant of
      the window. The same request is then accepted once more. */
  lemma RowGoesAtOnceIff(verifies: Verifier, rows: Rows, a: Attempt, claim: Claim)
    requires Accepted(verifies, rows, a) && ClaimOf(a.request) == Some(claim)
    ensures (claim.kid, claim.nonce) !in Step(verifies, rows, a) <==>
            a.counter % PRUNE_EVERY == 0 && claim.issued.Later(WINDOW).TextBefore(Stamp(a.now, 0))
    ensures Acceptances(verifies, rows, [a, a], claim) ==
            if (claim.kid, claim.nonce) in Step(verifies, rows, a) then 1 else 2
  {
    CheckPassesExactlyTheGenuine(verifies, a.request, a.now);
    assert [a, a][1..] == [a] && [a][1..] == [];
    var after := Step(verifies, rows, a);
    assert Accepted(verifies, after, a) <==> (claim.kid, claim.nonce) !in after;
    assert Acceptances(verifies, after, [a], claim) == if Accepted(verifies, after, a) then 1 else 0;
  }

  /** A signed request with this claim, at the end of its window. */
  function LateAttempt(claim: Claim): Attempt {
    var payload := Payload(map["binding_id" := "b"], Zoned(claim.issued), Some(claim.nonce));
    Attempt(Request(Jws("EdDSA", claim.kid, payload, ""), [], map[claim.kid := Binding("b", "", Never)]),
            claim.issued.Instant() + WINDOW, 0)
  }

  /** The table keeps expiries as text with the issuer's offset and prunes by text order. A request is safe
      from replay exactly when its issued_at is not written with a negative offset. */
  lemma NeverTwiceIffOffsetNotNegative(claim: Claim)
    requires claim.kid != "" && MIN_NONCE_LENGTH <= |claim.nonce| <= MAX_NONCE_LENGTH
    ensures NeverTwice(claim) <==> claim.issued.offset >= 0
  {
    if claim.issued.offset >= 0 {
      forall verifies: Verifier, rows: Rows, run: seq<Attempt> | ClockAdvances(run)
        ensures Acceptances(verifies, rows, run, claim) <= 1
      {
        AcceptedAtMostOnce(verifies, rows, run, claim);
      }
    } else {
      var always: Verifier := (k, p, s) => true;
      var a := LateAttempt(claim);
      CheckPassesExactlyTheGenuine(always, a.request, a.now);
      RowGoesAtOnceIff(always, map[], a, claim);
      assert ClockAdvances([a, a]);
    }
  }
}

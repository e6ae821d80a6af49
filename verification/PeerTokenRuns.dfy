/** The bounded token table over whole runs: what readers see is the last grant stored. */
module PeerTokenRuns {
  import opened Text
  import opened PeerTokens

  datatype Op =
    | Store(endpoint: Endpoint, grant: Grant, stored: bool)
    | Get(endpoint: Endpoint, found: Option<string>)
    | Validate(ip: string, token: string, accepted: bool)

  datatype Event = Event(op: Op, now: int)

  ghost predicate Step(t: Table, t': Table, event: Event) {
    match event.op
    case Store(e, g, ok) => UpsertStep(t, t', e, g, ok)
    case Get(e, found) => GetStep(t, t', e, event.now, found)
    case Validate(ip, token, ok) => ValidateStep(t, t', ip, token, event.now, ok)
  }

  ghost predicate Run(tables: seq<Table>, events: seq<Event>) {
    && |tables| == |events| + 1
    && WellFormed(tables[0]) && AllInactive(tables[0])
    && (forall n :: 0 <= n < |events| ==> Step(tables[n], tables[n + 1], events[n]))
    && (forall n :: 0 < n < |events| ==> events[n - 1].now <= events[n].now)
  }

  /** The specification: an unbounded map that only successful stores change. */
  function LastStored(events: seq<Event>, n: nat): map<Endpoint, Grant>
    requires n <= |events|
  {
    if n == 0 then map[]
    else
      var before := LastStored(events, n - 1);
      match events[n - 1].op
      case Store(e, g, true) => before[e := g]
      case _ => before
  }

  /** From `now` on the table and the map show readers the same unexpired grants. */
  ghost predicate Agrees(t: Table, spec: map<Endpoint, Grant>, now: int) {
    WellFormed(t) && Unexpired(Stored(t), now) == Unexpired(spec, now)
  }

  lemma AgreesLater(t: Table, spec: map<Endpoint, Grant>, now: int, later: int)
    requires Agrees(t, spec, now) && now <= later
    ensures Agrees(t, spec, later)
  {
    hide Stored;
    LaterUnexpired(Stored(t), now, later);
    LaterUnexpired(spec, now, later);
  }

  lemma LaterUnexpired(m: map<Endpoint, Grant>, now: int, later: int)
    requires now <= later
    ensures Unexpired(m, later) == Unexpired(Unexpired(m, now), later)
  {
  }

  lemma AgreesScan(t: Table, t': Table, spec: map<Endpoint, Grant>, now: int)
    requires Agrees(t, spec, now) && ScanStep(t, t', now)
    ensures Agrees(t', spec, now)
  {
    hide Stored;
    assert Unexpired(Stored(t'), now) == Unexpired(Stored(t), now);
  }

  lemma AgreesStore(t: Table, t': Table, e: Endpoint, g: Grant, ok: bool, spec: map<Endpoint, Grant>, now: int)
    requires Agrees(t, spec, now) && UpsertStep(t, t', e, g, ok)
    ensures Agrees(t', if ok then spec[e := g] else spec, now)
  {
    hide Stored;
    if ok {
      StoreUnexpired(Stored(t), spec, e, g, now);
    }
  }

  lemma StoreUnexpired(a: map<Endpoint, Grant>, b: map<Endpoint, Grant>, e: Endpoint, g: Grant, now: int)
    requires Unexpired(a, now) == Unexpired(b, now)
    ensures Unexpired(a[e := g], now) == Unexpired(b[e := g], now)
  {
    var a', b' := Unexpired(a[e := g], now), Unexpired(b[e := g], now);
    forall k ensures k in a' <==> k in b' {
      assert k in Unexpired(a, now) <==> k in Unexpired(b, now);
    }
    forall k | k in a' ensures a'[k] == b'[k] {
      assert k != e ==> k in Unexpired(a, now) && Unexpired(a, now)[k] == Unexpired(b, now)[k];
    }
  }

  lemma AgreesStep(t: Table, t': Table, event: Event, spec: map<Endpoint, Grant>)
    requires Agrees(t, spec, event.now) && Step(t, t', event)
    ensures Agrees(t', match event.op case Store(e, g, true) => spec[e := g] case _ => spec, event.now)
  {
    hide Stored, Agrees, ScanStep, UpsertStep;
    match event.op
    case Store(e, g, ok) => AgreesStore(t, t', e, g, ok, spec, event.now);
    case Get(_, _) => AgreesScan(t, t', spec, event.now);
    case Validate(_, _, _) => AgreesScan(t, t', spec, event.now);
  }

  lemma RunStart(tables: seq<Table>, events: seq<Event>, now: int)
    requires Run(tables, events)
    ensures Agrees(tables[0], map[], now)
  {
    hide Step;
  }

  lemma RunStep(tables: seq<Table>, events: seq<Event>, n: nat)
    requires Run(tables, events) && n < |events|
    ensures |tables| == |events| + 1 && Step(tables[n], tables[n + 1], events[n])
    ensures n > 0 ==> events[n - 1].now <= events[n].now
  {
    hide Step;
  }

  /** Main result: before every operation of every run, what readers can see is exactly the
      unexpired part of what was last stored; switching slots off early never shows. */
  lemma {:induction false} RunAgrees(tables: seq<Table>, events: seq<Event>, n: nat)
    requires Run(tables, events) && n < |events|
    ensures Agrees(tables[n], LastStored(events, n), events[n].now)
  {
    hide Run, Step, Agrees;
    if n == 0 {
      RunStart(tables, events, events[0].now);
    } else {
      RunAgrees(tables, events, n - 1);
      RunStep(tables, events, n - 1);
      RunStep(tables, events, n);
      AgreesStep(tables[n - 1], tables[n], events[n - 1], LastStored(events, n - 1));
      AgreesLater(tables[n], LastStored(events, n), events[n - 1].now, events[n].now);
    }
  }

  /** A lookup returns the last grant stored for the endpoint exactly while it is unexpired. */
  lemma GetReturnsLastStored(tables: seq<Table>, events: seq<Event>, n: nat)
    requires Run(tables, events) && n < |events| && events[n].op.Get?
    ensures var spec, e := LastStored(events, n), events[n].op.endpoint;
      events[n].op.found ==
        if e in spec && spec[e].expiresAt > events[n].now then Some(spec[e].token) else None
  {
    RunAgrees(tables, events, n);
    RunStep(tables, events, n);
    hide Run, Stored, LastStored, ScanStep;
  }

  /** A token is accepted exactly when it is the unexpired last grant of some endpoint there. */
  lemma ValidateAcceptsLastStored(tables: seq<Table>, events: seq<Event>, n: nat)
    requires Run(tables, events) && n < |events| && events[n].op.Validate?
    ensures var spec, op := LastStored(events, n), events[n].op;
      op.accepted <==> (op.token != "" &&
        exists e :: e in spec && e.ip == op.ip && spec[e].token == op.token && spec[e].expiresAt > events[n].now)
  {
    RunAgrees(tables, events, n);
    RunStep(tables, events, n);
    hide Run, Stored, LastStored, ScanStep;
    var spec, op := LastStored(events, n), events[n].op;
    var live := Unexpired(spec, events[n].now);
    assert forall e :: e in live <==> e in spec && spec[e].expiresAt > events[n].now;
  }

  // ----- when a store is refused -----

  lemma {:induction false} StoredWithin(tables: seq<Table>, events: seq<Event>, n: nat)
    requires Run(tables, events) && n <= |events|
    ensures WellFormed(tables[n]) && Stored(tables[n]).Keys <= LastStored(events, n).Keys
  {
    hide Run, Stored, Step;
    if n == 0 {
      RunStart(tables, events, 0);
      NothingStored(tables, events);
    } else {
      StoredWithin(tables, events, n - 1);
      RunStep(tables, events, n - 1);
      StepWithin(tables[n - 1], tables[n], events[n - 1], LastStored(events, n - 1));
    }
  }

  lemma NothingStored(tables: seq<Table>, events: seq<Event>)
    requires Run(tables, events)
    ensures WellFormed(tables[0]) && Stored(tables[0]) == map[]
  {
    hide Step;
  }

  lemma StepWithin(t: Table, t': Table, event: Event, spec: map<Endpoint, Grant>)
    requires WellFormed(t) && Stored(t).Keys <= spec.Keys && Step(t, t', event)
    ensures WellFormed(t')
    ensures Stored(t').Keys <= (match event.op case Store(e, g, true) => spec[e := g] case _ => spec).Keys
  {
    hide Stored, RoomFor, Unexpired;
    match event.op
    case Store(_, _, _) =>
    case Get(_, _) => assert ScanStep(t, t', event.now);
    case Validate(_, _, _) => assert ScanStep(t, t', event.now);
  }

  /** In every run a store succeeds if its endpoint's last token is unexpired, or fewer than 64 endpoints
      were ever given one; so it is refused only in a table that has seen 64. */
  lemma StoreSucceeds(tables: seq<Table>, events: seq<Event>, n: nat)
    requires Run(tables, events) && n < |events| && events[n].op.Store?
    ensures var spec, e := LastStored(events, n), events[n].op.endpoint;
      (e in spec && spec[e].expiresAt > events[n].now) || |spec| < 64 ==> events[n].op.stored
  {
    StoredWithin(tables, events, n);
    RunAgrees(tables, events, n);
    RunStep(tables, events, n);
    hide Run, Stored, LastStored;
    var spec, e, t := LastStored(events, n), events[n].op.endpoint, tables[n];
    SubsetSize(Stored(t).Keys, spec.Keys);
    if e in spec && spec[e].expiresAt > events[n].now {
      assert e in Unexpired(spec, events[n].now);
      assert e in Unexpired(Stored(t), events[n].now);
    }
  }

  /** What one would expect of a table of 64 grants with expiry times. */
  ghost predicate RefusedOnlyWhenFull(t: Table, e: Endpoint, ok: bool, now: int)
    requires WellFormed(t)
  {
    var live := Unexpired(Stored(t), now);
    ok <==> e in live || |live| < MAX_PEER_TOKENS
  }

  lemma UnexpiredSize(m: map<Endpoint, Grant>, now: int)
    ensures |Unexpired(m, now)| <= |m|
    ensures |Unexpired(m, now)| == |m| <==> Unexpired(m, now) == m
  {
    var u := Unexpired(m, now);
    assert u.Keys <= m.Keys;
    SubsetSize(u.Keys, m.Keys);
    assert u.Keys == m.Keys ==> u == m;
  }

  lemma SubsetSize(a: set<Endpoint>, b: set<Endpoint>)
    requires a <= b
    ensures |a| <= |b| && (|a| == |b| <==> a == b)
  {
    assert b == a + (b - a);
  }

  /** The store never looks at expiry times, so it meets that expectation exactly when it found
      room without doing so, or nothing in the table has expired. */
  lemma StoreMeetsExpectationIff(t: Table, t': Table, e: Endpoint, g: Grant, ok: bool, now: int)
    requires UpsertStep(t, t', e, g, ok)
    ensures RefusedOnlyWhenFull(t, e, ok, now) <==> RoomFor(t, e) || Unexpired(Stored(t), now) == Stored(t)
  {
    FullTable(t);
    UnexpiredSize(Stored(t), now);
    hide Stored;
    var stored, live := Stored(t), Unexpired(Stored(t), now);
    if e in stored && e !in live {
      assert live != stored;
    }
  }

  /** Grants stored at time 0, good for seven days, for different ports of one address. */
  const SEVEN_DAY_GRANT: Grant := Grant("peer", "t", PAIR_TOKEN_TTL_SECONDS)

  function PeerAt(i: nat): Endpoint {
    Endpoint("10.0.0.1", i + 1)
  }

  /** The first `n` slots hold such grants. */
  function Stale(n: nat): Table {
    seq(MAX_PEER_TOKENS, i requires 0 <= i => Record(i < n, "10.0.0.1", "peer", i + 1, "t", PAIR_TOKEN_TTL_SECONDS))
  }

  lemma StaleStep(n: nat)
    requires n <= MAX_PEER_TOKENS
    ensures WellFormed(Stale(n))
    ensures UpsertStep(Stale(n), Stale(if n < MAX_PEER_TOKENS then n + 1 else n),
                       PeerAt(n), SEVEN_DAY_GRANT, n < MAX_PEER_TOKENS)
  {
    var t, r := Stale(n), Record(true, "10.0.0.1", "peer", n + 1, "t", PAIR_TOKEN_TTL_SECONDS);
    assert forall i :: 0 <= i < |t| ==> EndpointOf(t[i]).port == i + 1;
    hide Stored;
    if n < MAX_PEER_TOKENS {
      assert t[n := r] == Stale(n + 1);
      UpsertNew(t, n, r);
    } else {
      UpsertFull(t, PeerAt(n), SEVEN_DAY_GRANT);
    }
  }

  /** A run in which a store is refused although no grant is live: 64 grants were stored, each good
      for seven days, have all just expired, and no reader has scanned them since. */
  lemma ExpiredGrantsBlockStore() returns (tables: seq<Table>, events: seq<Event>)
    ensures Run(tables, events) && |events| == MAX_PEER_TOKENS + 1 == 65
    ensures forall n :: 0 <= n <= MAX_PEER_TOKENS ==>
      events[n].op.Store? && 1 <= events[n].op.endpoint.port <= 65535
    ensures forall n :: 0 <= n < MAX_PEER_TOKENS ==>
      events[n].op.stored && events[n].op.grant.expiresAt == events[n].now + PAIR_TOKEN_TTL_SECONDS
    ensures !events[MAX_PEER_TOKENS].op.stored && WellFormed(tables[MAX_PEER_TOKENS])
    ensures Unexpired(Stored(tables[MAX_PEER_TOKENS]), events[MAX_PEER_TOKENS].now) == map[]
  {
    hide Stored, UpsertStep;
    var last := MAX_PEER_TOKENS;
    tables := seq(last + 2, i requires 0 <= i => Stale(if i <= last then i else last));
    events := seq(last + 1, i requires 0 <= i =>
      Event(Store(PeerAt(i), SEVEN_DAY_GRANT, i < last), if i < last then 0 else PAIR_TOKEN_TTL_SECONDS));
    forall n | 0 <= n < |events| ensures Step(tables[n], tables[n + 1], events[n]) {
      StaleStep(n);
    }
    StaleStep(0);
    StaleStep(last);
    StaleNotLive();
  }

  lemma StaleNotLive()
    requires WellFormed(Stale(MAX_PEER_TOKENS))
    ensures Unexpired(Stored(Stale(MAX_PEER_TOKENS)), PAIR_TOKEN_TTL_SECONDS) == map[]
  {
    var t := Stale(MAX_PEER_TOKENS);
    assert forall i :: 0 <= i < |t| ==> GrantOf(t[i]).expiresAt == PAIR_TOKEN_TTL_SECONDS;
    hide Stored;
  }
}

/** Pairing between two nodes: the receiver issues a token to the initiator's endpoint and prints
    it in its reply; the initiator reads the reply and stores the token under the receiver's
    endpoint (src/server.c, src/transfer.c, src/auth.c). */
module Pairing {
  import opened Text
  import opened PeerTokens
  import PairResponse

  /** Two nodes at stable addresses with one clock. */
  datatype Nodes = Nodes(here: Endpoint, there: Endpoint, hereTable: Table, thereTable: Table) {
    function Swap(): Nodes {
      Nodes(there, here, thereTable, hereTable)
    }

    ghost predicate Valid() {
      here != there && WellFormed(hereTable) && WellFormed(thereTable)
    }
  }

  /** A delivered exchange started by `here`: the receiver's message and token go through the
      printed reply, and what the initiator stores is what it reads there. Its store's outcome is
      ignored, as in the handler. */
  ghost predicate Exchange(s: Nodes, s': Nodes, message: string, token: string, now: int,
                           hereName: string, thereName: string)
    requires s.Valid()
  {
    var expiresAt := now + PAIR_TOKEN_TTL_SECONDS;
    var reply := PairResponse.Response(message, token, expiresAt);
    && s'.here == s.here && s'.there == s.there
    && UpsertStep(s.thereTable, s'.thereTable, s.here, Grant(hereName, token, expiresAt), true)
    && var read := PairResponse.FieldText(reply, "token");
       var until := PairResponse.FieldLong(reply, "expires_at");
       && read.Some? && until.Some?
       && exists stored :: UpsertStep(s.hereTable, s'.hereTable, s.there,
            Grant(thereName, PairResponse.Truncate(read.value, 65), until.value), stored)
  }

  /** Each node's unexpired grant for the other carries the same token and expiry, or neither has one. */
  ghost predicate Agree(s: Nodes, now: int)
    requires s.Valid()
  {
    var a, b := Unexpired(Stored(s.hereTable), now), Unexpired(Stored(s.thereTable), now);
    && (s.there in a <==> s.here in b)
    && (s.there in a ==> a[s.there].token == b[s.here].token && a[s.there].expiresAt == b[s.here].expiresAt)
  }

  /** Tokens as the generator makes them: 64 hexadecimal digits. */
  predicate IsToken(token: string) {
    |token| == 64 && forall i :: 0 <= i < |token| ==> '0' <= token[i] <= '9' || 'a' <= token[i] <= 'f'
  }

  predicate ClockInRange(now: int) {
    0 <= now && now + PAIR_TOKEN_TTL_SECONDS <= PairResponse.LONG_MAX
  }

  /** What the initiator reads from the reply is what the receiver stored. */
  lemma ReplyDelivers(message: string, token: string, now: int)
    requires IsToken(token) && ClockInRange(now)
    ensures var reply := PairResponse.Response(message, token, now + PAIR_TOKEN_TTL_SECONDS);
      && PairResponse.FieldText(reply, "token") == Some(token)
      && PairResponse.Truncate(token, 65) == token
      && PairResponse.FieldLong(reply, "expires_at") == Some(now + PAIR_TOKEN_TTL_SECONDS)
  {
    hide PairResponse.Response, PairResponse.FieldText, PairResponse.FieldLong;
    PairResponse.TokenRoundTrip(message, token, now + PAIR_TOKEN_TTL_SECONDS);
    PairResponse.ExpiryRoundTrip(message, token, now + PAIR_TOKEN_TTL_SECONDS);
  }

  /** An exchange in terms of the two tables alone: one grant, stored on both sides. */
  lemma ExchangeStores(s: Nodes, s': Nodes, message: string, token: string, now: int,
                       hereName: string, thereName: string) returns (stored: bool)
    requires s.Valid() && IsToken(token) && ClockInRange(now)
    requires Exchange(s, s', message, token, now, hereName, thereName)
    ensures s'.here == s.here && s'.there == s.there
    ensures var expiresAt := now + PAIR_TOKEN_TTL_SECONDS;
      && UpsertStep(s.hereTable, s'.hereTable, s.there, Grant(thereName, token, expiresAt), stored)
      && UpsertStep(s.thereTable, s'.thereTable, s.here, Grant(hereName, token, expiresAt), true)
  {
    ReplyDelivers(message, token, now);
    hide PairResponse.Response, PairResponse.FieldText, PairResponse.FieldLong, PairResponse.Truncate, UpsertStep;
    stored :| UpsertStep(s.hereTable, s'.hereTable, s.there,
                         Grant(thereName, token, now + PAIR_TOKEN_TTL_SECONDS), stored);
  }

  /** Whenever the receiver has room for the initiator's grant, an exchange can take place, with any
      message and any token. */
  lemma ExchangeIsPossible(s: Nodes, message: string, token: string, now: int, hereName: string, thereName: string)
    returns (s': Nodes)
    requires s.Valid() && IsToken(token) && ClockInRange(now) && RoomFor(s.thereTable, s.here)
    ensures Exchange(s, s', message, token, now, hereName, thereName)
  {
    hide PairResponse.Response, PairResponse.FieldText, PairResponse.FieldLong, PairResponse.Truncate;
    hide Stored, RoomFor, UpsertStep, IsToken, ClockInRange, WellFormed;
    var expiresAt := now + PAIR_TOKEN_TTL_SECONDS;
    ReplyDelivers(message, token, now);
    var there, ok := UpsertHasOutcome(s.thereTable,
                                      Record(true, s.here.ip, hereName, s.here.port, token, expiresAt));
    var here, stored := UpsertHasOutcome(s.hereTable,
                                         Record(true, s.there.ip, thereName, s.there.port, token, expiresAt));
    s' := Nodes(s.here, s.there, here, there);
  }

  lemma StoredGrant(t: Table, t': Table, e: Endpoint, g: Grant, ok: bool, now: int)
    requires UpsertStep(t, t', e, g, ok) && now < g.expiresAt
    ensures e in Unexpired(Stored(t'), now) <==> RoomFor(t, e)
    ensures RoomFor(t, e) ==> Unexpired(Stored(t'), now)[e] == g
  {
    hide Stored;
  }

  /** A delivered exchange leaves the nodes agreeing exactly when the initiator had room to store
      the token: the receiver has committed either way. */
  lemma ExchangeAgreesIff(s: Nodes, s': Nodes, message: string, token: string, now: int,
                          hereName: string, thereName: string)
    requires s.Valid() && IsToken(token) && ClockInRange(now)
    requires Exchange(s, s', message, token, now, hereName, thereName)
    ensures s'.Valid()
    ensures Agree(s', now) <==> RoomFor(s.hereTable, s.there)
    ensures RoomFor(s.hereTable, s.there) ==>
      s'.there in Unexpired(Stored(s'.hereTable), now)
      && Unexpired(Stored(s'.hereTable), now)[s'.there].token == token
  {
    var stored := ExchangeStores(s, s', message, token, now, hereName, thereName);
    hide Stored, Exchange, Unexpired, RoomFor;
    var expiresAt := now + PAIR_TOKEN_TTL_SECONDS;
    StoredGrant(s.hereTable, s'.hereTable, s.there, Grant(thereName, token, expiresAt), stored, now);
    StoredGrant(s.thereTable, s'.thereTable, s.here, Grant(hereName, token, expiresAt), true, now);
  }

  // ----- any run of exchanges in both directions -----

  datatype Event =
    /** A delivered exchange, started by `here` or by `there`. */
    | Paired(byHere: bool, message: string, token: string, initiatorName: string, receiverName: string)
    /** A grant for some third endpoint, at either node, stored or refused. */
    | OtherStored(atHere: bool, endpoint: Endpoint, grant: Grant, stored: bool)
    /** Any lookup or validation, at either node. */
    | Looked(atHere: bool)

  datatype Timed = Timed(event: Event, now: int)

  ghost predicate Step(s: Nodes, s': Nodes, e: Timed)
    requires s.Valid()
  {
    match e.event
    case Paired(byHere, message, token, initiatorName, receiverName) =>
      && IsToken(token) && ClockInRange(e.now)
      && if byHere then Exchange(s, s', message, token, e.now, initiatorName, receiverName)
         else Exchange(s.Swap(), s'.Swap(), message, token, e.now, initiatorName, receiverName)
    case OtherStored(atHere, endpoint, grant, stored) =>
      if atHere then
        && s' == s.(hereTable := s'.hereTable) && endpoint != s.there
        && UpsertStep(s.hereTable, s'.hereTable, endpoint, grant, stored)
      else
        && s' == s.(thereTable := s'.thereTable) && endpoint != s.here
        && UpsertStep(s.thereTable, s'.thereTable, endpoint, grant, stored)
    case Looked(atHere) =>
      if atHere then s' == s.(hereTable := s'.hereTable) && ScanStep(s.hereTable, s'.hereTable, e.now)
      else s' == s.(thereTable := s'.thereTable) && ScanStep(s.thereTable, s'.thereTable, e.now)
  }

  /** The initiator of an exchange has room for the receiver's token. */
  ghost predicate InitiatorHasRoom(s: Nodes, e: Timed)
    requires s.Valid()
  {
    e.event.Paired? ==> if e.event.byHere then RoomFor(s.hereTable, s.there) else RoomFor(s.thereTable, s.here)
  }

  ghost predicate Run(states: seq<Nodes>, events: seq<Timed>) {
    && |states| == |events| + 1
    && (forall n :: 0 <= n < |states| ==> states[n].Valid())
    && AllInactive(states[0].hereTable) && AllInactive(states[0].thereTable)
    && (forall n :: 0 <= n < |events| ==>
          Step(states[n], states[n + 1], events[n]) && InitiatorHasRoom(states[n], events[n]))
    && (forall n :: 0 < n < |events| ==> events[n - 1].now <= events[n].now)
  }

  datatype Shared = Shared(token: string, expiresAt: int)

  /** The token and expiry of the last exchange among the first `n` events. */
  function LastShared(events: seq<Timed>, n: nat): Option<Shared>
    requires n <= |events|
  {
    if n == 0 then None
    else if events[n - 1].event.Paired? then
      Some(Shared(events[n - 1].event.token, events[n - 1].now + PAIR_TOKEN_TTL_SECONDS))
    else LastShared(events, n - 1)
  }

  /** A table's view of one endpoint: the shared token while it is good, and nothing after. */
  ghost predicate Shows(t: Table, e: Endpoint, shared: Option<Shared>, now: int)
    requires WellFormed(t)
  {
    var live := Unexpired(Stored(t), now);
    if shared.Some? && shared.value.expiresAt > now then
      e in live && live[e].token == shared.value.token && live[e].expiresAt == shared.value.expiresAt
    else e !in live
  }

  ghost predicate BothShow(s: Nodes, shared: Option<Shared>, now: int)
    requires s.Valid()
  {
    Shows(s.hereTable, s.there, shared, now) && Shows(s.thereTable, s.here, shared, now)
  }

  lemma ShowsLater(t: Table, e: Endpoint, shared: Option<Shared>, now: int, later: int)
    requires WellFormed(t) && Shows(t, e, shared, now) && now <= later
    ensures Shows(t, e, shared, later)
  {
    hide Stored;
    assert e in Unexpired(Stored(t), later) ==> e in Unexpired(Stored(t), now);
  }

  lemma ShowsScan(t: Table, t': Table, e: Endpoint, shared: Option<Shared>, now: int)
    requires WellFormed(t) && Shows(t, e, shared, now) && ScanStep(t, t', now)
    ensures Shows(t', e, shared, now)
  {
    hide Stored;
  }

  lemma ShowsOther(t: Table, t': Table, e: Endpoint, k: Endpoint, g: Grant, ok: bool, shared: Option<Shared>, now: int)
    requires WellFormed(t) && Shows(t, e, shared, now) && UpsertStep(t, t', k, g, ok) && k != e
    ensures Shows(t', e, shared, now)
  {
    hide Stored;
  }

  lemma ExchangeShows(s: Nodes, s': Nodes, message: string, token: string, now: int,
                      hereName: string, thereName: string)
    requires s.Valid() && IsToken(token) && ClockInRange(now) && RoomFor(s.hereTable, s.there)
    requires Exchange(s, s', message, token, now, hereName, thereName)
    ensures s'.Valid() && BothShow(s', Some(Shared(token, now + PAIR_TOKEN_TTL_SECONDS)), now)
  {
    var stored := ExchangeStores(s, s', message, token, now, hereName, thereName);
    hide Stored, Exchange, Unexpired, RoomFor;
    var expiresAt := now + PAIR_TOKEN_TTL_SECONDS;
    StoredGrant(s.hereTable, s'.hereTable, s.there, Grant(thereName, token, expiresAt), stored, now);
    StoredGrant(s.thereTable, s'.thereTable, s.here, Grant(hereName, token, expiresAt), true, now);
  }

  lemma StepShows(s: Nodes, s': Nodes, e: Timed, shared: Option<Shared>)
    requires s.Valid() && s'.Valid() && Step(s, s', e) && InitiatorHasRoom(s, e) && BothShow(s, shared, e.now)
    ensures BothShow(s', if e.event.Paired? then Some(Shared(e.event.token, e.now + PAIR_TOKEN_TTL_SECONDS))
                         else shared, e.now)
  {
    hide Shows, Exchange, RoomFor, ScanStep, UpsertStep, IsToken;
    match e.event
    case Paired(byHere, message, token, initiatorName, receiverName) =>
      if byHere {
        ExchangeShows(s, s', message, token, e.now, initiatorName, receiverName);
      } else {
        ExchangeShows(s.Swap(), s'.Swap(), message, token, e.now, initiatorName, receiverName);
      }
    case OtherStored(atHere, endpoint, grant, stored) =>
      if atHere {
        ShowsOther(s.hereTable, s'.hereTable, s.there, endpoint, grant, stored, shared, e.now);
      } else {
        ShowsOther(s.thereTable, s'.thereTable, s.here, endpoint, grant, stored, shared, e.now);
      }
    case Looked(atHere) =>
      if atHere {
        ShowsScan(s.hereTable, s'.hereTable, s.there, shared, e.now);
      } else {
        ShowsScan(s.thereTable, s'.thereTable, s.here, shared, e.now);
      }
  }

  lemma RunStart(states: seq<Nodes>, events: seq<Timed>, now: int)
    requires Run(states, events)
    ensures states[0].Valid() && BothShow(states[0], None, now)
  {
    hide Step, InitiatorHasRoom;
  }

  lemma RunStep(states: seq<Nodes>, events: seq<Timed>, n: nat)
    requires Run(states, events) && n < |events|
    ensures |states| == |events| + 1 && states[n].Valid() && states[n + 1].Valid()
    ensures Step(states[n], states[n + 1], events[n]) && InitiatorHasRoom(states[n], events[n])
    ensures n > 0 ==> events[n - 1].now <= events[n].now
  {
    hide Step, InitiatorHasRoom, Nodes.Valid;
  }

  /** Main result: after every event of every run, whoever started the exchanges and in whatever
      order, both nodes hold the token of the last exchange until it expires, and none after. */
  lemma {:induction false} RunShows(states: seq<Nodes>, events: seq<Timed>, n: nat)
    requires Run(states, events) && n < |events|
    ensures states[n + 1].Valid() && BothShow(states[n + 1], LastShared(events, n + 1), events[n].now)
  {
    hide Run, Step, InitiatorHasRoom, Shows;
    RunStep(states, events, n);
    var shared := LastShared(events, n);
    if n == 0 {
      RunStart(states, events, events[0].now);
    } else {
      RunShows(states, events, n - 1);
      ShowsLater(states[n].hereTable, states[n].there, shared, events[n - 1].now, events[n].now);
      ShowsLater(states[n].thereTable, states[n].here, shared, events[n - 1].now, events[n].now);
    }
    StepShows(states[n], states[n + 1], events[n], shared);
  }

  lemma ExchangedToken(s: Nodes, s': Nodes, e: Timed)
    requires s.Valid() && Step(s, s', e)
    ensures e.event.Paired? ==> IsToken(e.event.token)
  {
    hide Exchange, UpsertStep, ScanStep, IsToken;
  }

  lemma {:induction false} LastSharedIsToken(states: seq<Nodes>, events: seq<Timed>, n: nat)
    requires Run(states, events) && n <= |events|
    ensures var shared := LastShared(events, n); shared.Some? ==> IsToken(shared.value.token)
  {
    hide Run, InitiatorHasRoom, IsToken, Step, Nodes.Valid;
    if n > 0 {
      RunStep(states, events, n - 1);
      ExchangedToken(states[n - 1], states[n], events[n - 1]);
      LastSharedIsToken(states, events, n - 1);
    }
  }

  /** What one node looks up for the other, the other accepts from it. */
  lemma LookupIsAccepted(s: Nodes, shared: Option<Shared>, now: int, t1: Table, found: Option<string>,
                         t2: Table, accepted: bool)
    requires s.Valid() && BothShow(s, shared, now) && (shared.Some? ==> IsToken(shared.value.token))
    requires GetStep(s.hereTable, t1, s.there, now, found)
    requires found.Some? ==> ValidateStep(s.thereTable, t2, s.here.ip, found.value, now, accepted)
    ensures found == if shared.Some? && shared.value.expiresAt > now then Some(shared.value.token) else None
    ensures found.Some? ==> accepted
  {
    hide Stored, ScanStep;
  }

  /** The same over runs and in both directions: at any moment up to the next event, a lookup at
      either node succeeds exactly while the last exchange's token is good, and the other node
      accepts what it returns. */
  lemma PairedNodesAuthorize(states: seq<Nodes>, events: seq<Timed>, n: nat, now: int, atHere: bool,
                             t1: Table, found: Option<string>, t2: Table, accepted: bool)
    requires Run(states, events) && n < |events| && events[n].now <= now
    requires states[n + 1].Valid()
    requires var s := if atHere then states[n + 1] else states[n + 1].Swap();
      && GetStep(s.hereTable, t1, s.there, now, found)
      && (found.Some? ==> ValidateStep(s.thereTable, t2, s.here.ip, found.value, now, accepted))
    ensures var shared := LastShared(events, n + 1);
      found == if shared.Some? && shared.value.expiresAt > now then Some(shared.value.token) else None
    ensures found.Some? ==> accepted
  {
    RunShows(states, events, n);
    LastSharedIsToken(states, events, n + 1);
    hide Run, GetStep, ValidateStep, Shows, LastShared, IsToken;
    var s := if atHere then states[n + 1] else states[n + 1].Swap();
    var shared := LastShared(events, n + 1);
    ShowsLater(s.hereTable, s.there, shared, events[n].now, now);
    ShowsLater(s.thereTable, s.here, shared, events[n].now, now);
    LookupIsAccepted(s, shared, now, t1, found, t2, accepted);
  }
}

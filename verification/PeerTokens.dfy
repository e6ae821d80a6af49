/** The peer-token table and the pairing code of src/auth.c. */
module PeerTokens {
  import opened Text

  const MAX_PEER_TOKENS: nat := 64
  const PAIRING_CODE_TTL_SECONDS: int := 300
  const PAIR_TOKEN_TTL_SECONDS: int := 604800

  datatype Record = Record(active: bool, peerIp: string, peerName: string, peerPort: nat,
                           token: string, expiresAt: int)

  type Table = seq<Record>

  datatype Endpoint = Endpoint(ip: string, port: nat)

  datatype Grant = Grant(name: string, token: string, expiresAt: int)

  // ----- the table read as a map -----

  function EndpointOf(r: Record): Endpoint {
    Endpoint(r.peerIp, r.peerPort)
  }

  function GrantOf(r: Record): Grant {
    Grant(r.peerName, r.token, r.expiresAt)
  }

  ghost predicate WellFormed(t: Table) {
    && |t| == MAX_PEER_TOKENS
    && forall i, j :: 0 <= i < j < |t| && t[i].active && t[j].active ==> EndpointOf(t[i]) != EndpointOf(t[j])
  }

  /** What the active slots hold, expired or not. */
  ghost function Stored(t: Table): (m: map<Endpoint, Grant>)
    requires WellFormed(t)
    ensures forall i :: 0 <= i < |t| && t[i].active ==> EndpointOf(t[i]) in m && m[EndpointOf(t[i])] == GrantOf(t[i])
    ensures forall e :: e in m ==>
      exists i :: 0 <= i < |t| && t[i].active && EndpointOf(t[i]) == e && m[e] == GrantOf(t[i])
  {
    map i | 0 <= i < |t| && t[i].active :: EndpointOf(t[i]) := GrantOf(t[i])
  }

  /** The grants of a map that have not expired. */
  function Unexpired(m: map<Endpoint, Grant>, now: int): map<Endpoint, Grant> {
    map e | e in m && m[e].expiresAt > now :: m[e]
  }

  // ----- what each operation does to the map -----

  /** A grant can be stored when its endpoint is active, expired or not, or some slot is inactive. */
  ghost predicate RoomFor(t: Table, e: Endpoint)
    requires WellFormed(t)
  {
    e in Stored(t) || |Stored(t)| < MAX_PEER_TOKENS
  }

  ghost predicate UpsertStep(t: Table, t': Table, e: Endpoint, g: Grant, ok: bool) {
    && WellFormed(t) && WellFormed(t')
    && (ok <==> RoomFor(t, e))
    && if ok then Stored(t') == Stored(t)[e := g] else t' == t
  }

  /** A scan forgets some of what had expired, and nothing else. */
  ghost predicate ScanStep(t: Table, t': Table, now: int) {
    && WellFormed(t) && WellFormed(t')
    && (forall e :: e in Stored(t') ==> e in Stored(t) && Stored(t')[e] == Stored(t)[e])
    && (forall e :: e in Stored(t) && e !in Stored(t') ==> Stored(t)[e].expiresAt <= now)
  }

  ghost predicate GetStep(t: Table, t': Table, e: Endpoint, now: int, r: Option<string>) {
    && ScanStep(t, t', now)
    && var live := Unexpired(Stored(t), now);
       r == if e in live then Some(live[e].token) else None
  }

  /** The token is accepted from an address when some unexpired grant of that address carries it. */
  ghost predicate ValidateStep(t: Table, t': Table, ip: string, token: string, now: int, ok: bool) {
    && ScanStep(t, t', now)
    && var live := Unexpired(Stored(t), now);
       ok <==> token != "" && exists e :: e in live && e.ip == ip && live[e].token == token
  }

  /** The state of the pairing half: the code in force and the tokens. */
  datatype Authority = Authority(code: string, codeExpiresAt: int, table: Table)

  /** Showing the pairing code, which makes a fresh one if the last is no longer good. */
  ghost predicate ShowStep(a: Authority, a': Authority, freshCode: Option<string>, now: int,
                           shown: Option<(string, int)>) {
    && a'.table == a.table
    && (a'.code, a'.codeExpiresAt) == CodeAfter(a.code, a.codeExpiresAt, freshCode, now)
    && shown == if CodeGood(a.code, a.codeExpiresAt, now) || freshCode.Some? then Some((a'.code, a'.codeExpiresAt))
                else None
  }

  /** Issuing a token against a provided code. */
  ghost predicate IssueStep(a: Authority, a': Authority, e: Endpoint, name: string, providedCode: string,
                            freshCode: Option<string>, freshToken: Option<string>, now: int,
                            issued: Option<(string, int)>) {
    && WellFormed(a.table)
    && (a'.code, a'.codeExpiresAt) == CodeAfter(a.code, a.codeExpiresAt, freshCode, now)
    && (issued.Some? <==>
          && (CodeGood(a.code, a.codeExpiresAt, now) || freshCode.Some?)
          && a'.code == providedCode && freshToken.Some? && RoomFor(a.table, e))
    && match issued
       case Some((token, expiresAt)) =>
         && freshToken == Some(token) && expiresAt == now + PAIR_TOKEN_TTL_SECONDS
         && UpsertStep(a.table, a'.table, e, Grant(name, token, expiresAt), true)
       case None => a'.table == a.table
  }

  // ----- slots and the map -----

  predicate Writable(t: Table, i: nat, e: Endpoint)
    requires i < |t|
  {
    && (!t[i].active || EndpointOf(t[i]) == e)
    && forall j :: 0 <= j < |t| && j != i && t[j].active ==> EndpointOf(t[j]) != e
  }

  lemma PutWellFormed(t: Table, i: nat, r: Record)
    requires WellFormed(t) && i < |t| && r.active && Writable(t, i, EndpointOf(r))
    ensures WellFormed(t[i := r])
  {
    assert forall j :: 0 <= j < |t| && j != i ==> t[i := r][j] == t[j];
  }

  lemma PutForward(t: Table, i: nat, r: Record)
    requires WellFormed(t) && i < |t| && r.active && WellFormed(t[i := r]) && Writable(t, i, EndpointOf(r))
    ensures var a, b := Stored(t[i := r]), Stored(t)[EndpointOf(r) := GrantOf(r)];
      forall e :: e in a ==> e in b && a[e] == b[e]
  {
    hide Stored, WellFormed;
    var t' := t[i := r];
    var a, b := Stored(t'), Stored(t)[EndpointOf(r) := GrantOf(r)];
    forall e | e in a ensures e in b && a[e] == b[e] {
      var j :| 0 <= j < |t'| && t'[j].active && EndpointOf(t'[j]) == e && a[e] == GrantOf(t'[j]);
      assert j != i ==> t'[j] == t[j];
    }
  }

  lemma PutBackward(t: Table, i: nat, r: Record)
    requires WellFormed(t) && i < |t| && r.active && WellFormed(t[i := r]) && Writable(t, i, EndpointOf(r))
    ensures Stored(t).Keys + {EndpointOf(r)} <= Stored(t[i := r]).Keys
  {
    hide Stored, WellFormed;
    var t' := t[i := r];
    var a, b := Stored(t'), Stored(t);
    assert EndpointOf(t'[i]) in a;
    forall e | e in b && e != EndpointOf(r) ensures e in a {
      var j :| 0 <= j < |t| && t[j].active && EndpointOf(t[j]) == e && b[e] == GrantOf(t[j]);
      assert t'[j] == t[j];
    }
  }

  lemma PutStores(t: Table, i: nat, r: Record)
    requires WellFormed(t) && i < |t| && r.active && Writable(t, i, EndpointOf(r))
    ensures WellFormed(t[i := r]) && Stored(t[i := r]) == Stored(t)[EndpointOf(r) := GrantOf(r)]
  {
    PutWellFormed(t, i, r);
    hide Stored, WellFormed, Writable;
    PutForward(t, i, r);
    PutBackward(t, i, r);
  }

  ghost function StoredKeys(t: Table, n: nat): set<Endpoint>
    requires n <= |t|
  {
    set i | 0 <= i < n && t[i].active :: EndpointOf(t[i])
  }

  predicate AllActive(t: Table, n: nat)
    requires n <= |t|
  {
    forall i :: 0 <= i < n ==> t[i].active
  }

  lemma StoredKeysStep(t: Table, n: nat)
    requires WellFormed(t) && n < |t|
    ensures StoredKeys(t, n + 1) == StoredKeys(t, n) + (if t[n].active then {EndpointOf(t[n])} else {})
    ensures t[n].active ==> EndpointOf(t[n]) !in StoredKeys(t, n)
    ensures AllActive(t, n + 1) <==> AllActive(t, n) && t[n].active
  {
  }

  lemma StoredKeysNone(t: Table)
    ensures StoredKeys(t, 0) == {} && AllActive(t, 0)
  {
  }

  lemma {:induction false} StoredKeysSize(t: Table, n: nat)
    requires WellFormed(t) && n <= |t|
    ensures |StoredKeys(t, n)| <= n
    ensures |StoredKeys(t, n)| == n <==> AllActive(t, n)
  {
    hide StoredKeys, WellFormed, AllActive;
    if n == 0 {
      StoredKeysNone(t);
    } else {
      StoredKeysSize(t, n - 1);
      StoredKeysStep(t, n - 1);
    }
  }

  lemma FullTable(t: Table)
    requires WellFormed(t)
    ensures |Stored(t)| <= MAX_PEER_TOKENS
    ensures |Stored(t)| == MAX_PEER_TOKENS <==> AllActive(t, |t|)
  {
    StoredKeysSize(t, |t|);
    assert Stored(t).Keys == StoredKeys(t, |t|);
  }

  // ----- how each scan ends -----

  lemma UpsertMet(t: Table, i: nat, r: Record)
    requires WellFormed(t) && i < |t| && t[i].active && r.active && EndpointOf(t[i]) == EndpointOf(r)
    ensures UpsertStep(t, t[i := r], EndpointOf(r), GrantOf(r), true)
  {
    PutStores(t, i, r);
    hide Stored;
    assert EndpointOf(t[i]) in Stored(t);
  }

  predicate Absent(t: Table, n: nat, e: Endpoint)
    requires n <= |t|
  {
    forall j :: 0 <= j < n && t[j].active ==> EndpointOf(t[j]) != e
  }

  lemma UpsertNew(t: Table, i: nat, r: Record)
    requires WellFormed(t) && i < |t| && !t[i].active && r.active && Absent(t, |t|, EndpointOf(r))
    ensures UpsertStep(t, t[i := r], EndpointOf(r), GrantOf(r), true)
  {
    PutStores(t, i, r);
    FullTable(t);
    hide Stored;
  }

  lemma UpsertFull(t: Table, e: Endpoint, g: Grant)
    requires WellFormed(t) && AllActive(t, |t|) && Absent(t, |t|, e)
    ensures UpsertStep(t, t, e, g, false)
  {
    FullTable(t);
    hide Stored;
  }

  /** Every table has an outcome for every store. */
  lemma UpsertHasOutcome(t: Table, r: Record) returns (t': Table, ok: bool)
    requires WellFormed(t) && r.active
    ensures UpsertStep(t, t', EndpointOf(r), GrantOf(r), ok) && (ok <==> RoomFor(t, EndpointOf(r)))
  {
    hide Stored, WellFormed;
    if i: nat :| i < |t| && t[i].active && EndpointOf(t[i]) == EndpointOf(r) {
      UpsertMet(t, i, r);
      return t[i := r], true;
    }
    if i: nat :| i < |t| && !t[i].active {
      UpsertNew(t, i, r);
      return t[i := r], true;
    }
    UpsertFull(t, EndpointOf(r), GrantOf(r));
    return t, false;
  }

  /** The table after a scan of its first `n` slots has switched off what expired there. */
  function Swept(t: Table, n: nat, now: int): Table {
    seq(|t|, i requires 0 <= i < |t| => if i < n && t[i].expiresAt <= now then t[i].(active := false) else t[i])
  }

  lemma SweepStep(t: Table, n: nat, now: int)
    requires WellFormed(t)
    ensures ScanStep(t, Swept(t, n, now), now)
  {
    var s := Swept(t, n, now);
    assert forall i :: 0 <= i < |t| ==> EndpointOf(s[i]) == EndpointOf(t[i]) && GrantOf(s[i]) == GrantOf(t[i]);
    assert forall i :: 0 <= i < |t| ==> (s[i].active ==> t[i].active);
    assert forall i :: 0 <= i < |t| ==> (t[i].active && !s[i].active ==> t[i].expiresAt <= now);
    SweepForgets(t, s, now);
  }

  lemma SweepForgets(t: Table, s: Table, now: int)
    requires WellFormed(t) && |s| == |t|
    requires forall i :: 0 <= i < |t| ==> EndpointOf(s[i]) == EndpointOf(t[i]) && GrantOf(s[i]) == GrantOf(t[i])
    requires forall i :: 0 <= i < |t| ==> (s[i].active ==> t[i].active)
    requires forall i :: 0 <= i < |t| ==> (t[i].active && !s[i].active ==> t[i].expiresAt <= now)
    ensures ScanStep(t, s, now)
  {
    assert WellFormed(s);
    hide Stored, WellFormed;
    var a, b := Stored(t), Stored(s);
    forall e | e in b ensures e in a && b[e] == a[e] {
      var i :| 0 <= i < |s| && s[i].active && EndpointOf(s[i]) == e && b[e] == GrantOf(s[i]);
      assert EndpointOf(t[i]) in a;
    }
    forall e | e in a && e !in b ensures a[e].expiresAt <= now {
      var i :| 0 <= i < |t| && t[i].active && EndpointOf(t[i]) == e && a[e] == GrantOf(t[i]);
      assert !s[i].active;
    }
  }

  lemma UnexpiredSlot(t: Table, i: nat, now: int)
    requires WellFormed(t) && i < |t| && t[i].active && t[i].expiresAt > now
    ensures EndpointOf(t[i]) in Unexpired(Stored(t), now)
    ensures Unexpired(Stored(t), now)[EndpointOf(t[i])] == GrantOf(t[i])
  {
    hide Stored;
  }

  lemma SlotOfUnexpired(t: Table, e: Endpoint, now: int) returns (i: nat)
    requires WellFormed(t) && e in Unexpired(Stored(t), now)
    ensures i < |t| && t[i].active && t[i].expiresAt > now && EndpointOf(t[i]) == e
    ensures Unexpired(Stored(t), now)[e] == GrantOf(t[i])
  {
    hide Stored;
    i :| 0 <= i < |t| && t[i].active && EndpointOf(t[i]) == e && Stored(t)[e] == GrantOf(t[i]);
  }

  /** What the two reading scans look for. */
  datatype Search = ByEndpoint(ip: string, port: nat) | ByToken(ip: string, token: string) {
    predicate Hits(r: Record) {
      match this
      case ByEndpoint(ip, port) => r.peerIp == ip && r.peerPort == port
      case ByToken(ip, token) => r.peerIp == ip && r.token == token
    }
  }

  /** A scan of `t` for an unexpired hit has passed `n` slots in vain and left the table as `s`. */
  predicate Scanned(t: Table, s: Table, n: nat, now: int, search: Search) {
    && |t| == MAX_PEER_TOKENS && n <= |t| && s == Swept(t, n, now)
    && forall i :: 0 <= i < n && t[i].active && t[i].expiresAt > now ==> !search.Hits(t[i])
  }

  lemma ScanStart(t: Table, now: int, search: Search)
    requires |t| == MAX_PEER_TOKENS
    ensures Scanned(t, t, 0, now, search)
  {
    assert t == Swept(t, 0, now);
  }

  lemma ScanInactive(t: Table, s: Table, n: nat, now: int, search: Search)
    requires Scanned(t, s, n, now, search) && n < |t| == |s| && !s[n].active
    ensures Scanned(t, s, n + 1, now, search)
  {
    assert s == Swept(t, n + 1, now);
  }

  lemma ScanExpired(t: Table, s: Table, n: nat, now: int, search: Search)
    requires Scanned(t, s, n, now, search) && n < |t| == |s| && s[n].active && s[n].expiresAt <= now
    ensures Scanned(t, s[n := s[n].(active := false)], n + 1, now, search)
  {
    assert s[n := s[n].(active := false)] == Swept(t, n + 1, now);
  }

  lemma ScanOther(t: Table, s: Table, n: nat, now: int, search: Search)
    requires Scanned(t, s, n, now, search) && n < |t| == |s| && s[n].expiresAt > now && !search.Hits(s[n])
    ensures Scanned(t, s, n + 1, now, search)
  {
    assert s == Swept(t, n + 1, now);
  }

  lemma GetHit(t: Table, s: Table, n: nat, now: int, ip: string, port: nat)
    requires WellFormed(t) && Scanned(t, s, n, now, ByEndpoint(ip, port)) && n < |t| == |s|
    requires s[n].active && s[n].expiresAt > now && ByEndpoint(ip, port).Hits(s[n])
    ensures GetStep(t, s, Endpoint(ip, port), now, Some(s[n].token))
  {
    SweepStep(t, n, now);
    UnexpiredSlot(t, n, now);
    hide Stored, ScanStep, Unexpired;
  }

  lemma GetMiss(t: Table, s: Table, now: int, ip: string, port: nat)
    requires WellFormed(t) && Scanned(t, s, |t|, now, ByEndpoint(ip, port))
    ensures GetStep(t, s, Endpoint(ip, port), now, None)
  {
    SweepStep(t, |t|, now);
    hide Stored, ScanStep, Unexpired;
    if Endpoint(ip, port) in Unexpired(Stored(t), now) {
      var i := SlotOfUnexpired(t, Endpoint(ip, port), now);
    }
  }

  lemma ValidateHit(t: Table, s: Table, n: nat, now: int, ip: string, token: string)
    requires WellFormed(t) && Scanned(t, s, n, now, ByToken(ip, token)) && n < |t| == |s| && token != ""
    requires s[n].active && s[n].expiresAt > now && ByToken(ip, token).Hits(s[n])
    ensures ValidateStep(t, s, ip, token, now, true)
  {
    SweepStep(t, n, now);
    UnexpiredSlot(t, n, now);
    hide Stored, ScanStep, Unexpired;
    var live := Unexpired(Stored(t), now);
    assert EndpointOf(t[n]) in live && live[EndpointOf(t[n])].token == token;
  }

  lemma ValidateMiss(t: Table, s: Table, now: int, ip: string, token: string)
    requires WellFormed(t) && Scanned(t, s, |t|, now, ByToken(ip, token))
    ensures ValidateStep(t, s, ip, token, now, false)
  {
    SweepStep(t, |t|, now);
    hide Stored, ScanStep, Unexpired;
    var live := Unexpired(Stored(t), now);
    forall e | e in live ensures !(e.ip == ip && live[e].token == token) {
      var i := SlotOfUnexpired(t, e, now);
    }
  }

  lemma ValidateEmpty(t: Table, now: int, ip: string)
    requires WellFormed(t)
    ensures ValidateStep(t, t, ip, "", now, false)
  {
    hide Stored;
  }

  /** The pairing half of the auth state. Randomness and the clock are arguments: a fresh code or
      token is `None` when the generator fails. */
  class PeerAuth {
    var pairingCode: string
    var pairingCodeExpiresAt: int
    const peerTokens: array<Record>

    ghost predicate Valid()
      reads peerTokens
    {
      WellFormed(peerTokens[..])
    }

    constructor (code: string, now: int)
      ensures Valid() && fresh(peerTokens)
      ensures AllInactive(peerTokens[..])
      ensures pairingCode == code && pairingCodeExpiresAt == now + PAIRING_CODE_TTL_SECONDS
    {
      pairingCode, pairingCodeExpiresAt := code, now + PAIRING_CODE_TTL_SECONDS;
      peerTokens := new Record[MAX_PEER_TOKENS](i => Record(false, "", "", 0, "", 0));
    }

    /** A code that is still good stays; otherwise a fresh one is good for 300 seconds. */
    method EnsurePairingCode(freshCode: Option<string>, now: int) returns (ok: bool)
      modifies `pairingCode, `pairingCodeExpiresAt
      ensures ok <==> CodeGood(old(pairingCode), old(pairingCodeExpiresAt), now) || freshCode.Some?
      ensures (pairingCode, pairingCodeExpiresAt) ==
        CodeAfter(old(pairingCode), old(pairingCodeExpiresAt), freshCode, now)
    {
      if pairingCodeExpiresAt > now && pairingCode != "" {
        return true;
      }
      if freshCode.None? {
        return false;
      }
      pairingCode := freshCode.value;
      pairingCodeExpiresAt := now + PAIRING_CODE_TTL_SECONDS;
      return true;
    }

    ghost function State(): Authority
      reads this, peerTokens
    {
      Authority(pairingCode, pairingCodeExpiresAt, peerTokens[..])
    }

    method GetPairingCode(freshCode: Option<string>, now: int) returns (shown: Option<(string, int)>)
      modifies `pairingCode, `pairingCodeExpiresAt
      ensures ShowStep(old(State()), State(), freshCode, now, shown)
    {
      var ok := EnsurePairingCode(freshCode, now);
      return if ok then Some((pairingCode, pairingCodeExpiresAt)) else None;
    }

    /** The loop of the upsert: stops at the endpoint's active slot, or else passes every slot and
        reports the first inactive one. */
    method FindSlot(ip: string, port: nat) returns (index: nat, emptyIndex: nat)
      requires Valid()
      ensures index <= MAX_PEER_TOKENS && emptyIndex <= MAX_PEER_TOKENS
      ensures index < MAX_PEER_TOKENS ==>
        peerTokens[index].active && EndpointOf(peerTokens[index]) == Endpoint(ip, port)
      ensures index == MAX_PEER_TOKENS ==> Absent(peerTokens[..], MAX_PEER_TOKENS, Endpoint(ip, port))
      ensures index == MAX_PEER_TOKENS ==>
        if emptyIndex < MAX_PEER_TOKENS then !peerTokens[emptyIndex].active
        else AllActive(peerTokens[..], MAX_PEER_TOKENS)
    {
      index, emptyIndex := 0, MAX_PEER_TOKENS;
      while index < MAX_PEER_TOKENS
        invariant index <= MAX_PEER_TOKENS && emptyIndex <= MAX_PEER_TOKENS
        invariant Absent(peerTokens[..], index, Endpoint(ip, port))
        invariant if emptyIndex < MAX_PEER_TOKENS then !peerTokens[emptyIndex].active
                  else AllActive(peerTokens[..], index)
      {
        if peerTokens[index].active && peerTokens[index].peerIp == ip && peerTokens[index].peerPort == port {
          return;
        }
        if !peerTokens[index].active && emptyIndex == MAX_PEER_TOKENS {
          emptyIndex := index;
        }
        index := index + 1;
      }
    }

    method Upsert(ip: string, port: nat, name: string, token: string, expiresAt: int) returns (ok: bool)
      requires Valid()
      modifies peerTokens
      ensures UpsertStep(old(peerTokens[..]), peerTokens[..], Endpoint(ip, port), Grant(name, token, expiresAt), ok)
    {
      ghost var t := peerTokens[..];
      var index, emptyIndex := FindSlot(ip, port);
      var r := Record(true, ip, name, port, token, expiresAt);
      if index < MAX_PEER_TOKENS {
        UpsertMet(t, index, r);
        peerTokens[index] := peerTokens[index].(peerName := name, token := token, expiresAt := expiresAt);
        assert peerTokens[..] == t[index := r];
        return true;
      }
      if emptyIndex == MAX_PEER_TOKENS {
        UpsertFull(t, Endpoint(ip, port), GrantOf(r));
        return false;
      }
      UpsertNew(t, emptyIndex, r);
      peerTokens[emptyIndex] := r;
      assert peerTokens[..] == t[emptyIndex := r];
      return true;
    }

    /** The receiver's half of pairing: a good code buys a fresh token for the caller's endpoint,
        good for seven days. */
    method IssuePairToken(ip: string, name: string, port: nat, providedCode: string,
                          freshCode: Option<string>, freshToken: Option<string>, now: int)
      returns (issued: Option<(string, int)>)
      requires Valid()
      modifies this, peerTokens
      ensures IssueStep(old(State()), State(), Endpoint(ip, port), name, providedCode, freshCode, freshToken, now,
                        issued)
    {
      var ok := EnsurePairingCode(freshCode, now);
      if !ok || pairingCode != providedCode {
        return None;
      }
      if freshToken.None? {
        return None;
      }
      var expiresAt := now + PAIR_TOKEN_TTL_SECONDS;
      hide Stored;
      ok := Upsert(ip, port, name, freshToken.value, expiresAt);
      return if ok then Some((freshToken.value, expiresAt)) else None;
    }

    method GetPeerToken(ip: string, port: nat, now: int) returns (found: Option<string>)
      requires Valid()
      modifies peerTokens
      ensures GetStep(old(peerTokens[..]), peerTokens[..], Endpoint(ip, port), now, found)
    {
      ghost var t, search := peerTokens[..], ByEndpoint(ip, port);
      ScanStart(t, now, search);
      hide Scanned, GetStep, WellFormed;
      var index: nat := 0;
      while index < MAX_PEER_TOKENS
        invariant index <= MAX_PEER_TOKENS
        invariant Scanned(t, peerTokens[..], index, now, search)
      {
        ghost var s := peerTokens[..];
        if !peerTokens[index].active {
          ScanInactive(t, s, index, now, search);
        } else if peerTokens[index].expiresAt <= now {
          ScanExpired(t, s, index, now, search);
          peerTokens[index] := peerTokens[index].(active := false);
          assert peerTokens[..] == s[index := s[index].(active := false)];
        } else if peerTokens[index].peerIp == ip && peerTokens[index].peerPort == port {
          GetHit(t, s, index, now, ip, port);
          return Some(peerTokens[index].token);
        } else {
          ScanOther(t, s, index, now, search);
        }
        index := index + 1;
      }
      GetMiss(t, peerTokens[..], now, ip, port);
      return None;
    }

    method ValidatePeerToken(ip: string, token: string, now: int) returns (ok: bool)
      requires Valid()
      modifies peerTokens
      ensures ValidateStep(old(peerTokens[..]), peerTokens[..], ip, token, now, ok)
    {
      ghost var t, search := peerTokens[..], ByToken(ip, token);
      if token == "" {
        ValidateEmpty(t, now, ip);
        return false;
      }
      ScanStart(t, now, search);
      hide Scanned, ValidateStep, WellFormed;
      var index: nat := 0;
      while index < MAX_PEER_TOKENS
        invariant index <= MAX_PEER_TOKENS
        invariant Scanned(t, peerTokens[..], index, now, search)
      {
        ghost var s := peerTokens[..];
        if !peerTokens[index].active {
          ScanInactive(t, s, index, now, search);
        } else if peerTokens[index].expiresAt <= now {
          ScanExpired(t, s, index, now, search);
          peerTokens[index] := peerTokens[index].(active := false);
          assert peerTokens[..] == s[index := s[index].(active := false)];
        } else if peerTokens[index].peerIp == ip && peerTokens[index].token == token {
          ValidateHit(t, s, index, now, ip, token);
          return true;
        } else {
          ScanOther(t, s, index, now, search);
        }
        index := index + 1;
      }
      ValidateMiss(t, peerTokens[..], now, ip, token);
      return false;
    }
  }

  predicate CodeGood(code: string, expiresAt: int, now: int) {
    expiresAt > now && code != ""
  }

  /** The code and its expiry once a good one has been asked for. */
  function CodeAfter(code: string, expiresAt: int, freshCode: Option<string>, now: int): (string, int) {
    if CodeGood(code, expiresAt, now) || freshCode.None? then (code, expiresAt)
    else (freshCode.value, now + PAIRING_CODE_TTL_SECONDS)
  }

  predicate AllInactive(t: Table) {
    forall i :: 0 <= i < |t| ==> !t[i].active
  }
}

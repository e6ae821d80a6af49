/** The check of a send's target in src/server.c: a port read by strtol, a peer that is active and
    paired, and a token for it. */
module TargetPeers {
  import opened Text
  import PairResponse
  import PR = PeerRegistry
  import PT = PeerTokens
  import PeerTokenRuns
  import Pairing

  const BAD_REQUEST: nat := 400
  const FORBIDDEN: nat := 403
  const MAX_PORT: int := 65535

  // ----- the port -----

  function SpaceSpan(s: string): (n: nat)
    ensures n <= |s| && (forall i :: 0 <= i < n ==> PairResponse.CSpace(s[i]))
    ensures n < |s| ==> !PairResponse.CSpace(s[n])
  {
    if s == "" || !PairResponse.CSpace(s[0]) then 0
    else
      var n := 1 + SpaceSpan(s[1..]);
      assert forall i :: 1 <= i < n ==> s[i] == s[1..][i - 1];
      n
  }

  predicate Signed(s: string) {
    s != "" && (s[0] == '-' || s[0] == '+')
  }

  /** Where strtol in base ten stops: after the digits, or at the start if there are none. */
  function NumberEnd(s: string): (n: nat)
    ensures n <= |s|
  {
    var digitsAt := SpaceSpan(s) + (if Signed(s[SpaceSpan(s)..]) then 1 else 0);
    var digits := DigitSpan(s[digitsAt..]);
    if digits == 0 then 0 else digitsAt + digits
  }

  /** A port field: the whole text is one number from 1 to 65535. */
  function ParsePort(s: string): (port: Option<nat>)
    ensures port.Some? ==> 1 <= port.value <= MAX_PORT
  {
    var v := PairResponse.StrToLong(s);
    if s == "" || NumberEnd(s) != |s| || v <= 0 || v > MAX_PORT then None else Some(v)
  }

  /** Leading space, at most a plus sign, and digits. */
  predicate PortForm(s: string, spaces: string, sign: string, digits: string) {
    && s == spaces + sign + digits && (sign == "" || sign == "+")
    && (forall i :: 0 <= i < |spaces| ==> PairResponse.CSpace(spaces[i]))
    && AllDigits(digits) && digits != ""
  }

  lemma {:induction false} SkipSpaces(spaces: string, rest: string)
    requires forall i :: 0 <= i < |spaces| ==> PairResponse.CSpace(spaces[i])
    requires rest == "" || !PairResponse.CSpace(rest[0])
    ensures SpaceSpan(spaces + rest) == |spaces|
    ensures PairResponse.StrToLong(spaces + rest) == PairResponse.StrToLong(rest)
  {
    if spaces == "" {
      assert spaces + rest == rest;
    } else {
      SkipSpaces(spaces[1..], rest);
      assert (spaces + rest)[1..] == spaces[1..] + rest;
    }
  }

  lemma DigitsValue(sign: string, digits: string)
    requires AllDigits(digits) && digits != "" && (sign == "" || sign == "+")
    ensures var v := DecimalValue(digits);
      PairResponse.StrToLong(sign + digits) == if v > PairResponse.LONG_MAX then PairResponse.LONG_MAX else v
  {
    DigitSpanOfNumber(digits, "");
    assert digits + "" == digits && digits[..|digits|] == digits;
    assert (sign + digits)[|sign|..] == digits;
  }

  lemma NumberEndsAtEnd(spaces: string, sign: string, digits: string)
    requires PortForm(spaces + sign + digits, spaces, sign, digits)
    ensures NumberEnd(spaces + sign + digits) == |spaces + sign + digits|
  {
    hide SpaceSpan, PairResponse.StrToLong, DigitSpan;
    var s, rest := spaces + sign + digits, sign + digits;
    assert s == spaces + rest;
    SkipSpaces(spaces, rest);
    assert s[|spaces|..] == rest && s[|spaces| + |sign|..] == digits + "";
    DigitSpanOfNumber(digits, "");
  }

  /** What is accepted, exactly: optional space, an optional plus, and the digits of a port. */
  lemma PortFormAccepted(s: string, spaces: string, sign: string, digits: string)
    requires PortForm(s, spaces, sign, digits)
    ensures ParsePort(s) == if 1 <= DecimalValue(digits) <= 65535 then Some(DecimalValue(digits)) else None
  {
    hide SpaceSpan, PairResponse.StrToLong, DigitSpan, DecimalValue, NumberEnd;
    NumberEndsAtEnd(spaces, sign, digits);
    assert s == spaces + (sign + digits);
    SkipSpaces(spaces, sign + digits);
    DigitsValue(sign, digits);
  }

  /** A text that is all one number, cut into its parts. */
  lemma NumberParts(s: string) returns (spaces: string, sign: string, digits: string)
    requires s != "" && NumberEnd(s) == |s|
    ensures s == spaces + (sign + digits) && sign in ["", "+", "-"]
    ensures forall i :: 0 <= i < |spaces| ==> PairResponse.CSpace(spaces[i])
    ensures sign + digits == "" || !PairResponse.CSpace((sign + digits)[0])
    ensures AllDigits(digits) && digits != ""
  {
    hide SpaceSpan, DigitSpan;
    var n := SpaceSpan(s);
    var rest := s[n..];
    var k := if Signed(rest) then 1 else 0;
    spaces, sign, digits := s[..n], if k == 0 then "" else [rest[0]], rest[k..];
    assert s[n + k..] == digits;
    assert rest == sign + digits;
  }

  /** And nothing else is. */
  lemma PortHasForm(s: string) returns (spaces: string, sign: string, digits: string)
    requires ParsePort(s).Some?
    ensures PortForm(s, spaces, sign, digits)
  {
    spaces, sign, digits := NumberParts(s);
    hide PairResponse.StrToLong, SpaceSpan, NumberEnd, PairResponse.CSpace, AllDigits;
    Regroup(spaces, sign, digits);
    SkipSpaces(spaces, sign + digits);
    MinusIsNotPositive(digits);
  }

  lemma MinusIsNotPositive(digits: string)
    ensures PairResponse.StrToLong("-" + digits) <= 0
  {
    assert ("-" + digits)[1..] == digits;
  }

  /** A port as the discovery list prints it comes back. */
  lemma PortRoundTrip(port: nat)
    requires 1 <= port <= 65535
    ensures ParsePort(NatString(port)) == Some(port)
  {
    assert "" + "" + NatString(port) == NatString(port);
    DecimalRoundTrip(port);
    hide ParsePort, NatString;
    PortFormAccepted(NatString(port), "", "", NatString(port));
  }

  // ----- the check -----

  datatype Target = Refused(status: nat) | Accepted(port: nat, token: string)

  predicate PairedPeer(peers: seq<PR.Peer>, ip: string, port: nat) {
    exists i :: 0 <= i < |peers| && PR.At(peers[i], ip, port) && peers[i].active && peers[i].paired
  }

  /** What the check decides; `ipOk` is whether the address is well formed. */
  ghost function Check(peers: seq<PR.Peer>, t: PT.Table, ipOk: bool, ip: string, portText: string, now: int): Target
    requires PT.WellFormed(t)
  {
    var port := ParsePort(portText);
    if !ipOk || port.None? then Refused(BAD_REQUEST)
    else
      var live := PT.Unexpired(PT.Stored(t), now);
      var e := PT.Endpoint(ip, port.value);
      if PairedPeer(peers, ip, port.value) && e in live then Accepted(port.value, live[e].token)
      else Refused(FORBIDDEN)
  }

  lemma CheckAnswers(peers: seq<PR.Peer>, t: PT.Table, ip: string, portText: string, port: nat, now: int)
    requires PT.WellFormed(t) && ParsePort(portText) == Some(port)
    ensures !PairedPeer(peers, ip, port) ==> Check(peers, t, true, ip, portText, now) == Refused(FORBIDDEN)
    ensures PairedPeer(peers, ip, port) ==>
      forall t', token | PT.GetStep(t, t', PT.Endpoint(ip, port), now, token) ::
        Check(peers, t, true, ip, portText, now)
          == (match token case None => Refused(FORBIDDEN) case Some(text) => Accepted(port, text))
  {
    hide PT.Stored, ParsePort, PT.WellFormed, PT.ScanStep, PairedPeer;
  }

  method ValidateTargetPeer(registry: PR.Registry, auth: PT.PeerAuth, ipOk: bool, ip: string, portText: string,
                            now: int)
    returns (target: Target)
    requires registry.Valid() && auth.Valid()
    modifies auth.peerTokens
    ensures PT.ScanStep(old(auth.peerTokens[..]), auth.peerTokens[..], now)
    ensures target == Check(old(registry.Peers()), old(auth.peerTokens[..]), ipOk, ip, portText, now)
    ensures target == Refused(BAD_REQUEST) ==> auth.peerTokens[..] == old(auth.peerTokens[..])
  {
    ghost var t, peers := auth.peerTokens[..], registry.Peers();
    if !ipOk {
      return Refused(BAD_REQUEST);
    }
    var port := ParsePort(portText);
    if port.None? {
      return Refused(BAD_REQUEST);
    }
    var found := registry.FindByEndpoint(ip, port.value);
    PairedPeerIs(peers, ip, port.value);
    CheckAnswers(peers, t, ip, portText, port.value, now);
    hide PT.Stored, ParsePort, PT.WellFormed, PR.UniqueEndpoints, Check, PairedPeer;
    if found.None? || !found.value.active {
      return Refused(FORBIDDEN);
    }
    if !found.value.paired {
      return Refused(FORBIDDEN);
    }
    var token := auth.GetPeerToken(ip, port.value, now);
    return if token.None? then Refused(FORBIDDEN) else Accepted(port.value, token.value);
  }

  // ----- over whole runs -----

  /** Main result: a send's target is accepted exactly when its address and port are well formed, it has
      been discovered and not marked inactive since, pairing was the last thing set for it, and the
      last token stored for it has not expired; and that is the token the job will carry. */
  lemma TargetAcceptedIff(ops: seq<PR.Op>, tables: seq<PT.Table>, events: seq<PeerTokenRuns.Event>, n: nat,
                          ipOk: bool, ip: string, portText: string, port: nat, token: string)
    requires PeerTokenRuns.Run(tables, events) && n < |events|
    requires PT.WellFormed(tables[n])
    ensures var spec, e := PeerTokenRuns.LastStored(events, n), PT.Endpoint(ip, port);
      Check(PR.ApplyAll(ops), tables[n], ipOk, ip, portText, events[n].now) == Accepted(port, token) <==>
        && ipOk && ParsePort(portText) == Some(port)
        && PR.StillHere(ops, ip, port) && PR.LastPairing(ops, ip, port)
        && e in spec && spec[e].expiresAt > events[n].now && spec[e].token == token
  {
    PR.RegistryHistory(ops, ip, port);
    PeerTokenRuns.RunAgrees(tables, events, n);
    PairedPeerIs(PR.ApplyAll(ops), ip, port);
    hide PT.Stored, ParsePort, PeerTokenRuns.Run, PR.LastPairing, PR.ApplyAll, PT.WellFormed, PR.StillHere;
    hide PeerTokenRuns.LastStored, PR.Places, PR.Endpoints, PR.LastDiscovery, PairedPeer, PR.UniqueEndpoints;
    PairedIff(PR.ApplyAll(ops), ops, ip, port);
  }

  lemma PairedIff(peers: seq<PR.Peer>, ops: seq<PR.Op>, ip: string, port: nat)
    requires PR.UniqueEndpoints(peers) && PR.Reflects(peers, ops, ip, port)
    ensures PairedPeer(peers, ip, port) <==> PR.StillHere(ops, ip, port) && PR.LastPairing(ops, ip, port)
  {
    PairedPeerIs(peers, ip, port);
    hide PairedPeer, PR.LastPairing, PR.Endpoints, PR.UniqueEndpoints;
  }

  /** A malformed address or port is a bad request and every other refusal a forbidden target. */
  lemma RefusalStatus(peers: seq<PR.Peer>, t: PT.Table, ipOk: bool, ip: string, portText: string, now: int)
    requires PT.WellFormed(t)
    ensures var target := Check(peers, t, ipOk, ip, portText, now);
      && (target == Refused(400) <==> !ipOk || ParsePort(portText).None?)
      && (target.Refused? ==> target.status == 400 || target.status == 403)
  {
    hide PT.Stored, ParsePort, PairedPeer;
  }

  lemma PairedPeerIs(peers: seq<PR.Peer>, ip: string, port: nat)
    requires PR.UniqueEndpoints(peers)
    ensures var i := PR.IndexOf(peers, ip, port);
      PairedPeer(peers, ip, port) <==> i < |peers| && peers[i].active && peers[i].paired
  {
    var i := PR.IndexOf(peers, ip, port);
    if PairedPeer(peers, ip, port) {
      var j :| 0 <= j < |peers| && PR.At(peers[j], ip, port) && peers[j].active && peers[j].paired;
      assert i == j;
    }
  }

  /** And when the peer is the other node of any run of exchanges, the token an accepted target
      gives the job is one that node accepts from here. */
  lemma AcceptedTargetAuthorizes(states: seq<Pairing.Nodes>, events: seq<Pairing.Timed>, n: nat, now: int,
                                 peers: seq<PR.Peer>, portText: string, port: nat, token: string,
                                 t': PT.Table, accepted: bool)
    requires Pairing.Run(states, events) && n < |events| && events[n].now <= now && states[n + 1].Valid()
    requires Check(peers, states[n + 1].hereTable, true, states[n + 1].there.ip, portText, now) == Accepted(port, token)
    requires port == states[n + 1].there.port
    requires PT.ValidateStep(states[n + 1].thereTable, t', states[n + 1].here.ip, token, now, accepted)
    ensures accepted
  {
    var s := states[n + 1];
    GetOfLive(s.hereTable, s.there, now);
    hide Pairing.Run, PT.Stored, PT.ValidateStep, ParsePort;
    Pairing.PairedNodesAuthorize(states, events, n, now, true, s.hereTable, Some(token), t', accepted);
  }

  lemma GetOfLive(t: PT.Table, e: PT.Endpoint, now: int)
    requires PT.WellFormed(t)
    ensures var live := PT.Unexpired(PT.Stored(t), now);
      PT.GetStep(t, t, e, now, if e in live then Some(live[e].token) else None)
  {
    hide PT.Stored;
  }
}

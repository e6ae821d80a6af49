/** The table of discovered peers of src/peer_registry.c: appended in order, never shortened. */
module PeerRegistry {
  import opened Text

  const MAX_PEERS: nat := 50

  datatype Peer = Peer(name: string, ip: string, port: nat, active: bool, paired: bool, lastSeen: int)

  predicate At(p: Peer, ip: string, port: nat) {
    p.ip == ip && p.port == port
  }

  /** The first peer at this endpoint, or the number of peers. */
  function IndexOf(peers: seq<Peer>, ip: string, port: nat, from: nat := 0): (i: nat)
    requires from <= |peers|
    ensures from <= i <= |peers|
    ensures i < |peers| ==> At(peers[i], ip, port)
    ensures forall j :: from <= j < i ==> !At(peers[j], ip, port)
    decreases |peers| - from
  {
    if from == |peers| || At(peers[from], ip, port) then from else IndexOf(peers, ip, port, from + 1)
  }

  predicate UniqueEndpoints(peers: seq<Peer>) {
    forall i, j :: 0 <= i < j < |peers| ==> !At(peers[j], peers[i].ip, peers[i].port)
  }

  datatype Op =
    | AddOrUpdate(name: string, ip: string, port: nat, now: int)
    | MarkInactive(name: string)
    | SetPaired(ip: string, port: nat, paired: bool)

  /** The registry after an operation, and whether it succeeded. */
  function Apply(peers: seq<Peer>, op: Op): (r: (seq<Peer>, bool)) {
    match op
    case AddOrUpdate(name, ip, port, now) =>
      var i := IndexOf(peers, ip, port);
      if i < |peers| then (peers[i := peers[i].(name := name, active := true, lastSeen := now)], true)
      else if |peers| >= MAX_PEERS then (peers, false)
      else (peers + [Peer(name, ip, port, true, false, now)], true)
    case MarkInactive(name) =>
      (seq(|peers|, i requires 0 <= i < |peers| =>
         if peers[i].name == name then peers[i].(active := false) else peers[i]),
       exists i :: 0 <= i < |peers| && peers[i].name == name)
    case SetPaired(ip, port, paired) =>
      var i := IndexOf(peers, ip, port);
      if i < |peers| then (peers[i := peers[i].(paired := paired)], true) else (peers, false)
  }

  /** Endpoints stay unique, places stay fixed, and the table never outgrows its array. */
  lemma ApplyKeeps(peers: seq<Peer>, op: Op)
    requires UniqueEndpoints(peers) && |peers| <= MAX_PEERS
    ensures var after := Apply(peers, op).0;
      && UniqueEndpoints(after) && |peers| <= |after| <= MAX_PEERS
      && forall i :: 0 <= i < |peers| ==> At(after[i], peers[i].ip, peers[i].port)
  {
  }

  /** Discovery news never touches the pairing flag: only a set-paired for the endpoint does. */
  lemma PairingOnlySetExplicitly(peers: seq<Peer>, op: Op, i: nat)
    requires i < |peers| && Apply(peers, op).0[i].paired != peers[i].paired
    ensures op.SetPaired? && At(peers[i], op.ip, op.port) && Apply(peers, op).0[i].paired == op.paired
  {
  }

  function ApplyAll(ops: seq<Op>): (peers: seq<Peer>) {
    if ops == [] then [] else Apply(ApplyAll(ops[..|ops| - 1]), ops[|ops| - 1]).0
  }

  // ----- what a history amounts to, from the operations alone -----

  predicate Discovers(op: Op, ip: string, port: nat) {
    op.AddOrUpdate? && op.ip == ip && op.port == port
  }

  /** The endpoints kept: each at its first discovery, while fewer than 50 have been. */
  function Endpoints(ops: seq<Op>): seq<(string, nat)> {
    if ops == [] then []
    else
      var before, op := Endpoints(ops[..|ops| - 1]), ops[|ops| - 1];
      if op.AddOrUpdate? && (op.ip, op.port) !in before && |before| < 50 then before + [(op.ip, op.port)] else before
  }

  /** The place of the last discovery of this endpoint that was kept, or -1. */
  function LastDiscovery(ops: seq<Op>, ip: string, port: nat): (k: int)
    ensures -1 <= k < |ops|
    ensures k >= 0 ==> Discovers(ops[k], ip, port)
  {
    if ops == [] then -1
    else if Discovers(ops[|ops| - 1], ip, port) && (ip, port) in Endpoints(ops) then |ops| - 1
    else LastDiscovery(ops[..|ops| - 1], ip, port)
  }

  /** The value of the last set-paired for this endpoint since it was first kept, or false. */
  function LastPairing(ops: seq<Op>, ip: string, port: nat): bool {
    if ops == [] then false
    else
      var before, op := ops[..|ops| - 1], ops[|ops| - 1];
      if op.SetPaired? && op.ip == ip && op.port == port && (ip, port) in Endpoints(before) then op.paired
      else LastPairing(before, ip, port)
  }

  /** Nobody has marked the name inactive since the last discovery of the endpoint. */
  predicate StillHere(ops: seq<Op>, ip: string, port: nat) {
    var k := LastDiscovery(ops, ip, port);
    k >= 0 && forall j :: k < j < |ops| ==> ops[j] != MarkInactive(ops[k].name)
  }

  /** The endpoints of a table are these, in this order. */
  predicate Places(peers: seq<Peer>, endpoints: seq<(string, nat)>) {
    && |peers| == |endpoints|
    && forall i :: 0 <= i < |peers| ==> (peers[i].ip, peers[i].port) == endpoints[i]
  }

  /** What the table shows of an endpoint after a history. */
  predicate Reflects(peers: seq<Peer>, ops: seq<Op>, ip: string, port: nat) {
    var i, k := IndexOf(peers, ip, port), LastDiscovery(ops, ip, port);
    && (i < |peers| <==> (ip, port) in Endpoints(ops)) && (k >= 0 <==> (ip, port) in Endpoints(ops))
    && (i < |peers| && k >= 0 ==>
          && peers[i].name == ops[k].name && peers[i].lastSeen == ops[k].now
          && (peers[i].active <==> StillHere(ops, ip, port))
          && peers[i].paired == LastPairing(ops, ip, port))
    && (i == |peers| ==> !LastPairing(ops, ip, port))
  }

  lemma PlacesStep(peers: seq<Peer>, ops: seq<Op>)
    requires ops != [] && Places(peers, Endpoints(ops[..|ops| - 1]))
    ensures Places(Apply(peers, ops[|ops| - 1]).0, Endpoints(ops))
  {
    hide Endpoints, Apply, Places, Discovered;
    var before, op := Endpoints(ops[..|ops| - 1]), ops[|ops| - 1];
    EndpointsLast(ops);
    if op.AddOrUpdate? {
      DiscoveryPlaces(peers, before, op.name, op.ip, op.port, op.now);
    } else {
      OtherPlaces(peers, before, op);
    }
  }

  function Discovered(before: seq<(string, nat)>, ip: string, port: nat): seq<(string, nat)> {
    if (ip, port) !in before && |before| < 50 then before + [(ip, port)] else before
  }

  lemma DiscoveryPlaces(peers: seq<Peer>, before: seq<(string, nat)>, name: string, ip: string, port: nat, now: int)
    requires Places(peers, before)
    ensures Places(Apply(peers, AddOrUpdate(name, ip, port, now)).0, Discovered(before, ip, port))
  {
    PlaceOf(peers, before, ip, port);
    var i := IndexOf(peers, ip, port);
    hide IndexOf;
  }

  lemma OtherPlaces(peers: seq<Peer>, before: seq<(string, nat)>, op: Op)
    requires Places(peers, before) && !op.AddOrUpdate?
    ensures Places(Apply(peers, op).0, before)
  {
    hide IndexOf;
  }

  lemma EndpointsLast(ops: seq<Op>)
    requires ops != []
    ensures var before, op := Endpoints(ops[..|ops| - 1]), ops[|ops| - 1];
      Endpoints(ops) == if op.AddOrUpdate? then Discovered(before, op.ip, op.port) else before
  {
  }

  lemma PlaceOf(peers: seq<Peer>, endpoints: seq<(string, nat)>, ip: string, port: nat)
    requires Places(peers, endpoints)
    ensures IndexOf(peers, ip, port) < |peers| <==> (ip, port) in endpoints
  {
    var i := IndexOf(peers, ip, port);
    if (ip, port) in endpoints {
      var j :| 0 <= j < |endpoints| && endpoints[j] == (ip, port);
      assert At(peers[j], ip, port);
    }
    if i < |peers| {
      assert endpoints[i] == (ip, port);
    }
  }

  lemma LastDiscoveryStep(ops: seq<Op>, ip: string, port: nat)
    requires ops != []
    ensures var before, op, here := ops[..|ops| - 1], ops[|ops| - 1], (ip, port) in Endpoints(ops);
      LastDiscovery(ops, ip, port) ==
        if Discovers(op, ip, port) && here then |ops| - 1 else LastDiscovery(before, ip, port)
    ensures var before, op := ops[..|ops| - 1], ops[|ops| - 1];
      var k := LastDiscovery(before, ip, port);
      StillHere(ops, ip, port) <==>
        if Discovers(op, ip, port) && (ip, port) in Endpoints(ops) then true
        else StillHere(before, ip, port) && op != MarkInactive(before[k].name)
  {
    hide Endpoints;
    var before := ops[..|ops| - 1];
    assert forall j :: 0 <= j < |before| ==> before[j] == ops[j];
  }

  lemma ReflectsStep(peers: seq<Peer>, ops: seq<Op>, ip: string, port: nat)
    requires ops != [] && UniqueEndpoints(peers) && |peers| <= MAX_PEERS
    requires Reflects(peers, ops[..|ops| - 1], ip, port) && Places(peers, Endpoints(ops[..|ops| - 1]))
    ensures Reflects(Apply(peers, ops[|ops| - 1]).0, ops, ip, port)
  {
    var op := ops[|ops| - 1];
    ApplyKeeps(peers, op);
    PlacesStep(peers, ops);
    var after := Apply(peers, op).0;
    SamePlace(peers, after, ip, port);
    PlaceOf(after, Endpoints(ops), ip, port);
    PlaceOf(peers, Endpoints(ops[..|ops| - 1]), ip, port);
    LastDiscoveryStep(ops, ip, port);
    hide StillHere, LastDiscovery;
  }

  /** Main result: over any history the table holds exactly the kept endpoints, in the order they were
      first discovered; each entry's name and time are those of its last discovery, it is active
      exactly when nobody has marked that name inactive since, and its pairing flag is the last set. */
  lemma {:induction false} RegistryHistory(ops: seq<Op>, ip: string, port: nat)
    ensures UniqueEndpoints(ApplyAll(ops)) && |ApplyAll(ops)| <= MAX_PEERS
    ensures Places(ApplyAll(ops), Endpoints(ops))
    ensures Reflects(ApplyAll(ops), ops, ip, port)
  {
    if ops != [] {
      var before := ops[..|ops| - 1];
      RegistryHistory(before, ip, port);
      ApplyKeeps(ApplyAll(before), ops[|ops| - 1]);
      hide Reflects, Places, UniqueEndpoints, Apply;
      ReflectsStep(ApplyAll(before), ops, ip, port);
      PlacesStep(ApplyAll(before), ops);
    }
  }

  /** When an operation succeeds: a discovery if its endpoint is kept or there is room, a set-paired if
      its endpoint is kept, a mark-inactive if some kept endpoint was last discovered under the name. */
  lemma SucceedsIff(ops: seq<Op>, op: Op)
    ensures Apply(ApplyAll(ops), op).1 <==>
      match op
      case AddOrUpdate(_, ip, port, _) => (ip, port) in Endpoints(ops) || |Endpoints(ops)| < 50
      case SetPaired(ip, port, _) => (ip, port) in Endpoints(ops)
      case MarkInactive(name) =>
        exists i :: 0 <= i < |Endpoints(ops)| && NamedLast(ops, Endpoints(ops)[i].0, Endpoints(ops)[i].1, name)
  {
    var peers := ApplyAll(ops);
    RegistryHistory(ops, "", 0);
    match op
    case AddOrUpdate(_, ip, port, _) =>
      RegistryHistory(ops, ip, port);
    case SetPaired(ip, port, _) =>
      RegistryHistory(ops, ip, port);
    case MarkInactive(name) =>
      forall i | 0 <= i < |peers|
        ensures peers[i].name == name <==> NamedLast(ops, Endpoints(ops)[i].0, Endpoints(ops)[i].1, name)
      {
        RegistryHistory(ops, peers[i].ip, peers[i].port);
        var j := IndexOf(peers, peers[i].ip, peers[i].port);
        assert At(peers[i], peers[i].ip, peers[i].port);
        assert j == i;
      }
  }

  predicate NamedLast(ops: seq<Op>, ip: string, port: nat, name: string) {
    var k := LastDiscovery(ops, ip, port);
    k >= 0 && ops[k].name == name
  }

  lemma SamePlace(peers: seq<Peer>, after: seq<Peer>, ip: string, port: nat)
    requires |peers| <= |after| && forall i :: 0 <= i < |peers| ==> At(after[i], peers[i].ip, peers[i].port)
    ensures IndexOf(peers, ip, port) < |peers| ==> IndexOf(after, ip, port) == IndexOf(peers, ip, port)
    ensures IndexOf(peers, ip, port) == |peers| ==> IndexOf(after, ip, port) >= |peers|
  {
    var i := IndexOf(after, ip, port);
    assert i < |peers| ==> At(peers[i], ip, port);
  }

  class Registry {
    const registry: array<Peer>
    var registryCount: nat

    ghost predicate Valid()
      reads this, registry
    {
      registry.Length == MAX_PEERS && registryCount <= MAX_PEERS && UniqueEndpoints(Peers())
    }

    ghost function Peers(): seq<Peer>
      reads this, registry
    {
      if registryCount <= registry.Length then registry[..registryCount] else []
    }

    constructor ()
      ensures Valid() && Peers() == [] && fresh(registry)
    {
      registry := new Peer[MAX_PEERS](i => Peer("", "", 0, false, false, 0));
      registryCount := 0;
    }

    method Find(ip: string, port: nat) returns (index: nat)
      requires Valid()
      ensures index == IndexOf(Peers(), ip, port)
    {
      index := 0;
      while index < registryCount
        invariant index <= registryCount
        invariant IndexOf(Peers(), ip, port) == IndexOf(Peers(), ip, port, index)
      {
        if registry[index].ip == ip && registry[index].port == port {
          return;
        }
        index := index + 1;
      }
    }

    method AddOrUpdatePeer(name: string, ip: string, port: nat, now: int) returns (ok: bool)
      requires Valid()
      modifies this, registry
      ensures Valid() && (Peers(), ok) == Apply(old(Peers()), AddOrUpdate(name, ip, port, now))
    {
      ghost var peers := Peers();
      ApplyKeeps(peers, AddOrUpdate(name, ip, port, now));
      var index := Find(ip, port);
      if index < registryCount {
        registry[index] := registry[index].(name := name, active := true, lastSeen := now);
        assert Peers() == peers[index := registry[index]];
        return true;
      }
      if registryCount >= MAX_PEERS {
        return false;
      }
      registry[registryCount] := Peer(name, ip, port, true, false, now);
      registryCount := registryCount + 1;
      assert Peers() == peers + [registry[registryCount - 1]];
      return true;
    }

    method MarkPeerInactive(name: string) returns (ok: bool)
      requires Valid()
      modifies registry
      ensures Valid() && (Peers(), ok) == Apply(old(Peers()), MarkInactive(name))
    {
      ghost var peers := Peers();
      ApplyKeeps(peers, MarkInactive(name));
      ok := false;
      var index := 0;
      while index < registryCount
        invariant 0 <= index <= registryCount
        invariant forall i :: 0 <= i < index ==>
          registry[i] == if peers[i].name == name then peers[i].(active := false) else peers[i]
        invariant forall i :: index <= i < registryCount ==> registry[i] == peers[i]
        invariant ok <==> exists i :: 0 <= i < index && peers[i].name == name
      {
        if registry[index].name == name {
          registry[index] := registry[index].(active := false);
          ok := true;
        }
        index := index + 1;
      }
      assert Peers() == Apply(peers, MarkInactive(name)).0;
    }

    method SetPeerPaired(ip: string, port: nat, paired: bool) returns (ok: bool)
      requires Valid()
      modifies registry
      ensures Valid() && (Peers(), ok) == Apply(old(Peers()), SetPaired(ip, port, paired))
    {
      ghost var peers := Peers();
      ApplyKeeps(peers, SetPaired(ip, port, paired));
      var index := Find(ip, port);
      if index < registryCount {
        registry[index] := registry[index].(paired := paired);
        assert Peers() == peers[index := registry[index]];
        return true;
      }
      return false;
    }

    method FindByEndpoint(ip: string, port: nat) returns (found: Option<Peer>)
      requires Valid()
      ensures match found
        case Some(p) => p in Peers() && At(p, ip, port) && forall q :: q in Peers() && At(q, ip, port) ==> q == p
        case None => forall q :: q in Peers() ==> !At(q, ip, port)
    {
      var index := Find(ip, port);
      return if index < registryCount then Some(registry[index]) else None;
    }
  }
}

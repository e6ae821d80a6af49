/** The fixed-window rate limiter of src/auth.c: 64 slots, scanned in order and emptied lazily. */
module RateLimiter {

  const MAX_RATE_LIMITS: nat := 64

  datatype Record = Record(active: bool, clientIp: string, scope: string, count: nat, windowStartedAt: int)

  type Table = seq<Record>

  datatype Key = Key(clientIp: string, scope: string)

  datatype Window = Window(startedAt: int, count: nat)

  datatype Call = Call(key: Key, limit: nat, now: int)

  // ----- the table read as a map from keys to unexpired windows -----

  function KeyOf(r: Record): Key {
    Key(r.clientIp, r.scope)
  }

  function WindowOf(r: Record): Window {
    Window(r.windowStartedAt, r.count)
  }

  predicate Unexpired(r: Record, window: int, now: int) {
    r.active && r.windowStartedAt + window > now
  }

  ghost predicate WellFormed(t: Table) {
    && |t| == MAX_RATE_LIMITS
    && forall i, j :: 0 <= i < j < |t| && t[i].active && t[j].active ==> KeyOf(t[i]) != KeyOf(t[j])
  }

  ghost function Live(t: Table, window: int, now: int): (m: map<Key, Window>)
    requires WellFormed(t)
    ensures forall i :: 0 <= i < |t| && Unexpired(t[i], window, now) ==>
      KeyOf(t[i]) in m && m[KeyOf(t[i])] == WindowOf(t[i])
    ensures forall k :: k in m ==>
      exists i :: 0 <= i < |t| && Unexpired(t[i], window, now) && KeyOf(t[i]) == k && m[k] == WindowOf(t[i])
  {
    map i | 0 <= i < |t| && Unexpired(t[i], window, now) :: KeyOf(t[i]) := WindowOf(t[i])
  }

  /** The limiter as documented, on a map without bound: forget what has expired, then count. */
  function MapAllow(live: map<Key, Window>, call: Call): (r: (bool, map<Key, Window>)) {
    if call.key !in live then (true, live[call.key := Window(call.now, 1)])
    else
      var w := live[call.key];
      if w.count >= call.limit then (false, live)
      else (true, live[call.key := Window(w.startedAt, w.count + 1)])
  }

  /** One call to the bounded limiter. It is a call to the unbounded one on the unexpired windows,
      except that a new key is turned away exactly when 64 other keys hold unexpired windows. */
  ghost predicate AllowStep(t: Table, t': Table, window: int, call: Call, allowed: bool) {
    && WellFormed(t) && WellFormed(t')
    && if call.limit == 0 || window <= 0 then !allowed && t' == t
       else
         var live := Live(t, window, call.now);
         var r := if call.key !in live && |live| == MAX_RATE_LIMITS then (false, live) else MapAllow(live, call);
         allowed == r.0 && Live(t', window, call.now) == r.1
  }

  // ----- lemmas about the scan -----

  /** The table after a scan of its first `n` slots has switched off what expired there. */
  function Swept(t: Table, n: nat, window: int, now: int): Table {
    seq(|t|, i requires 0 <= i < |t| =>
      if i < n && !Unexpired(t[i], window, now) then t[i].(active := false) else t[i])
  }

  lemma SweepKeepsLive(t: Table, n: nat, window: int, now: int)
    requires WellFormed(t)
    ensures WellFormed(Swept(t, n, window, now))
    ensures Live(Swept(t, n, window, now), window, now) == Live(t, window, now)
  {
    hide Live;
    var s := Swept(t, n, window, now);
    assert forall i :: 0 <= i < |t| ==> KeyOf(s[i]) == KeyOf(t[i]) && WindowOf(s[i]) == WindowOf(t[i]);
    assert forall i :: 0 <= i < |t| ==> Unexpired(s[i], window, now) == Unexpired(t[i], window, now);
    LiveWithin(s, t, window, now);
    LiveWithin(t, s, window, now);
  }

  lemma LiveWithin(s: Table, t: Table, window: int, now: int)
    requires WellFormed(s) && WellFormed(t)
    requires forall i :: 0 <= i < |s| && Unexpired(s[i], window, now) ==>
      Unexpired(t[i], window, now) && KeyOf(s[i]) == KeyOf(t[i]) && WindowOf(s[i]) == WindowOf(t[i])
    ensures forall k :: k in Live(s, window, now) ==>
      k in Live(t, window, now) && Live(t, window, now)[k] == Live(s, window, now)[k]
  {
    hide Live;
    var a, b := Live(s, window, now), Live(t, window, now);
    forall k | k in a ensures k in b && b[k] == a[k] {
      var i :| 0 <= i < |s| && Unexpired(s[i], window, now) && KeyOf(s[i]) == k && a[k] == WindowOf(s[i]);
      assert KeyOf(t[i]) in b;
    }
  }

  /** A slot that a record with this key may take over: its key's own, or one switched off. */
  predicate Writable(t: Table, i: nat, key: Key)
    requires i < |t|
  {
    && (!t[i].active || KeyOf(t[i]) == key)
    && forall j :: 0 <= j < |t| && j != i && t[j].active ==> KeyOf(t[j]) != key
  }

  lemma PutWellFormed(t: Table, i: nat, r: Record)
    requires WellFormed(t) && i < |t| && Writable(t, i, KeyOf(r))
    ensures WellFormed(t[i := r])
  {
    assert forall j :: 0 <= j < |t| && j != i ==> t[i := r][j] == t[j];
  }

  lemma PutForward(t: Table, i: nat, r: Record, window: int, now: int)
    requires WellFormed(t) && i < |t| && WellFormed(t[i := r]) && Unexpired(r, window, now)
    requires Writable(t, i, KeyOf(r))
    ensures var a, b := Live(t[i := r], window, now), Live(t, window, now)[KeyOf(r) := WindowOf(r)];
      forall k :: k in a ==> k in b && a[k] == b[k]
  {
    hide Live, WellFormed;
    var t' := t[i := r];
    var a, b := Live(t', window, now), Live(t, window, now)[KeyOf(r) := WindowOf(r)];
    forall k | k in a ensures k in b && a[k] == b[k] {
      var j :| 0 <= j < |t'| && Unexpired(t'[j], window, now) && KeyOf(t'[j]) == k && a[k] == WindowOf(t'[j]);
      assert j != i ==> t'[j] == t[j];
    }
  }

  lemma PutBackward(t: Table, i: nat, r: Record, window: int, now: int)
    requires WellFormed(t) && i < |t| && WellFormed(t[i := r]) && Unexpired(r, window, now)
    requires Writable(t, i, KeyOf(r))
    ensures Live(t, window, now).Keys + {KeyOf(r)} <= Live(t[i := r], window, now).Keys
  {
    hide Live, WellFormed;
    var t' := t[i := r];
    var a, b := Live(t', window, now), Live(t, window, now);
    assert KeyOf(t'[i]) in a;
    forall k | k in b && k != KeyOf(r) ensures k in a {
      var j :| 0 <= j < |t| && Unexpired(t[j], window, now) && KeyOf(t[j]) == k;
      assert t'[j] == t[j];
    }
  }

  lemma PutKeepsRest(t: Table, i: nat, r: Record, window: int, now: int)
    requires WellFormed(t) && i < |t| && Unexpired(r, window, now) && Writable(t, i, KeyOf(r))
    ensures WellFormed(t[i := r])
    ensures Live(t[i := r], window, now) == Live(t, window, now)[KeyOf(r) := WindowOf(r)]
  {
    PutWellFormed(t, i, r);
    hide Live, WellFormed, Writable;
    PutForward(t, i, r, window, now);
    PutBackward(t, i, r, window, now);
  }

  ghost function LiveKeys(t: Table, n: nat, window: int, now: int): set<Key>
    requires n <= |t|
  {
    set i | 0 <= i < n && Unexpired(t[i], window, now) :: KeyOf(t[i])
  }

  lemma {:induction false} LiveKeysSize(t: Table, n: nat, window: int, now: int)
    requires WellFormed(t) && n <= |t|
    ensures |LiveKeys(t, n, window, now)| <= n
    ensures |LiveKeys(t, n, window, now)| == n <==> AllUnexpired(t, n, window, now)
  {
    hide LiveKeys, WellFormed, Unexpired, AllUnexpired;
    if n == 0 {
      LiveKeysNone(t, window, now);
    } else {
      LiveKeysSize(t, n - 1, window, now);
      LiveKeysStep(t, n - 1, window, now);
    }
  }

  predicate AllUnexpired(t: Table, n: nat, window: int, now: int)
    requires n <= |t|
  {
    forall i :: 0 <= i < n ==> Unexpired(t[i], window, now)
  }

  lemma LiveKeysNone(t: Table, window: int, now: int)
    ensures LiveKeys(t, 0, window, now) == {} && AllUnexpired(t, 0, window, now)
  {
  }

  lemma LiveKeysStep(t: Table, n: nat, window: int, now: int)
    requires WellFormed(t) && n < |t|
    ensures LiveKeys(t, n + 1, window, now)
      == LiveKeys(t, n, window, now) + (if Unexpired(t[n], window, now) then {KeyOf(t[n])} else {})
    ensures Unexpired(t[n], window, now) ==> KeyOf(t[n]) !in LiveKeys(t, n, window, now)
    ensures AllUnexpired(t, n + 1, window, now) <==> AllUnexpired(t, n, window, now) && Unexpired(t[n], window, now)
  {
  }

  /** The live map has 64 keys exactly when no slot could be reused. */
  lemma FullTable(t: Table, window: int, now: int)
    requires WellFormed(t)
    ensures |Live(t, window, now)| == MAX_RATE_LIMITS <==> AllUnexpired(t, |t|, window, now)
  {
    LiveKeysSize(t, |t|, window, now);
    assert Live(t, window, now).Keys == LiveKeys(t, |t|, window, now);
  }

  // ----- the scan, slot by slot -----

  /** The scan of `t` has passed `index` slots, met no unexpired window of the key, left the table
      as `s` and noted the first reusable slot as `empty` (or 64). */
  predicate Scanned(t: Table, s: Table, index: nat, empty: nat, key: Key, window: int, now: int) {
    && |t| == MAX_RATE_LIMITS && index <= |t|
    && s == Swept(t, index, window, now)
    && (forall i :: 0 <= i < index && Unexpired(t[i], window, now) ==> KeyOf(t[i]) != key)
    && (if empty == MAX_RATE_LIMITS then forall i :: 0 <= i < index ==> Unexpired(t[i], window, now)
        else empty < index && !Unexpired(t[empty], window, now))
  }

  lemma ScanStart(t: Table, key: Key, window: int, now: int)
    requires |t| == MAX_RATE_LIMITS
    ensures Scanned(t, t, 0, MAX_RATE_LIMITS, key, window, now)
  {
    assert t == Swept(t, 0, window, now);
  }

  lemma ScanReusable(t: Table, s: Table, index: nat, empty: nat, key: Key, window: int, now: int)
    requires Scanned(t, s, index, empty, key, window, now) && index < |t| && |s| == |t|
    requires !s[index].active || s[index].windowStartedAt + window <= now
    ensures Scanned(t, s[index := s[index].(active := false)], index + 1,
                    if empty == MAX_RATE_LIMITS then index else empty, key, window, now)
  {
    assert s[index := s[index].(active := false)] == Swept(t, index + 1, window, now);
  }

  lemma ScanOther(t: Table, s: Table, index: nat, empty: nat, key: Key, window: int, now: int)
    requires Scanned(t, s, index, empty, key, window, now) && index < |t| && |s| == |t|
    requires s[index].active && s[index].windowStartedAt + window > now
    requires KeyOf(s[index]) != key
    ensures Scanned(t, s, index + 1, empty, key, window, now)
  {
    assert s == Swept(t, index + 1, window, now);
  }

  /** The scan met the key with its limit used up: the call is refused. */
  lemma ScanRefused(t: Table, s: Table, index: nat, empty: nat, window: int, call: Call)
    requires WellFormed(t) && Scanned(t, s, index, empty, call.key, window, call.now) && index < |t| == |s|
    requires call.limit > 0 && window > 0 && Unexpired(s[index], window, call.now) && KeyOf(s[index]) == call.key
    requires s[index].count >= call.limit
    ensures AllowStep(t, s, window, call, false)
  {
    hide Live;
    SweepKeepsLive(t, index, window, call.now);
  }

  /** The scan met the key with room to spare: the call is counted. */
  lemma ScanCounted(t: Table, s: Table, index: nat, empty: nat, window: int, call: Call)
    requires WellFormed(t) && Scanned(t, s, index, empty, call.key, window, call.now) && index < |t| == |s|
    requires call.limit > 0 && window > 0 && Unexpired(s[index], window, call.now) && KeyOf(s[index]) == call.key
    requires s[index].count < call.limit
    ensures AllowStep(t, s[index := s[index].(count := s[index].count + 1)], window, call, true)
  {
    hide Live;
    SweepKeepsLive(t, index, window, call.now);
    PutKeepsRest(s, index, s[index].(count := s[index].count + 1), window, call.now);
  }

  /** The scan met no window of the key and every slot holds another's: the call is refused. */
  lemma ScanFull(t: Table, s: Table, window: int, call: Call)
    requires WellFormed(t) && Scanned(t, s, |t|, MAX_RATE_LIMITS, call.key, window, call.now)
    requires call.limit > 0 && window > 0
    ensures AllowStep(t, s, window, call, false)
  {
    hide Live;
    FullTable(t, window, call.now);
    SweepKeepsLive(t, |t|, window, call.now);
    assert call.key !in Live(t, window, call.now);
  }

  /** The scan met no window of the key: a new one is opened in the noted slot. */
  lemma ScanOpened(t: Table, s: Table, empty: nat, window: int, call: Call)
    requires WellFormed(t) && Scanned(t, s, |t|, empty, call.key, window, call.now) && empty < |t| == |s|
    requires call.limit > 0 && window > 0
    ensures AllowStep(t, s[empty := Record(true, call.key.clientIp, call.key.scope, 1, call.now)], window, call, true)
  {
    hide Live;
    FullTable(t, window, call.now);
    SweepKeepsLive(t, |t|, window, call.now);
    assert call.key !in Live(t, window, call.now);
    PutKeepsRest(s, empty, Record(true, call.key.clientIp, call.key.scope, 1, call.now), window, call.now);
  }

  class Limiter {
    const records: array<Record>

    ghost predicate Valid()
      reads records
    {
      WellFormed(records[..])
    }

    constructor ()
      ensures Valid() && fresh(records)
      ensures forall i :: 0 <= i < records.Length ==> !records[i].active
    {
      records := new Record[MAX_RATE_LIMITS](i => Record(false, "", "", 0, 0));
    }

    /** The loop: stops at the key's unexpired window, switching off what it finds expired on the
        way and remembering the first slot that can be reused. */
    method Scan(clientIp: string, scope: string, window: int, now: int) returns (index: nat, emptyIndex: nat)
      requires Valid()
      modifies records
      ensures index <= MAX_RATE_LIMITS && emptyIndex <= MAX_RATE_LIMITS
      ensures Scanned(old(records[..]), records[..], index, emptyIndex, Key(clientIp, scope), window, now)
      ensures index < MAX_RATE_LIMITS ==>
        Unexpired(records[index], window, now) && KeyOf(records[index]) == Key(clientIp, scope)
    {
      ghost var t, key := records[..], Key(clientIp, scope);
      ScanStart(t, key, window, now);
      hide Scanned;
      index, emptyIndex := 0, MAX_RATE_LIMITS;
      while index < MAX_RATE_LIMITS
        invariant index <= MAX_RATE_LIMITS && emptyIndex <= MAX_RATE_LIMITS
        invariant Scanned(t, records[..], index, emptyIndex, key, window, now)
      {
        ghost var s := records[..];
        if !records[index].active {
          ScanReusable(t, s, index, emptyIndex, key, window, now);
          assert s == s[index := s[index].(active := false)];
          if emptyIndex == MAX_RATE_LIMITS {
            emptyIndex := index;
          }
        } else if records[index].windowStartedAt + window <= now {
          ScanReusable(t, s, index, emptyIndex, key, window, now);
          records[index] := records[index].(active := false);
          assert records[..] == s[index := s[index].(active := false)];
          if emptyIndex == MAX_RATE_LIMITS {
            emptyIndex := index;
          }
        } else if records[index].clientIp == clientIp && records[index].scope == scope {
          return;
        } else {
          ScanOther(t, s, index, emptyIndex, key, window, now);
        }
        index := index + 1;
      }
    }

    method Allow(clientIp: string, scope: string, limit: nat, window: int, now: int) returns (allowed: bool)
      requires Valid()
      modifies records
      ensures AllowStep(old(records[..]), records[..], window, Call(Key(clientIp, scope), limit, now), allowed)
    {
      if limit == 0 || window <= 0 {
        return false;
      }
      ghost var t, call := records[..], Call(Key(clientIp, scope), limit, now);
      var index, emptyIndex := Scan(clientIp, scope, window, now);
      ghost var s := records[..];
      hide AllowStep, Scanned, WellFormed;
      if index < MAX_RATE_LIMITS {
        if records[index].count >= limit {
          ScanRefused(t, s, index, emptyIndex, window, call);
          return false;
        }
        ScanCounted(t, s, index, emptyIndex, window, call);
        records[index] := records[index].(count := records[index].count + 1);
        assert records[..] == s[index := s[index].(count := s[index].count + 1)];
        return true;
      }
      if emptyIndex == MAX_RATE_LIMITS {
        ScanFull(t, s, window, call);
        return false;
      }
      ScanOpened(t, s, emptyIndex, window, call);
      records[emptyIndex] := Record(true, clientIp, scope, 1, now);
      assert records[..] == s[emptyIndex := Record(true, clientIp, scope, 1, now)];
      return true;
    }
  }
}

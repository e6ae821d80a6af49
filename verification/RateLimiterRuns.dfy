/** What the rate limiter guarantees over whole runs: how many calls it can let through in any
    stretch of one window length. */
module RateLimiterRuns {
  import opened RateLimiter

  /** A run: calls by any mix of keys, at nondecreasing times, with one window length. */
  ghost predicate Run(window: int, tables: seq<Table>, calls: seq<Call>, allowed: seq<bool>) {
    && |tables| == |calls| + 1 && |allowed| == |calls|
    && WellFormed(tables[0]) && (forall i :: 0 <= i < |tables[0]| ==> !tables[0][i].active)
    && (forall n :: 0 <= n < |calls| ==> StepAt(window, tables, calls, allowed, n))
  }

  ghost predicate StepAt(window: int, tables: seq<Table>, calls: seq<Call>, allowed: seq<bool>, n: nat)
    requires |tables| == |calls| + 1 && |allowed| == |calls| && n < |calls|
  {
    && AllowStep(tables[n], tables[n + 1], window, calls[n], allowed[n])
    && (n > 0 ==> calls[n - 1].now <= calls[n].now)
  }

  predicate Granted(call: Call, allowed: bool, key: Key, lo: int, hi: int) {
    allowed && call.key == key && lo <= call.now < hi
  }

  /** How many of the first `n` calls were the key's, allowed, and at times in [lo, hi). */
  function Grants(calls: seq<Call>, allowed: seq<bool>, key: Key, lo: int, hi: int, n: nat): nat
    requires n <= |calls| == |allowed|
  {
    if n == 0 then 0
    else Grants(calls, allowed, key, lo, hi, n - 1)
         + (if Granted(calls[n - 1], allowed[n - 1], key, lo, hi) then 1 else 0)
  }

  /** Between two calls, at time `now`: how the key's grants so far in [lo, lo + window) relate to
      the window it has open. A window that opened before `lo` has spent its first grant outside. */
  ghost predicate Bounded(t: Table, window: int, key: Key, limit: nat, lo: int, now: int, grants: nat) {
    && WellFormed(t)
    && (now < lo ==> grants == 0)
    && var live := Live(t, window, now);
       if key in live then
         var w := live[key];
         && 1 <= w.count <= limit && w.startedAt <= now
         && (w.startedAt < lo ==> grants <= w.count - 1)
         && (lo <= w.startedAt < lo + window ==> grants <= limit - 1 + w.count)
         && (lo + window <= w.startedAt ==> grants <= 2 * limit - 1)
       else
         grants == 0 || grants <= limit - 1 || (grants <= 2 * limit - 1 && lo + window <= now)
  }

  /** As time passes windows only expire: what is live later was live, with the same count. */
  lemma LiveLater(t: Table, window: int, now: int, later: int)
    requires WellFormed(t) && now <= later
    ensures var a, b := Live(t, window, now), Live(t, window, later);
      && (forall k :: k in b ==> k in a && a[k] == b[k] && b[k].startedAt + window > later)
      && (forall k :: k in a && k !in b ==> a[k].startedAt + window <= later)
  {
    hide Live;
    var a, b := Live(t, window, now), Live(t, window, later);
    forall k | k in b ensures k in a && a[k] == b[k] && b[k].startedAt + window > later {
      var i :| 0 <= i < |t| && Unexpired(t[i], window, later) && KeyOf(t[i]) == k && b[k] == WindowOf(t[i]);
      assert Unexpired(t[i], window, now);
    }
    forall k | k in a && k !in b ensures a[k].startedAt + window <= later {
      var i :| 0 <= i < |t| && Unexpired(t[i], window, now) && KeyOf(t[i]) == k && a[k] == WindowOf(t[i]);
    }
  }

  lemma BoundedLater(t: Table, window: int, key: Key, limit: nat, lo: int, now: int, later: int, grants: nat)
    requires Bounded(t, window, key, limit, lo, now, grants) && now <= later && window > 0
    ensures Bounded(t, window, key, limit, lo, later, grants)
  {
    LiveLater(t, window, now, later);
    hide Live;
  }

  lemma BoundedStep(t: Table, t': Table, window: int, call: Call, allowed: bool,
                    key: Key, limit: nat, lo: int, grants: nat)
    requires window > 0 && AllowStep(t, t', window, call, allowed)
    requires call.key == key ==> call.limit == limit
    requires Bounded(t, window, key, limit, lo, call.now, grants)
    ensures Bounded(t', window, key, limit, lo, call.now,
                    grants + (if Granted(call, allowed, key, lo, lo + window) then 1 else 0))
  {
    hide Live;
  }

  lemma RunStart(window: int, tables: seq<Table>, calls: seq<Call>, allowed: seq<bool>,
                 key: Key, limit: nat, lo: int, now: int)
    requires Run(window, tables, calls, allowed)
    ensures Bounded(tables[0], window, key, limit, lo, now, 0)
  {
  }

  lemma RunStep(window: int, tables: seq<Table>, calls: seq<Call>, allowed: seq<bool>, n: nat)
    requires Run(window, tables, calls, allowed) && n < |calls|
    ensures |tables| == |calls| + 1 && |allowed| == |calls|
    ensures AllowStep(tables[n], tables[n + 1], window, calls[n], allowed[n])
    ensures n > 0 ==> calls[n - 1].now <= calls[n].now
  {
    hide AllowStep;
    assert StepAt(window, tables, calls, allowed, n);
  }

  /** After the first `n + 1` calls of any run. */
  lemma {:induction false} BoundedAfter(window: int, tables: seq<Table>, calls: seq<Call>, allowed: seq<bool>,
                                        key: Key, limit: nat, lo: int, n: nat)
    requires window > 0 && Run(window, tables, calls, allowed) && n < |calls|
    requires forall i :: 0 <= i < |calls| && calls[i].key == key ==> calls[i].limit == limit
    ensures Bounded(tables[n + 1], window, key, limit, lo, calls[n].now,
                    Grants(calls, allowed, key, lo, lo + window, n + 1))
  {
    hide Run, AllowStep, Bounded, Granted;
    RunStep(window, tables, calls, allowed, n);
    var before := Grants(calls, allowed, key, lo, lo + window, n);
    if n == 0 {
      RunStart(window, tables, calls, allowed, key, limit, lo, calls[0].now);
    } else {
      BoundedAfter(window, tables, calls, allowed, key, limit, lo, n - 1);
      BoundedLater(tables[n], window, key, limit, lo, calls[n - 1].now, calls[n].now, before);
    }
    BoundedStep(tables[n], tables[n + 1], window, calls[n], allowed[n], key, limit, lo, before);
  }

  /** Main result: over any run, any interval of one window length sees at most 2 * limit - 1
      allowed calls of a key whose callers use one limit, whatever other keys do. */
  lemma SlidingWindowBound(window: int, tables: seq<Table>, calls: seq<Call>, allowed: seq<bool>,
                           key: Key, limit: nat, lo: int)
    requires window > 0 && Run(window, tables, calls, allowed)
    requires forall i :: 0 <= i < |calls| && calls[i].key == key ==> calls[i].limit == limit
    ensures var grants := Grants(calls, allowed, key, lo, lo + window, |calls|);
      if limit == 0 then grants == 0 else grants <= 2 * limit - 1
  {
    assert |allowed| == |calls|;
    hide Run, AllowStep, Live;
    if |calls| > 0 {
      BoundedAfter(window, tables, calls, allowed, key, limit, lo, |calls| - 1);
    }
  }

  // ----- what a window counts -----

  predicate NoGrantFrom(calls: seq<Call>, allowed: seq<bool>, key: Key, time: int, n: nat)
    requires n <= |calls| == |allowed|
  {
    forall i :: 0 <= i < n && allowed[i] && calls[i].key == key ==> calls[i].now < time
  }

  /** A window has counted exactly the key's grants since it opened. */
  predicate CountsGrants(w: Window, window: int, key: Key, calls: seq<Call>, allowed: seq<bool>, n: nat)
    requires n <= |calls| == |allowed|
  {
    && w.count == Grants(calls, allowed, key, w.startedAt, w.startedAt + window, n)
    && NoGrantFrom(calls, allowed, key, w.startedAt + window, n)
  }

  /** Between two calls: an open window has counted the key's grants since it opened, and a key
      without one has had no grant at `now` or later. */
  ghost predicate Tallied(t: Table, window: int, key: Key, calls: seq<Call>, allowed: seq<bool>, n: nat, now: int)
    requires n <= |calls| == |allowed|
  {
    && WellFormed(t)
    && var live := Live(t, window, now);
       if key in live then live[key].startedAt <= now && CountsGrants(live[key], window, key, calls, allowed, n)
       else NoGrantFrom(calls, allowed, key, now, n)
  }

  lemma {:induction false} NoGrantsCounted(calls: seq<Call>, allowed: seq<bool>, key: Key, lo: int, hi: int, n: nat)
    requires n <= |calls| == |allowed| && NoGrantFrom(calls, allowed, key, lo, n)
    ensures Grants(calls, allowed, key, lo, hi, n) == 0
  {
    if n > 0 {
      NoGrantsCounted(calls, allowed, key, lo, hi, n - 1);
    }
  }

  lemma CountsOneMore(w: Window, window: int, key: Key, calls: seq<Call>, allowed: seq<bool>, n: nat)
    requires n < |calls| == |allowed| && CountsGrants(w, window, key, calls, allowed, n)
    requires allowed[n] && calls[n].key == key && w.startedAt <= calls[n].now < w.startedAt + window
    ensures CountsGrants(Window(w.startedAt, w.count + 1), window, key, calls, allowed, n + 1)
  {
  }

  lemma CountsNoMore(w: Window, window: int, key: Key, calls: seq<Call>, allowed: seq<bool>, n: nat)
    requires n < |calls| == |allowed| && CountsGrants(w, window, key, calls, allowed, n)
    requires !(allowed[n] && calls[n].key == key)
    ensures CountsGrants(w, window, key, calls, allowed, n + 1)
  {
  }

  lemma CountsFirst(window: int, key: Key, calls: seq<Call>, allowed: seq<bool>, n: nat)
    requires n < |calls| == |allowed| && NoGrantFrom(calls, allowed, key, calls[n].now, n)
    requires allowed[n] && calls[n].key == key && window > 0
    ensures CountsGrants(Window(calls[n].now, 1), window, key, calls, allowed, n + 1)
  {
    NoGrantsCounted(calls, allowed, key, calls[n].now, calls[n].now + window, n);
  }

  lemma NoGrantStays(key: Key, calls: seq<Call>, allowed: seq<bool>, time: int, n: nat)
    requires n < |calls| == |allowed| && NoGrantFrom(calls, allowed, key, time, n)
    requires !(allowed[n] && calls[n].key == key)
    ensures NoGrantFrom(calls, allowed, key, time, n + 1)
  {
  }

  lemma NoGrantLater(key: Key, calls: seq<Call>, allowed: seq<bool>, time: int, later: int, n: nat)
    requires n <= |calls| == |allowed| && NoGrantFrom(calls, allowed, key, time, n) && time <= later
    ensures NoGrantFrom(calls, allowed, key, later, n)
  {
  }

  /** What one call does to one key's window: it counts its own grant, or opens one at its time. */
  lemma WindowStep(t: Table, t': Table, window: int, call: Call, allowed: bool, key: Key)
    requires AllowStep(t, t', window, call, allowed)
    ensures var live, live' := Live(t, window, call.now), Live(t', window, call.now);
      if allowed && call.key == key then
        window > 0 && key in live' &&
        live'[key] == if key in live then Window(live[key].startedAt, live[key].count + 1) else Window(call.now, 1)
      else if key in live then key in live' && live'[key] == live[key]
      else key !in live'
  {
    hide Live, WellFormed;
  }

  lemma TalliedLater(t: Table, window: int, key: Key, calls: seq<Call>, allowed: seq<bool>, n: nat,
                     now: int, later: int)
    requires n <= |calls| == |allowed| && Tallied(t, window, key, calls, allowed, n, now) && now <= later
    ensures Tallied(t, window, key, calls, allowed, n, later)
  {
    hide Live, Grants, NoGrantFrom, WellFormed;
    LiveLater(t, window, now, later);
    var live := Live(t, window, now);
    var time := if key in live then live[key].startedAt + window else now;
    if key !in Live(t, window, later) {
      NoGrantLater(key, calls, allowed, time, later, n);
    }
  }

  lemma LiveUnexpired(t: Table, window: int, now: int, key: Key)
    requires WellFormed(t) && key in Live(t, window, now)
    ensures Live(t, window, now)[key].startedAt + window > now
  {
  }

  lemma TalliedStep(t: Table, t': Table, window: int, key: Key, calls: seq<Call>, allowed: seq<bool>, n: nat)
    requires n < |calls| == |allowed| && AllowStep(t, t', window, calls[n], allowed[n])
    requires Tallied(t, window, key, calls, allowed, n, calls[n].now)
    ensures Tallied(t', window, key, calls, allowed, n + 1, calls[n].now)
  {
    hide Live, NoGrantFrom, WellFormed, CountsGrants;
    WindowStep(t, t', window, calls[n], allowed[n], key);
    hide AllowStep;
    var live := Live(t, window, calls[n].now);
    if key in live {
      LiveUnexpired(t, window, calls[n].now, key);
      if allowed[n] && calls[n].key == key {
        CountsOneMore(live[key], window, key, calls, allowed, n);
      } else {
        CountsNoMore(live[key], window, key, calls, allowed, n);
      }
    } else if allowed[n] && calls[n].key == key {
      CountsFirst(window, key, calls, allowed, n);
    } else {
      NoGrantStays(key, calls, allowed, calls[n].now, n);
    }
  }

  lemma TalliedAtStart(window: int, tables: seq<Table>, calls: seq<Call>, allowed: seq<bool>, key: Key, now: int)
    requires Run(window, tables, calls, allowed)
    ensures |allowed| == |calls| && Tallied(tables[0], window, key, calls, allowed, 0, now)
  {
    hide AllowStep;
  }

  lemma {:induction false} TalliedAfter(window: int, tables: seq<Table>, calls: seq<Call>, allowed: seq<bool>,
                                        key: Key, n: nat)
    requires Run(window, tables, calls, allowed) && n < |calls|
    ensures |allowed| == |calls| && |tables| == |calls| + 1
    ensures Tallied(tables[n + 1], window, key, calls, allowed, n + 1, calls[n].now)
  {
    hide Run, AllowStep, Tallied;
    RunStep(window, tables, calls, allowed, n);
    if n == 0 {
      TalliedAtStart(window, tables, calls, allowed, key, calls[0].now);
    } else {
      TalliedAfter(window, tables, calls, allowed, key, n - 1);
      TalliedLater(tables[n], window, key, calls, allowed, n, calls[n - 1].now, calls[n].now);
    }
    TalliedStep(tables[n], tables[n + 1], window, key, calls, allowed, n);
  }

  /** Over any run, an open window has granted its key exactly as many calls as it has counted,
      and never more than the limit. */
  lemma WindowGrantsAtMostLimit(window: int, tables: seq<Table>, calls: seq<Call>, allowed: seq<bool>,
                                key: Key, limit: nat, n: nat)
    requires window > 0 && Run(window, tables, calls, allowed) && n < |calls|
    requires forall i :: 0 <= i < |calls| && calls[i].key == key ==> calls[i].limit == limit
    ensures |tables| == |calls| + 1 && |allowed| == |calls| && WellFormed(tables[n + 1])
    ensures var live := Live(tables[n + 1], window, calls[n].now);
      key in live ==>
        var w := live[key];
        Grants(calls, allowed, key, w.startedAt, w.startedAt + window, n + 1) == w.count <= limit
  {
    hide Run, Live, Grants, WellFormed, NoGrantFrom;
    TalliedAfter(window, tables, calls, allowed, key, n);
    BoundedAfter(window, tables, calls, allowed, key, limit, 0, n);
  }

  // ----- which calls are allowed -----

  /** The windows a history of calls amounts to: an allowed call is counted in its key's window while
      that is open, and opens one otherwise. */
  function Windows(window: int, calls: seq<Call>, allowed: seq<bool>, n: nat): map<Key, Window>
    requires n <= |calls| == |allowed|
  {
    if n == 0 then map[]
    else
      var before, call := Windows(window, calls, allowed, n - 1), calls[n - 1];
      if !allowed[n - 1] then before
      else if call.key in before && before[call.key].startedAt + window > call.now then
        before[call.key := Window(before[call.key].startedAt, before[call.key].count + 1)]
      else before[call.key := Window(call.now, 1)]
  }

  function OpenAt(windows: map<Key, Window>, window: int, now: int): map<Key, Window> {
    map k | k in windows && windows[k].startedAt + window > now :: windows[k]
  }

  lemma OpenLater(t: Table, windows: map<Key, Window>, window: int, now: int, later: int)
    requires WellFormed(t) && now <= later && Live(t, window, now) == OpenAt(windows, window, now)
    ensures Live(t, window, later) == OpenAt(windows, window, later)
  {
    hide Live, WellFormed;
    LiveLater(t, window, now, later);
    var a, b := Live(t, window, later), OpenAt(windows, window, later);
    forall k ensures k in a <==> k in b {
      assert k in Live(t, window, now) <==> k in OpenAt(windows, window, now);
    }
  }

  lemma OpenUpdate(windows: map<Key, Window>, window: int, now: int, key: Key, w: Window)
    requires w.startedAt + window > now
    ensures OpenAt(windows[key := w], window, now) == OpenAt(windows, window, now)[key := w]
  {
  }

  lemma OpenWindowsStep(t: Table, t': Table, window: int, calls: seq<Call>, allowed: seq<bool>, n: nat)
    requires n < |calls| == |allowed| && window > 0 && AllowStep(t, t', window, calls[n], allowed[n])
    requires Live(t, window, calls[n].now) == OpenAt(Windows(window, calls, allowed, n), window, calls[n].now)
    ensures Live(t', window, calls[n].now) == OpenAt(Windows(window, calls, allowed, n + 1), window, calls[n].now)
  {
    hide Live, WellFormed;
    var before, key, now := Windows(window, calls, allowed, n), calls[n].key, calls[n].now;
    if allowed[n] {
      var live := OpenAt(before, window, now);
      var w := if key in live then Window(before[key].startedAt, before[key].count + 1) else Window(now, 1);
      OpenUpdate(before, window, now, key, w);
    }
  }

  lemma StepWellFormed(t: Table, t': Table, window: int, call: Call, allowed: bool)
    requires AllowStep(t, t', window, call, allowed)
    ensures WellFormed(t')
  {
    hide Live, WellFormed;
  }

  lemma OpenAtStart(window: int, tables: seq<Table>, calls: seq<Call>, allowed: seq<bool>, now: int)
    requires Run(window, tables, calls, allowed)
    ensures |allowed| == |calls| && |tables| > 0 && WellFormed(tables[0])
    ensures Live(tables[0], window, now) == OpenAt(Windows(window, calls, allowed, 0), window, now)
  {
    hide AllowStep;
  }

  lemma {:induction false} RunWindows(window: int, tables: seq<Table>, calls: seq<Call>, allowed: seq<bool>, n: nat)
    requires window > 0 && Run(window, tables, calls, allowed) && n < |calls|
    ensures |allowed| == |calls| && |tables| == |calls| + 1 && WellFormed(tables[n])
    ensures Live(tables[n], window, calls[n].now) == OpenAt(Windows(window, calls, allowed, n), window, calls[n].now)
  {
    hide Run, OpenAt, Windows, Live, AllowStep, WellFormed;
    RunStep(window, tables, calls, allowed, n);
    if n == 0 {
      OpenAtStart(window, tables, calls, allowed, calls[0].now);
    } else {
      RunWindows(window, tables, calls, allowed, n - 1);
      RunStep(window, tables, calls, allowed, n - 1);
      StepWellFormed(tables[n - 1], tables[n], window, calls[n - 1], allowed[n - 1]);
      OpenWindowsStep(tables[n - 1], tables[n], window, calls, allowed, n - 1);
      OpenLater(tables[n], Windows(window, calls, allowed, n), window, calls[n - 1].now, calls[n].now);
    }
  }

  /** Main result: in every run a call is allowed exactly when its limit and window are positive and its
      key's open window has room or, if it has none open, fewer than 64 keys have; where the windows
      are what the calls so far amount to. */
  lemma CallAllowedIff(window: int, tables: seq<Table>, calls: seq<Call>, allowed: seq<bool>, n: nat)
    requires Run(window, tables, calls, allowed) && n < |calls|
    ensures |allowed| == |calls|
    ensures allowed[n] <==>
      var windows, call := OpenAt(Windows(window, calls, allowed, n), window, calls[n].now), calls[n];
      && window > 0 && call.limit > 0
      && if call.key in windows then windows[call.key].count < call.limit else |windows| < 64
  {
    RunStep(window, tables, calls, allowed, n);
    hide Run, Live, OpenAt, Windows, WellFormed;
    if window > 0 {
      RunWindows(window, tables, calls, allowed, n);
      AtMost64(tables[n], window, calls[n].now);
    }
  }

  lemma AtMost64(t: Table, window: int, now: int)
    requires WellFormed(t)
    ensures |Live(t, window, now)| <= 64
  {
    LiveKeysSize(t, |t|, window, now);
    assert Live(t, window, now).Keys == LiveKeys(t, |t|, window, now);
  }

  // ----- the bound is reached -----

  function Off(): Record {
    Record(false, "", "", 0, 0)
  }

  /** A table whose only window is the key's, in slot 0. */
  function Solo(key: Key, startedAt: int, count: nat): Table {
    [if count > 0 then Record(true, key.clientIp, key.scope, count, startedAt) else Off()]
    + seq(MAX_RATE_LIMITS - 1, i => Off())
  }

  lemma SoloLive(key: Key, startedAt: int, count: nat, window: int, now: int)
    ensures WellFormed(Solo(key, startedAt, count))
    ensures Live(Solo(key, startedAt, count), window, now)
      == if count > 0 && startedAt + window > now then map[key := Window(startedAt, count)] else map[]
  {
    var t := Solo(key, startedAt, count);
    hide Live, Solo;
    SoloSlots(key, startedAt, count);
    var live := Live(t, window, now);
    forall k | k in live ensures k == key && count > 0 && startedAt + window > now {
      var i :| 0 <= i < |t| && Unexpired(t[i], window, now) && KeyOf(t[i]) == k && live[k] == WindowOf(t[i]);
    }
    assert count > 0 && startedAt + window > now ==> Unexpired(t[0], window, now);
    if count > 0 && startedAt + window > now {
      assert live == map[key := Window(startedAt, count)];
    } else {
      assert live == map[];
    }
  }

  lemma SoloSlots(key: Key, startedAt: int, count: nat)
    ensures var t := Solo(key, startedAt, count);
      && |t| == MAX_RATE_LIMITS
      && (forall i :: 0 < i < |t| ==> !t[i].active)
      && (if count == 0 then !t[0].active
          else t[0] == Record(true, key.clientIp, key.scope, count, startedAt))
  {
  }

  /** One grant, `limit - 1` more just before the window ends, then `limit` in the next window. */
  function BurstCall(key: Key, limit: nat, window: int, i: nat): Call {
    Call(key, limit, if i == 0 then 0 else if i < limit then window - 1 else window)
  }

  function BurstTable(key: Key, limit: nat, window: int, i: nat): Table {
    if i <= limit then Solo(key, 0, i) else Solo(key, window, i - limit)
  }

  lemma CountStep(key: Key, startedAt: int, count: nat, window: int, call: Call)
    requires 1 <= count < call.limit && window > 0 && call.key == key && call.now < startedAt + window
    ensures AllowStep(Solo(key, startedAt, count), Solo(key, startedAt, count + 1), window, call, true)
  {
    hide Live, Solo, WellFormed;
    SoloLive(key, startedAt, count, window, call.now);
    SoloLive(key, startedAt, count + 1, window, call.now);
  }

  lemma OpenStep(key: Key, startedAt: int, count: nat, window: int, call: Call)
    requires call.limit > 0 && window > 0 && call.key == key && (count == 0 || startedAt + window <= call.now)
    ensures AllowStep(Solo(key, startedAt, count), Solo(key, call.now, 1), window, call, true)
  {
    hide Live, Solo, WellFormed;
    SoloLive(key, startedAt, count, window, call.now);
    SoloLive(key, call.now, 1, window, call.now);
    var none: map<Key, Window> := map[];
    assert none[key := Window(call.now, 1)] == map[key := Window(call.now, 1)];
  }

  lemma BurstStep(key: Key, limit: nat, window: int, i: nat)
    requires window >= 2 && limit >= 1 && i < 2 * limit
    ensures AllowStep(BurstTable(key, limit, window, i), BurstTable(key, limit, window, i + 1), window,
                      BurstCall(key, limit, window, i), true)
  {
    hide Solo, AllowStep;
    var call := BurstCall(key, limit, window, i);
    if i == 0 || i == limit {
      OpenStep(key, 0, i, window, call);
    } else if i < limit {
      CountStep(key, 0, i, window, call);
    } else {
      CountStep(key, window, i - limit, window, call);
    }
  }

  lemma {:induction false} BurstGrants(calls: seq<Call>, allowed: seq<bool>, key: Key, limit: nat, window: int, n: nat)
    requires window >= 2 && limit >= 1 && |calls| == |allowed| == 2 * limit && n <= 2 * limit
    requires forall i :: 0 <= i < 2 * limit ==> calls[i] == BurstCall(key, limit, window, i) && allowed[i]
    ensures Grants(calls, allowed, key, window - 1, window - 1 + window, n) == if n == 0 then 0 else n - 1
  {
    if n > 0 {
      BurstGrants(calls, allowed, key, limit, window, n - 1);
    }
  }

  /** For every limit and every window of two seconds or more, some run attains the bound. */
  lemma SlidingWindowBoundIsReached(window: int, limit: nat, key: Key)
    returns (tables: seq<Table>, calls: seq<Call>, allowed: seq<bool>)
    requires window >= 2 && limit >= 1
    ensures Run(window, tables, calls, allowed)
    ensures forall i :: 0 <= i < |calls| ==> calls[i].key == key && calls[i].limit == limit
    ensures Grants(calls, allowed, key, window - 1, window - 1 + window, |calls|) == 2 * limit - 1
  {
    hide Live, AllowStep;
    tables := seq(2 * limit + 1, i requires 0 <= i => BurstTable(key, limit, window, i));
    calls := seq(2 * limit, i requires 0 <= i => BurstCall(key, limit, window, i));
    allowed := seq(2 * limit, i => true);
    SoloSlots(key, 0, 0);
    forall n | 0 <= n < |calls| ensures StepAt(window, tables, calls, allowed, n) {
      BurstStep(key, limit, window, n);
    }
    BurstGrants(calls, allowed, key, limit, window, 2 * limit);
  }
}

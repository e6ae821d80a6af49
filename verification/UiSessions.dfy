/** The administrative sessions of src/auth.c: 32 slots, one token each, bound to a client address. */
module UiSessions {
  import opened Text

  const MAX_UI_SESSIONS: nat := 32
  const UI_SESSION_TTL_SECONDS: int := 43200

  datatype Session = Session(active: bool, token: string, clientIp: string, expiresAt: int)

  type Table = seq<Session>

  predicate Live(s: Session, now: int) {
    s.active && s.expiresAt > now
  }

  /** The slots an unlock from this address may take. */
  predicate Reusable(s: Session, clientIp: string, now: int) {
    !s.active || s.expiresAt <= now || s.clientIp == clientIp
  }

  /** The first such slot, or 32. */
  function FirstReusable(t: Table, clientIp: string, now: int, from: nat := 0): (i: nat)
    requires from <= |t|
    ensures from <= i <= |t|
    ensures i < |t| ==> Reusable(t[i], clientIp, now)
    ensures forall j :: from <= j < i ==> !Reusable(t[j], clientIp, now)
    decreases |t| - from
  {
    if from == |t| || Reusable(t[from], clientIp, now) then from else FirstReusable(t, clientIp, now, from + 1)
  }

  /** The token opens a session for this address. */
  predicate Accepts(t: Table, clientIp: string, token: string, now: int) {
    exists i :: 0 <= i < |t| && Live(t[i], now) && t[i].clientIp == clientIp && t[i].token == token
  }

  // ----- what each operation does -----

  /** An unlock with the right code takes the first reusable slot; anything else changes nothing. */
  ghost predicate UnlockStep(t: Table, t': Table, clientIp: string, codeMatches: bool,
                             freshToken: Option<string>, now: int, issued: Option<string>) {
    var slot := FirstReusable(t, clientIp, now);
    if codeMatches && slot < |t| && freshToken.Some? then
      && issued == freshToken
      && t' == t[slot := Session(true, freshToken.value, clientIp, now + UI_SESSION_TTL_SECONDS)]
    else issued == None && t' == t
  }

  /** A validation answers for live sessions only and switches off nothing but expired ones. */
  ghost predicate CheckStep(t: Table, t': Table, clientIp: string, token: string, now: int, ok: bool) {
    && (ok <==> token != "" && Accepts(t, clientIp, token, now))
    && |t'| == |t|
    && forall i :: 0 <= i < |t| ==> t'[i] == t[i] || (!Live(t[i], now) && t'[i] == t[i].(active := false))
  }

  class UiAuth {
    const adminCode: string
    const sessions: array<Session>

    constructor (code: string)
      ensures adminCode == code && fresh(sessions) && sessions.Length == MAX_UI_SESSIONS
      ensures forall i :: 0 <= i < MAX_UI_SESSIONS ==> !sessions[i].active
    {
      adminCode := code;
      sessions := new Session[MAX_UI_SESSIONS](i => Session(false, "", "", 0));
    }

    method CreateUiSession(clientIp: string, providedCode: string, freshToken: Option<string>, now: int)
      returns (issued: Option<string>)
      requires sessions.Length == MAX_UI_SESSIONS
      modifies sessions
      ensures UnlockStep(old(sessions[..]), sessions[..], clientIp, providedCode == adminCode, freshToken, now, issued)
    {
      ghost var t := sessions[..];
      if providedCode != adminCode {
        return None;
      }
      var index := 0;
      while index < MAX_UI_SESSIONS
        invariant 0 <= index <= MAX_UI_SESSIONS
        invariant sessions[..] == t
        invariant FirstReusable(t, clientIp, now) == FirstReusable(t, clientIp, now, index)
      {
        if !sessions[index].active || sessions[index].expiresAt <= now || sessions[index].clientIp == clientIp {
          if freshToken.None? {
            return None;
          }
          sessions[index] := Session(true, freshToken.value, clientIp, now + UI_SESSION_TTL_SECONDS);
          assert sessions[..] == t[index := sessions[index]];
          return freshToken;
        }
        index := index + 1;
      }
      return None;
    }

    method ValidateUiSession(clientIp: string, token: string, now: int) returns (ok: bool)
      requires sessions.Length == MAX_UI_SESSIONS
      modifies sessions
      ensures CheckStep(old(sessions[..]), sessions[..], clientIp, token, now, ok)
    {
      ghost var t := sessions[..];
      if token == "" {
        return false;
      }
      var index := 0;
      while index < MAX_UI_SESSIONS
        invariant 0 <= index <= MAX_UI_SESSIONS
        invariant forall i :: index <= i < MAX_UI_SESSIONS ==> sessions[i] == t[i]
        invariant forall i :: 0 <= i < index ==>
          sessions[i] == t[i] || (!Live(t[i], now) && sessions[i] == t[i].(active := false))
        invariant forall i :: 0 <= i < index ==> !(Live(t[i], now) && t[i].clientIp == clientIp && t[i].token == token)
      {
        if sessions[index].active {
          if sessions[index].expiresAt <= now {
            sessions[index] := sessions[index].(active := false);
          } else if sessions[index].clientIp == clientIp && sessions[index].token == token {
            assert Live(t[index], now);
            return true;
          }
        }
        index := index + 1;
      }
      return false;
    }
  }

  // ----- runs -----

  datatype Op =
    | Unlock(clientIp: string, codeMatches: bool, freshToken: Option<string>, issued: Option<string>)
    | Check(clientIp: string, token: string, accepted: bool)

  datatype Event = Event(op: Op, now: int)

  ghost predicate Step(t: Table, t': Table, e: Event) {
    match e.op
    case Unlock(ip, codeMatches, freshToken, issued) => UnlockStep(t, t', ip, codeMatches, freshToken, e.now, issued)
    case Check(ip, token, accepted) => CheckStep(t, t', ip, token, e.now, accepted)
  }

  ghost predicate Run(tables: seq<Table>, events: seq<Event>) {
    && |tables| == |events| + 1
    && |tables[0]| == MAX_UI_SESSIONS && (forall i :: 0 <= i < |tables[0]| ==> !tables[0][i].active)
    && (forall n :: 0 <= n < |events| ==> Step(tables[n], tables[n + 1], events[n]))
    && (forall n :: 0 < n < |events| ==> events[n - 1].now <= events[n].now)
  }

  /** Event `m` issued this token to this address. */
  predicate Issued(events: seq<Event>, m: nat, clientIp: string, token: string)
    requires m < |events|
  {
    var op := events[m].op;
    op.Unlock? && op.clientIp == clientIp && op.issued == Some(token)
  }

  /** A session is safe from everything but its own expiry and its own address's unlocks. */
  lemma StepKeepsSession(t: Table, t': Table, e: Event, clientIp: string, token: string, until: int)
    requires Step(t, t', e) && e.now < until
    requires exists i :: Holds(t, i, clientIp, token, until)
    requires e.op.Unlock? && e.op.clientIp == clientIp ==> e.op.issued.None?
    ensures exists i :: Holds(t', i, clientIp, token, until)
  {
    var i :| Holds(t, i, clientIp, token, until);
    assert Live(t[i], e.now);
    assert Holds(t', i, clientIp, token, until);
  }

  predicate Holds(t: Table, i: int, clientIp: string, token: string, until: int) {
    0 <= i < |t| && t[i] == Session(true, token, clientIp, until)
  }

  lemma RunStep(tables: seq<Table>, events: seq<Event>, n: nat)
    requires Run(tables, events) && n < |events|
    ensures |tables| == |events| + 1 && Step(tables[n], tables[n + 1], events[n])
    ensures n > 0 ==> events[n - 1].now <= events[n].now
  {
    hide Step;
  }

  lemma {:induction false} TimesNondecreasing(tables: seq<Table>, events: seq<Event>, m: nat, n: nat)
    requires Run(tables, events) && m <= n < |events|
    ensures events[m].now <= events[n].now
    decreases n - m
  {
    hide Step;
    if m < n {
      TimesNondecreasing(tables, events, m, n - 1);
    }
  }

  lemma {:induction false} SessionSurvives(tables: seq<Table>, events: seq<Event>, m: nat, n: nat,
                                           clientIp: string, token: string)
    requires Run(tables, events) && m < n < |events| && Issued(events, m, clientIp, token)
    requires events[n].now < events[m].now + UI_SESSION_TTL_SECONDS
    requires forall k :: m < k < n && events[k].op.Unlock? && events[k].op.clientIp == clientIp ==>
      events[k].op.issued.None?
    ensures var until := events[m].now + UI_SESSION_TTL_SECONDS;
      exists i :: Holds(tables[n], i, clientIp, token, until)
    decreases n
  {
    var until := events[m].now + UI_SESSION_TTL_SECONDS;
    RunStep(tables, events, n - 1);
    RunStep(tables, events, n);
    hide Run;
    if m == n - 1 {
      var slot := FirstReusable(tables[m], clientIp, events[m].now);
      assert Holds(tables[n], slot, clientIp, token, until);
    } else {
      SessionSurvives(tables, events, m, n - 1, clientIp, token);
      StepKeepsSession(tables[n - 1], tables[n], events[n - 1], clientIp, token, until);
    }
  }

  /** Main result, liveness: an issued token is accepted from its address at every time before its
      expiry until that address unlocks again, whatever others do. */
  lemma IssuedTokenIsAccepted(tables: seq<Table>, events: seq<Event>, m: nat, n: nat)
    requires Run(tables, events) && m < n < |events| && events[n].op.Check?
    requires events[n].op.token != "" && Issued(events, m, events[n].op.clientIp, events[n].op.token)
    requires events[n].now < events[m].now + 43200
    requires forall k :: m < k < n && events[k].op.Unlock? && events[k].op.clientIp == events[n].op.clientIp ==>
      events[k].op.issued.None?
    ensures events[n].op.accepted
  {
    var ip, token := events[n].op.clientIp, events[n].op.token;
    SessionSurvives(tables, events, m, n, ip, token);
    RunStep(tables, events, n);
    hide Run;
    var until := events[m].now + UI_SESSION_TTL_SECONDS;
    var i :| Holds(tables[n], i, ip, token, until);
    assert Live(tables[n][i], events[n].now);
  }

  /** Every active session was issued to its address, 43200 seconds before its expiry. */
  ghost predicate Traced(t: Table, events: seq<Event>, n: nat)
    requires n <= |events|
  {
    forall i :: 0 <= i < |t| && t[i].active ==> exists m :: IssuedBefore(events, m, n, t[i])
  }

  predicate IssuedBefore(events: seq<Event>, m: int, n: nat, s: Session)
    requires n <= |events|
  {
    0 <= m < n && Issued(events, m, s.clientIp, s.token) && s.expiresAt == events[m].now + UI_SESSION_TTL_SECONDS
  }

  lemma StepTraced(t: Table, t': Table, events: seq<Event>, n: nat)
    requires n < |events| && Traced(t, events, n) && Step(t, t', events[n])
    ensures Traced(t', events, n + 1)
  {
    var e, after := events[n], n + 1;
    forall i | 0 <= i < |t'| && t'[i].active ensures exists m :: IssuedBefore(events, m, after, t'[i]) {
      if e.op.Unlock? && e.op.issued.Some? && i == FirstReusable(t, e.op.clientIp, e.now) {
        assert IssuedBefore(events, n, after, t'[i]);
      } else {
        assert t'[i] == t[i];
        var m :| IssuedBefore(events, m, n, t[i]);
        assert IssuedBefore(events, m, after, t'[i]);
      }
    }
  }

  lemma {:induction false} RunTraced(tables: seq<Table>, events: seq<Event>, n: nat)
    requires Run(tables, events) && n <= |events|
    ensures Traced(tables[n], events, n)
  {
    hide Step;
    if n > 0 {
      RunTraced(tables, events, n - 1);
      RunStep(tables, events, n - 1);
      StepTraced(tables[n - 1], tables[n], events, n - 1);
    }
  }

  lemma {:induction false} TableSize(tables: seq<Table>, events: seq<Event>, n: nat)
    requires Run(tables, events) && n <= |events|
    ensures |tables[n]| == 32
  {
    hide Step;
    if n > 0 {
      TableSize(tables, events, n - 1);
      RunStep(tables, events, n - 1);
      StepSize(tables[n - 1], tables[n], events[n - 1]);
    }
  }

  lemma StepSize(t: Table, t': Table, e: Event)
    requires Step(t, t', e)
    ensures |t'| == |t|
  {
  }

  /** An unlock issues its fresh token exactly when the code was right, a token could be generated and
      some slot is free, expired or the address's own. */
  lemma UnlockIssuesIff(tables: seq<Table>, events: seq<Event>, n: nat)
    requires Run(tables, events) && n < |events| && events[n].op.Unlock?
    ensures |tables| == |events| + 1 && |tables[n]| == 32
    ensures var op, now := events[n].op, events[n].now;
      && (op.issued.Some? <==>
            && op.codeMatches && op.freshToken.Some?
            && exists i :: 0 <= i < |tables[n]| && Open(tables[n][i], op.clientIp, now))
      && (op.issued.Some? ==> op.issued == op.freshToken)
  {
    TableSize(tables, events, n);
    RunStep(tables, events, n);
    var t, op := tables[n], events[n].op;
    var slot := FirstReusable(t, op.clientIp, events[n].now);
    forall i | 0 <= i < |t|
      ensures Open(t[i], op.clientIp, events[n].now) <==> Reusable(t[i], op.clientIp, events[n].now)
    {
    }
    hide Run, Reusable, Open;
  }

  predicate Open(s: Session, clientIp: string, now: int) {
    !s.active || s.expiresAt <= now || s.clientIp == clientIp
  }

  /** A check accepts a non-empty token exactly when a live session of the address carries it. */
  lemma CheckAcceptsIff(tables: seq<Table>, events: seq<Event>, n: nat)
    requires Run(tables, events) && n < |events| && events[n].op.Check?
    ensures |tables| == |events| + 1
    ensures events[n].op.accepted <==> events[n].op.token != "" && OpensSession(tables[n], events[n])
  {
    RunStep(tables, events, n);
    hide Run;
  }

  predicate OpensSession(t: Table, e: Event)
    requires e.op.Check?
  {
    exists i :: 0 <= i < |t| && t[i].active && t[i].expiresAt > e.now
                && t[i].clientIp == e.op.clientIp && t[i].token == e.op.token
  }

  /** Main result, safety: a token is accepted from an address only if it was issued to that very
      address, against the right code, less than 43200 seconds ago. */
  lemma AcceptedTokenWasIssued(tables: seq<Table>, events: seq<Event>, n: nat) returns (m: nat)
    requires Run(tables, events) && n < |events| && events[n].op.Check? && events[n].op.accepted
    ensures m < n && Issued(events, m, events[n].op.clientIp, events[n].op.token) && events[m].op.codeMatches
    ensures events[m].now <= events[n].now < events[m].now + 43200
  {
    RunTraced(tables, events, n);
    RunStep(tables, events, n);
    var t, op := tables[n], events[n].op;
    var i :| 0 <= i < |t| && Live(t[i], events[n].now) && t[i].clientIp == op.clientIp && t[i].token == op.token;
    m :| IssuedBefore(events, m, n, t[i]);
    TimesNondecreasing(tables, events, m, n);
    UnlockIssuesIff(tables, events, m);
  }

  // ----- unlocking again -----

  /** A second unlock replaces the address's session exactly when no earlier slot was reusable;
      otherwise the old token goes on being accepted beside the new one. */
  lemma OldTokenSurvivesIff(t: Table, t': Table, i: nat, clientIp: string, freshToken: string, now: int)
    requires i < |t| && Live(t[i], now) && t[i].clientIp == clientIp && t[i].token != freshToken
    requires forall j :: 0 <= j < |t| && j != i && Live(t[j], now) && t[j].clientIp == clientIp ==>
      t[j].token != t[i].token
    requires UnlockStep(t, t', clientIp, true, Some(freshToken), now, Some(freshToken))
    ensures Accepts(t', clientIp, freshToken, now)
    ensures Accepts(t', clientIp, t[i].token, now) <==> FirstReusable(t, clientIp, now) < i
  {
    var slot := FirstReusable(t, clientIp, now);
    assert slot <= i;
    assert t'[slot].token == freshToken && Live(t'[slot], now);
    if slot < i {
      assert t'[i] == t[i];
    }
  }

  /** Slots 0 and 1 of a table whose other slots are unused. */
  function Pair(first: Session, second: Session): Table {
    [first, second] + seq(MAX_UI_SESSIONS - 2, i => Session(false, "", "", 0))
  }

  /** A run in which two tokens of one address are accepted at the same moment: the address had
      slot 1, and takes slot 0 too once the session there has expired. */
  lemma TwoSessionsAccepted() returns (tables: seq<Table>, events: seq<Event>)
    ensures Run(tables, events) && |events| == 5
    ensures events[3] == Event(Check("10.0.0.2", "b", true), UI_SESSION_TTL_SECONDS)
    ensures events[4] == Event(Check("10.0.0.2", "c", true), UI_SESSION_TTL_SECONDS)
  {
    var later := UI_SESSION_TTL_SECONDS;
    var off := Session(false, "", "", 0);
    var a, b := Session(true, "a", "10.0.0.1", later), Session(true, "b", "10.0.0.2", later + 1);
    var c := Session(true, "c", "10.0.0.2", later + later);
    var t0, t1, t2, t3 := Pair(off, off), Pair(a, off), Pair(a, b), Pair(c, b);
    assert FirstReusable(t0, "10.0.0.1", 0) == 0 && t1 == t0[0 := a];
    assert FirstReusable(t1, "10.0.0.2", 1) == 1 && t2 == t1[1 := b] by {
      assert FirstReusable(t1, "10.0.0.2", 1, 1) == 1;
    }
    assert FirstReusable(t2, "10.0.0.2", later) == 0 && t3 == t2[0 := c];
    assert Live(t3[1], later) && t3[1].token == "b" && Live(t3[0], later) && t3[0].token == "c";
    tables := [t0, t1, t2, t3, t3, t3];
    events := [Event(Unlock("10.0.0.1", true, Some("a"), Some("a")), 0),
               Event(Unlock("10.0.0.2", true, Some("b"), Some("b")), 1),
               Event(Unlock("10.0.0.2", true, Some("c"), Some("c")), later),
               Event(Check("10.0.0.2", "b", true), later),
               Event(Check("10.0.0.2", "c", true), later)];
  }
}

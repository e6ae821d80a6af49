/** The two authorization checks of src/server.c over the tables of src/auth.c: the rate limit
    first, then an administrative session, and for uploads a pairing token instead. */
module Authorization {
  import opened Text
  import opened Requests
  import RL = RateLimiter
  import UI = UiSessions
  import PT = PeerTokens
  import PeerTokenRuns

  const RATE_WINDOW_SECONDS: int := 60
  const UPLOAD_SCOPE: string := "upload"
  const UPLOAD_LIMIT: nat := 20

  /** A header that is absent is not looked up. */
  ghost predicate SessionStep(t: UI.Table, t': UI.Table, ip: string, token: Option<string>, now: int, ok: bool) {
    match token
    case None => !ok && t' == t
    case Some(text) => UI.CheckStep(t, t', ip, text, now, ok)
  }

  ghost predicate TokenStep(t: PT.Table, t': PT.Table, ip: string, token: Option<string>, now: int, ok: bool) {
    match token
    case None => !ok && t' == t
    case Some(text) => PT.ValidateStep(t, t', ip, text, now, ok)
  }

  method LookUpSession(ui: UI.UiAuth, ip: string, token: Option<string>, now: int) returns (ok: bool)
    requires ui.sessions.Length == UI.MAX_UI_SESSIONS
    modifies ui.sessions
    ensures SessionStep(old(ui.sessions[..]), ui.sessions[..], ip, token, now, ok)
  {
    if token.None? {
      return false;
    }
    ok := ui.ValidateUiSession(ip, token.value, now);
  }

  method LookUpToken(peers: PT.PeerAuth, ip: string, token: Option<string>, now: int) returns (ok: bool)
    requires peers.Valid()
    modifies peers.peerTokens
    ensures TokenStep(old(peers.peerTokens[..]), peers.peerTokens[..], ip, token, now, ok)
  {
    if token.None? {
      return false;
    }
    hide PT.ValidateStep;
    ok := peers.ValidatePeerToken(ip, token.value, now);
  }

  /** The check of the administrative endpoints. A request is checked once; a refusal by the
      limiter looks at no session. */
  method AuthorizeUiRequest(con: Connection, limiter: RL.Limiter, ui: UI.UiAuth, ip: string, scope: string, limit: nat,
                            uiToken: Option<string>, limiterNow: int, uiNow: int)
    returns (ok: bool, ghost allowed: bool, ghost session: bool)
    requires limiter.Valid() && ui.sessions.Length == UI.MAX_UI_SESSIONS
    requires con.requestAuthorized ==> con.authChecked
    modifies con, limiter.records, ui.sessions
    ensures ok == con.requestAuthorized
    ensures !old(con.authChecked) ==> (ok <==> allowed && session)
    ensures !old(con.authChecked) ==>
      con.responseStatus == if ok then old(con.responseStatus) else if allowed then 401 else 429
    ensures old(con.authChecked) ==>
      con.State() == old(con.State()) && limiter.records[..] == old(limiter.records[..])
      && ui.sessions[..] == old(ui.sessions[..])
    ensures !old(con.authChecked) ==>
      && con.State() == Authorize(old(con.State()), UiAuth(allowed, session))
      && RL.AllowStep(old(limiter.records[..]), limiter.records[..], 60,
                      RL.Call(RL.Key(ip, scope), limit, limiterNow), allowed)
      && if allowed then SessionStep(old(ui.sessions[..]), ui.sessions[..], ip, uiToken, uiNow, session)
         else !session && ui.sessions[..] == old(ui.sessions[..])
  {
    hide RL.AllowStep, UI.CheckStep;
    allowed, session := false, false;
    if con.authChecked {
      return con.requestAuthorized, allowed, session;
    }
    var within := limiter.Allow(ip, scope, limit, RATE_WINDOW_SECONDS, limiterNow);
    var live := false;
    if within {
      live := LookUpSession(ui, ip, uiToken, uiNow);
    }
    allowed, session := within, live;
    ok := con.AuthorizeRequest(UiAuth(within, live));
  }

  /** The check of the upload endpoint: a session is enough, and only without one is the pairing
      token looked up. */
  method AuthorizeUploadRequest(con: Connection, limiter: RL.Limiter, ui: UI.UiAuth, peers: PT.PeerAuth, ip: string,
                                uiToken: Option<string>, pairToken: Option<string>,
                                limiterNow: int, uiNow: int, peerNow: int)
    returns (ok: bool, ghost allowed: bool, ghost session: bool, ghost paired: bool)
    requires limiter.Valid() && peers.Valid() && ui.sessions.Length == UI.MAX_UI_SESSIONS
    requires con.requestAuthorized ==> con.authChecked
    modifies con, limiter.records, ui.sessions, peers.peerTokens
    ensures ok == con.requestAuthorized
    ensures !old(con.authChecked) ==> (ok <==> allowed && (session || paired))
    ensures !old(con.authChecked) ==>
      con.responseStatus == if ok then old(con.responseStatus) else if allowed then 401 else 429
    ensures old(con.authChecked) ==>
      con.State() == old(con.State()) && limiter.records[..] == old(limiter.records[..])
      && ui.sessions[..] == old(ui.sessions[..]) && peers.peerTokens[..] == old(peers.peerTokens[..])
    ensures !old(con.authChecked) ==>
      && con.State() == Authorize(old(con.State()), UploadAuth(allowed, session, paired))
      && RL.AllowStep(old(limiter.records[..]), limiter.records[..], 60,
                      RL.Call(RL.Key(ip, "upload"), 20, limiterNow), allowed)
      && (if allowed then SessionStep(old(ui.sessions[..]), ui.sessions[..], ip, uiToken, uiNow, session)
          else !session && ui.sessions[..] == old(ui.sessions[..]))
      && (if allowed && !session then
            TokenStep(old(peers.peerTokens[..]), peers.peerTokens[..], ip, pairToken, peerNow, paired)
          else !paired && peers.peerTokens[..] == old(peers.peerTokens[..]))
  {
    hide RL.AllowStep, UI.CheckStep, SessionStep, TokenStep;
    allowed, session, paired := false, false, false;
    if con.authChecked {
      return con.requestAuthorized, allowed, session, paired;
    }
    var within := limiter.Allow(ip, UPLOAD_SCOPE, UPLOAD_LIMIT, RATE_WINDOW_SECONDS, limiterNow);
    var live, known := false, false;
    if within {
      live := LookUpSession(ui, ip, uiToken, uiNow);
      if !live {
        known := LookUpToken(peers, ip, pairToken, peerNow);
      }
    }
    allowed, session, paired := within, live, known;
    ok := con.AuthorizeRequest(UploadAuth(within, live, known));
  }

  /** The token was issued to this address by an unlock with the right code before event `n`, less than
      43200 seconds ago. */
  predicate SessionIssued(events: seq<UI.Event>, n: nat, ip: string, token: string)
    requires n < |events|
  {
    exists m :: 0 <= m < n && UI.Issued(events, m, ip, token) && events[m].op.codeMatches
                && events[n].now < events[m].now + 43200
  }

  /** A live session of this address carries the token. */
  predicate LiveSession(t: UI.Table, ip: string, token: string, now: int) {
    exists i :: 0 <= i < |t| && t[i].active && t[i].expiresAt > now && t[i].clientIp == ip && t[i].token == token
  }

  /** The token is the last one stored for some endpoint at this address, and has not expired. */
  predicate GrantStored(events: seq<PeerTokenRuns.Event>, n: nat, ip: string, token: string)
    requires n < |events|
  {
    var spec := PeerTokenRuns.LastStored(events, n);
    exists e :: e in spec && e.ip == ip && spec[e].token == token && spec[e].expiresAt > events[n].now
  }

  /** What the history of sessions says of a token that was looked up at event `a`. */
  lemma SessionLookup(uiTables: seq<UI.Table>, uiEvents: seq<UI.Event>, a: nat, ip: string, token: string, ok: bool)
    requires UI.Run(uiTables, uiEvents) && a < |uiEvents| && uiEvents[a].op == UI.Check(ip, token, ok)
    ensures |uiTables| == |uiEvents| + 1
    ensures ok <==> token != "" && LiveSession(uiTables[a], ip, token, uiEvents[a].now)
    ensures ok ==> SessionIssued(uiEvents, a, ip, token)
  {
    UI.CheckAcceptsIff(uiTables, uiEvents, a);
    hide UI.Run;
    if ok {
      var m := UI.AcceptedTokenWasIssued(uiTables, uiEvents, a);
    }
  }

  /** Main result for administrative requests, over any history of the sessions: the check authorizes a
      request exactly when the limiter allowed it, a non-empty token was shown, and a live session of
      the address carries it; and then that token was issued to the address, against the right code,
      less than 43200 seconds ago. The history has an event for the check if it looked the token up. */
  lemma UiAuthorizedIff(uiTables: seq<UI.Table>, uiEvents: seq<UI.Event>, a: nat, r: Req, ip: string,
                        uiToken: Option<string>, allowed: bool, session: bool)
    requires UI.Run(uiTables, uiEvents) && !r.authChecked && !r.authorized
    requires if allowed && uiToken.Some? then
               a < |uiEvents| && uiEvents[a].op == UI.Check(ip, uiToken.value, session)
             else !session
    ensures |uiTables| == |uiEvents| + 1
    ensures var r' := Authorize(r, UiAuth(allowed, session));
      && r'.authChecked
      && (r'.authorized <==>
            allowed && uiToken.Some? && uiToken.value != "" && a < |uiEvents|
            && LiveSession(uiTables[a], ip, uiToken.value, uiEvents[a].now))
      && (r'.authorized ==> SessionIssued(uiEvents, a, ip, uiToken.value))
      && r'.status == if r'.authorized then r.status else if allowed then 401 else 429
  {
    if allowed && uiToken.Some? {
      SessionLookup(uiTables, uiEvents, a, ip, uiToken.value, session);
    }
    hide SessionIssued, LiveSession;
  }

  /** Main result for uploads, over any histories: the check authorizes a request exactly when the
      limiter allowed it and it shows a live session of its address or, without one, a non-empty token
      that is the last unexpired grant of some endpoint there. Each history has an event for the check
      only if the check looked that table up. */
  lemma UploadAuthorizedIff(uiTables: seq<UI.Table>, uiEvents: seq<UI.Event>, a: nat,
                            tables: seq<PT.Table>, events: seq<PeerTokenRuns.Event>, b: nat, r: Req, ip: string,
                            uiToken: Option<string>, pairToken: Option<string>,
                            allowed: bool, session: bool, paired: bool)
    requires UI.Run(uiTables, uiEvents) && PeerTokenRuns.Run(tables, events) && !r.authChecked && !r.authorized
    requires if allowed && uiToken.Some? then
               a < |uiEvents| && uiEvents[a].op == UI.Check(ip, uiToken.value, session)
             else !session
    requires if allowed && !session && pairToken.Some? then
               b < |events| && events[b].op == PeerTokenRuns.Validate(ip, pairToken.value, paired)
             else !paired
    ensures |uiTables| == |uiEvents| + 1
    ensures var r' := Authorize(r, UploadAuth(allowed, session, paired));
      var bySession := uiToken.Some? && uiToken.value != "" && a < |uiEvents|
        && LiveSession(uiTables[a], ip, uiToken.value, uiEvents[a].now);
      var byToken := pairToken.Some? && pairToken.value != "" && b < |events|
        && GrantStored(events, b, ip, pairToken.value);
      && r'.authChecked
      && (r'.authorized ==> allowed && (bySession || byToken))
      && (allowed && bySession ==> r'.authorized && SessionIssued(uiEvents, a, ip, uiToken.value))
      && (allowed && !bySession && byToken ==> r'.authorized)
      && r'.status == if r'.authorized then r.status else if allowed then 401 else 429
  {
    if allowed && uiToken.Some? {
      SessionLookup(uiTables, uiEvents, a, ip, uiToken.value, session);
    }
    if allowed && !session && pairToken.Some? {
      PeerTokenRuns.ValidateAcceptsLastStored(tables, events, b);
    }
    hide UI.Run, PeerTokenRuns.Run, SessionIssued, LiveSession, PeerTokenRuns.LastStored;
  }
}

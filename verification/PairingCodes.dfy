/** How long a pairing code is good, told from the events of a pairing authority alone. */
module PairingCodes {
  import opened Text
  import opened PeerTokens

  datatype Op =
    | Show(freshCode: Option<string>, shown: Option<(string, int)>)
    | Issue(endpoint: Endpoint, name: string, providedCode: string, freshCode: Option<string>,
            freshToken: Option<string>, issued: Option<(string, int)>)
    /** Any store, lookup or validation of tokens. */
    | Tokens

  datatype Event = Event(op: Op, now: int)

  /** A code as the generator makes it: six digits. */
  predicate IsCode(code: string) {
    |code| == 6 && AllDigits(code)
  }

  ghost predicate Step(a: Authority, a': Authority, e: Event) {
    match e.op
    case Show(freshCode, shown) => ShowStep(a, a', freshCode, e.now, shown)
    case Issue(endpoint, name, providedCode, freshCode, freshToken, issued) =>
      IssueStep(a, a', endpoint, name, providedCode, freshCode, freshToken, e.now, issued)
    case Tokens => a' == a.(table := a'.table) && WellFormed(a'.table)
  }

  function FreshCode(op: Op): Option<string> {
    if op.Show? || op.Issue? then op.freshCode else None
  }

  ghost predicate StepAt(states: seq<Authority>, events: seq<Event>, startedAt: int, n: nat)
    requires n < |events| && |states| == |events| + 1
  {
    && Step(states[n], states[n + 1], events[n])
    && (if n == 0 then startedAt <= events[0].now else events[n - 1].now <= events[n].now)
    && (FreshCode(events[n].op).Some? ==> IsCode(FreshCode(events[n].op).value))
  }

  /** The authority starts with a code that is good for 300 seconds, as the constructor leaves it. */
  ghost predicate Run(states: seq<Authority>, events: seq<Event>, firstCode: string, startedAt: int) {
    && |states| == |events| + 1 && IsCode(firstCode)
    && states[0].code == firstCode && states[0].codeExpiresAt == startedAt + 300
    && forall n :: 0 <= n < |events| ==> StepAt(states, events, startedAt, n)
  }

  /** A code and when it was generated. */
  datatype Generated = Generated(code: string, at: int)

  /** The last code generated: a new one replaces it when one is asked for 300 seconds later or more. */
  function LastCode(events: seq<Event>, firstCode: string, startedAt: int, n: nat): Generated
    requires n <= |events|
  {
    if n == 0 then Generated(firstCode, startedAt)
    else
      var g, e := LastCode(events, firstCode, startedAt, n - 1), events[n - 1];
      if FreshCode(e.op).Some? && g.at + 300 <= e.now then Generated(FreshCode(e.op).value, e.now) else g
  }

  predicate Holds(a: Authority, g: Generated, now: int) {
    a.code == g.code && a.codeExpiresAt == g.at + 300 && IsCode(g.code) && g.at <= now
  }

  lemma StepHolds(a: Authority, a': Authority, e: Event, g: Generated)
    requires Step(a, a', e) && Holds(a, g, e.now)
    requires FreshCode(e.op).Some? ==> IsCode(FreshCode(e.op).value)
    ensures var code := FreshCode(e.op);
      Holds(a', if code.Some? && g.at + 300 <= e.now then Generated(code.value, e.now) else g, e.now)
  {
    hide AllDigits, UpsertStep, WellFormed, RoomFor;
  }

  lemma {:induction false} RunHolds(states: seq<Authority>, events: seq<Event>, firstCode: string, startedAt: int,
                                    n: nat)
    requires Run(states, events, firstCode, startedAt) && n < |events|
    ensures |states| == |events| + 1 && StepAt(states, events, startedAt, n)
    ensures Holds(states[n], LastCode(events, firstCode, startedAt, n), events[n].now)
    ensures Holds(states[n + 1], LastCode(events, firstCode, startedAt, n + 1), events[n].now)
  {
    assert StepAt(states, events, startedAt, n);
    hide Step, IsCode;
    if n > 0 {
      RunHolds(states, events, firstCode, startedAt, n - 1);
    }
    StepHolds(states[n], states[n + 1], events[n], LastCode(events, firstCode, startedAt, n));
  }

  /** Main result: in every run a token is issued exactly against the last generated code, in the 300
      seconds after its generation, when a token can be generated and there is room; and it is the
      generated token, good for 604800 seconds. */
  lemma TokenIssuedIff(states: seq<Authority>, events: seq<Event>, firstCode: string, startedAt: int, n: nat)
    requires Run(states, events, firstCode, startedAt) && n < |events| && events[n].op.Issue?
    ensures |states| == |events| + 1 && WellFormed(states[n].table)
    ensures var op, now, g := events[n].op, events[n].now, LastCode(events, firstCode, startedAt, n + 1);
      && g.at <= now
      && (op.issued.Some? <==>
            && op.providedCode == g.code && now < g.at + 300
            && op.freshToken.Some? && RoomFor(states[n].table, op.endpoint))
      && (op.issued.Some? ==> op.issued == Some((op.freshToken.value, now + 604800)))
  {
    RunHolds(states, events, firstCode, startedAt, n);
    hide Run, AllDigits, UpsertStep, WellFormed, RoomFor;
  }

  /** And the code is shown with the end of its time, or not at all when it is over and no new one could
      be generated. */
  lemma CodeShownIff(states: seq<Authority>, events: seq<Event>, firstCode: string, startedAt: int, n: nat)
    requires Run(states, events, firstCode, startedAt) && n < |events| && events[n].op.Show?
    ensures var op, now, g := events[n].op, events[n].now, LastCode(events, firstCode, startedAt, n + 1);
      op.shown == if now < g.at + 300 then Some((g.code, g.at + 300)) else None
  {
    RunHolds(states, events, firstCode, startedAt, n);
    hide Run, AllDigits;
  }
}

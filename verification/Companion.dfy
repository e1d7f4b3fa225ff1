/** The companion's reply of companion/.../PrhClient.kt: up to five attempts over a network that loses requests and
    responses, while the daemon goes on. */
module Companion {
  import opened HubSpec
  import opened Wrappers
  import opened HubRing
  import opened HubPrompts
  import opened HubAnswers

  const MAX_ATTEMPTS := 5

  /** How one attempt goes after whatever else the daemon did before it: the request never arrives; it is turned away
      before the hub sees it, or the device is not paired; or it reaches the hub and the response is lost or read. */
  datatype Fate = Unreached | Refused | Unheard(nonce: string) | Heard(nonce: string)

  datatype Attempt = Attempt(before: seq<Op>, fate: Fate)

  /** `Settled` is a 200 or a 409, `Failed` the 500 a window that is gone gives, `TurnedAway` any other error that is
      not retried, `GaveUp` the fifth I/O error. */
  datatype Outcome = Settled | Failed | TurnedAway | GaveUp

  /** What the daemon does for one attempt. */
  function OpsOf(a: Attempt, req: ReplyRequest): seq<Op> {
    a.before + (if a.fate.Unreached? || a.fate.Refused? then [] else [OpReply(req, a.fate.nonce)])
  }

  function OpsOfAll(tries: seq<Attempt>, req: ReplyRequest): seq<Op> {
    if tries == [] then [] else OpsOfAll(tries[..|tries| - 1], req) + OpsOf(tries[|tries| - 1], req)
  }

  lemma Snoc(tries: seq<Attempt>, n: nat, req: ReplyRequest)
    requires n < |tries|
    ensures OpsOfAll(tries[..n + 1], req) == OpsOfAll(tries[..n], req) + OpsOf(tries[n], req)
  {
    assert tries[..n + 1][..n] == tries[..n];
  }

  lemma RunNone(h: Hub, tries: seq<Attempt>, req: ReplyRequest)
    ensures Run(h, OpsOfAll(tries[..0], req)) == h
  {
    assert OpsOfAll(tries[..0], req) == [];
  }

  /** A reply that arrives leaves its prompt closed, whatever the answer. */
  lemma Arrived(h: Hub, t: Attempt, req: ReplyRequest)
    ensures t.fate.Unheard? || t.fate.Heard? ==> req.event !in Run(h, OpsOf(t, req)).open
  {
    if t.fate.Unheard? || t.fate.Heard? {
      RunConcat(h, t.before, [OpReply(req, t.fate.nonce)]);
      RunOne(Run(h, t.before), OpReply(req, t.fate.nonce));
      hide Run, QueueDecision, ClearPrompt, DecisionFor;
    }
  }

  /** What the hub, once it gets the reply, answers with a 500: the prompt is open, but its window is gone. */
  predicate WindowGone(h: Hub, event: string) {
    event in h.open && h.open[event].upstream !in h.upstreams
  }

  predicate FailsAt(h: Hub, t: Attempt, event: string) {
    t.fate.Heard? && WindowGone(Run(h, t.before), event)
  }

  /** One attempt: the body of the loop. None means an I/O error, to be retried. */
  method Try(h: Hub, t: Attempt, req: ReplyRequest) returns (h': Hub, outcome: Option<Outcome>)
    ensures h' == Run(h, OpsOf(t, req))
    ensures outcome == None <==> t.fate.Unreached? || t.fate.Unheard?
    ensures outcome == Some(TurnedAway) <==> t.fate.Refused?
    ensures outcome == Some(Settled) || outcome == Some(Failed) ==> t.fate.Heard? && req.event !in h'.open
    ensures outcome == Some(Failed) <==> FailsAt(h, t, req.event)
    ensures outcome != Some(GaveUp)
  {
    hide Run, OpsOf;
    Arrived(h, t, req);
    var result := ReplyResult(Run(h, t.before), req);
    h' := Run(h, OpsOf(t, req));
    match t.fate
    case Unreached => outcome := None;
    case Refused => outcome := Some(TurnedAway);
    case Unheard(_) => outcome := None;
    case Heard(_) => outcome := Some(if result == UpstreamGone then Failed else Settled);
  }

  /** At most five attempts, and only I/O errors are retried. A hub answer that was heard, of either kind, means the
      prompt is no longer open. */
  method Reply(h: Hub, req: ReplyRequest, tries: seq<Attempt>) returns (outcome: Outcome, attempt: nat, h': Hub)
    requires |tries| >= MAX_ATTEMPTS
    ensures 1 <= attempt <= MAX_ATTEMPTS && h' == Run(h, OpsOfAll(tries[..attempt], req))
    ensures outcome == GaveUp ==> attempt == MAX_ATTEMPTS
    ensures outcome == Settled || outcome == Failed ==> req.event !in h'.open && tries[attempt - 1].fate.Heard?
    ensures outcome == TurnedAway <==> tries[attempt - 1].fate.Refused?
    ensures outcome == Failed <==> FailsAt(Run(h, OpsOfAll(tries[..attempt - 1], req)), tries[attempt - 1], req.event)
    ensures forall i :: 0 <= i < (if outcome == GaveUp then attempt else attempt - 1) ==>
      tries[i].fate.Unreached? || tries[i].fate.Unheard?
  {
    hide Run, OpsOfAll, OpsOf, FailsAt;
    RunNone(h, tries, req);
    h', attempt := h, 0;
    while true
      invariant attempt < MAX_ATTEMPTS && h' == Run(h, OpsOfAll(tries[..attempt], req))
      invariant forall i :: 0 <= i < attempt ==> tries[i].fate.Unreached? || tries[i].fate.Unheard?
      decreases MAX_ATTEMPTS - attempt
    {
      Snoc(tries, attempt, req);
      RunConcat(h, OpsOfAll(tries[..attempt], req), OpsOf(tries[attempt], req));
      var result;
      h', result := Try(h', tries[attempt], req);
      attempt := attempt + 1;
      if result.Some? {
        outcome := result.value;
        return;
      }
      if attempt >= MAX_ATTEMPTS {
        outcome := GaveUp;
        return;
      }
    }
  }

  /** However many of the attempts arrive, and whoever else replies between them, at most one answer to the prompt is
      accepted. */
  lemma RepliesOnce(h: Hub, req: ReplyRequest, tries: seq<Attempt>, asked: seq<Ask>)
    requires Sound(h) && AllNumber(OpsOfAll(tries, req)) && forall id :: id in h.open ==> AskOf(h, id) in asked
    ensures var acc := AcceptedIn(h, OpsOfAll(tries, req));
      forall i, j :: 0 <= i < j < |acc| ==> !(acc[i].ask.event == req.event == acc[j].ask.event)
  {
    hide Sound, OpsOfAll, AcceptedIn, AskedIn;
    AnsweredOnce(h, OpsOfAll(tries, req), asked);
  }

  // ---- one attempt

  /** What comes back for one request: an I/O error, or a status with the server's clock when it was the date that was
      refused. */
  datatype Response = Broken | Response(code: nat, serverTime: Option<int>)

  /** The client's session: whether it has a key, and how far its clock is off. */
  class Client {
    var hasKey: bool
    var clockOffset: int

    /** execSigned: a request, repeated once when its date was refused. Every response but the last is a 401. */
    method ExecSigned(net: seq<Response>, now: int) returns (r: Response, sent: nat)
      requires |net| >= 2
      modifies this`clockOffset
      ensures 1 <= sent <= 2 && r == net[sent - 1]
      ensures sent == 2 <==> net[0].Response? && net[0].code == 401 && net[0].serverTime.Some?
      ensures clockOffset == if sent == 2 then net[0].serverTime.value - now else old(clockOffset)
    {
      r, sent := net[0], 1;
      if r.Broken? || r.code != 401 {
        return;
      }
      if r.serverTime.None? {
        return;
      }
      clockOffset := r.serverTime.value - now;
      r, sent := net[1], 2;
    }

    /** authed: log in when there is no key, and once more when a request is refused. `logins` says how the log-ins
        go. At most four requests are sent and all but the last are refused, so at most one is acted upon: the
        attempt of `Reply`. */
    method Authed(net: seq<Response>, logins: seq<bool>, now: int) returns (r: Response, sent: nat)
      requires |net| >= 4 && |logins| >= 2
      modifies this
      ensures sent <= 4 && forall i :: 0 <= i < sent - 1 ==> net[i].Response? && net[i].code == 401
      ensures r == Broken || (sent > 0 && r == net[sent - 1])
      ensures sent > 0 && (net[sent - 1].Broken? || net[sent - 1].code != 401) ==> r == net[sent - 1]
      ensures sent > 0 <==> old(hasKey) || logins[0]
      ensures r.Response? && r.code == 401 ==> logins[1] && sent >= 2
      ensures r.Broken? ==> (!old(hasKey) && !logins[0]) || !logins[1] || net[sent - 1].Broken?
      ensures hasKey == (old(hasKey) || logins[0])
    {
      sent := 0;
      if !hasKey {
        hasKey := logins[0];
        if !hasKey {
          return Broken, 0;
        }
      }
      r, sent := ExecSigned(net, now);
      if r.Broken? || r.code != 401 {
        return;
      }
      if !logins[1] {
        r := Broken;
        return;
      }
      var more;
      r, more := ExecSigned(net[sent..], now);
      sent := sent + more;
    }
  }
}

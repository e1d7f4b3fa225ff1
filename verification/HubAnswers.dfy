/** Who may answer a prompt of api/internal/hub/hub.go, and how often. */
module HubAnswers {
  import opened Ids
  import opened HubSpec
  import opened Wrappers
  import opened HubRing
  import opened HubPrompts

  /** A prompt as a window reported it, under the identifier the hub gave it. */
  datatype Ask = Ask(event: string, upstream: string, request: string)

  /** An answer the hub accepted. */
  datatype Accepted = Accepted(ask: Ask, action: string)

  function AskedAt(h: Hub, op: Op): seq<Ask> {
    if op.OpIngest? && op.ev.Permission?
    then [Ask(EventId(h.seqNo + 1), op.upstream, op.ev.request)]
    else []
  }

  function AcceptedAt(h: Hub, op: Op): seq<Accepted> {
    if op.OpReply? && ReplyResult(h, op.req) == Queued
    then [Accepted(AskOf(h, op.req.event), op.req.action)]
    else []
  }

  function AskOf(h: Hub, id: string): Ask
    requires id in h.open
  {
    Ask(id, h.open[id].upstream, h.open[id].request)
  }

  function AskedIn(h: Hub, ops: seq<Op>): seq<Ask>
    decreases |ops|
  {
    if ops == [] then [] else AskedAt(h, ops[0]) + AskedIn(Step(h, ops[0]), ops[1..])
  }

  function AcceptedIn(h: Hub, ops: seq<Op>): seq<Accepted>
    decreases |ops|
  {
    if ops == [] then [] else AcceptedAt(h, ops[0]) + AcceptedIn(Step(h, ops[0]), ops[1..])
  }

  ghost predicate AllNumber(ops: seq<Op>) {
    forall i :: 0 <= i < |ops| ==> Numbers(ops[i])
  }

  // ---- what a step does to the open prompts

  /** A step opens at most the prompt it was asked for, under the next identifier; the others it keeps as they
      were or closes. */
  lemma StepOpens(h: Hub, op: Op, id: string)
    requires Sound(h) && id in Step(h, op).open
    ensures if id in h.open then AskOf(Step(h, op), id) == AskOf(h, id) else AskedAt(h, op) == [AskOf(Step(h, op), id)]
  {
    hide Sound, Ingest, Publish, Reply, Prompt, Subscribe, Unsubscribe, EventId;
    match op
    case OpPublish(env) => PublishOpens(h, env, id);
    case OpIngest(up, project, ev, now, evicted) => IngestOpens(h, up, project, ev, now, evicted, id);
    case OpReply(req, nonce) => ReplyOpens(h, req, nonce, id);
    case _ =>
  }

  lemma ReplyOpens(h: Hub, req: ReplyRequest, nonce: string, id: string)
    requires id in Reply(h, req, nonce).open
    ensures id in h.open && Reply(h, req, nonce).open[id] == h.open[id]
  {
    hide QueueDecision, ClearPrompt, DecisionFor;
  }

  lemma PublishOpens(h: Hub, env: Envelope, id: string)
    requires id in Publish(h, env).open
    ensures id in h.open && Publish(h, env).open[id] == h.open[id]
  {
    hide Stamp;
  }

  lemma IngestOpens(h: Hub, up: string, project: string, ev: Event, now: int, evicted: set<string>, id: string)
    requires Sound(h) && id in Ingest(h, up, project, ev, now, evicted).open
    ensures var h' := Ingest(h, up, project, ev, now, evicted);
      if id in h.open then AskOf(h', id) == AskOf(h, id)
      else ev.Permission? && AskOf(h', id) == Ask(EventId(h.seqNo + 1), up, ev.request)
  {
    hide Truncate, Publish, OnStatus, GetOrCreate, OnMessage, TrackPrompt, Touch, Sound, EventId,
      PermEnvelope, ClearPrompt;
    match ev
    case Permission(_, _, _, _, _) =>
      FreshStamp(h, PermEnvelope(project, ev));
      if id != EventId(h.seqNo + 1) {
        PublishOpens(h, PermEnvelope(project, ev), id);
      }
    case Replied(request) =>
      if request in h.byRequest && h.byRequest[request] in h.open {
        var e := h.byRequest[request];
        var p := h.open[e];
        var h1 := ClearPrompt(h.(open := h.open - {e}, byRequest := h.byRequest - {request}), p.session, e);
        PublishOpens(h1, Envelope(e, 0, Gone, p.env.project, p.env.session, "", "", [], "", 0), id);
      }
    case IdleEvent(session, time) =>
      PublishOpens(OnStatus(h, up, project, session, time, now, evicted),
                   Blank(Idle, project, session).(title := "idle"), id);
    case ErrorEvent(session, description) =>
      PublishOpens(h, Blank(Err, project, session).(title := "error", body := Truncate(description, 256)), id);
    case _ =>
  }

  lemma IssuedKept(h: Hub, op: Op, id: string)
    requires Issued(id, h.seqNo)
    ensures Issued(id, Step(h, op).seqNo)
    ensures AskedAt(h, op) != [] ==> AskedAt(h, op)[0].event != id
  {
    hide Step;
    IssuedGrows(id, h.seqNo);
  }

  /** An identifier that has left the open prompts, however it left, never opens again. */
  lemma {:induction false} NeverReturns(h: Hub, ops: seq<Op>, id: string)
    requires Sound(h) && AllNumber(ops) && Issued(id, h.seqNo) && id !in h.open
    ensures id !in Run(h, ops).open
    ensures forall i :: 0 <= i < |AcceptedIn(h, ops)| ==> AcceptedIn(h, ops)[i].ask.event != id
    decreases |ops|
  {
    hide Sound, Issued, Step, EventId;
    if ops != [] {
      StepSound(h, ops[0]);
      IssuedKept(h, ops[0], id);
      if id in Step(h, ops[0]).open {
        StepOpens(h, ops[0], id);
      }
      NeverReturns(Step(h, ops[0]), ops[1..], id);
    }
  }

  /** Once a reply has been sent for an open prompt, accepted or with its window gone, every later reply to
      the same prompt is refused, whatever happens in between. */
  lemma ReplySettles(h: Hub, req: ReplyRequest, nonce: string, ops: seq<Op>, again: ReplyRequest)
    requires Sound(h) && AllNumber(ops) && req.event in h.open && again.event == req.event
    ensures ReplyResult(h, req) != AlreadyAnswered
    ensures ReplyResult(Run(Step(h, OpReply(req, nonce)), ops), again) == AlreadyAnswered
  {
    hide Sound, Issued, QueueDecision, ClearPrompt;
    var op := OpReply(req, nonce);
    StepSound(h, op);
    OpenIssued(h, req.event);
    IssuedKept(h, op, req.event);
    NeverReturns(Step(h, op), ops, req.event);
  }

  /** Answers to different prompts, each to a prompt that was asked. */
  ghost predicate Once(acc: seq<Accepted>, asked: seq<Ask>) {
    && (forall i, j :: 0 <= i < j < |acc| ==> acc[i].ask.event != acc[j].ask.event)
    && (forall i :: 0 <= i < |acc| ==> acc[i].ask in asked)
  }

  lemma OnceCons(a: Accepted, acc: seq<Accepted>, asked: seq<Ask>)
    requires Once(acc, asked) && a.ask in asked && forall i :: 0 <= i < |acc| ==> acc[i].ask.event != a.ask.event
    ensures Once([a] + acc, asked)
  {
  }

  /** In every run the answers accepted are to different prompts, and each is recorded for the window and the
      request that prompt was reported with. */
  lemma {:induction false} AnsweredOnce(h: Hub, ops: seq<Op>, asked: seq<Ask>)
    requires Sound(h) && AllNumber(ops)
    requires forall id :: id in h.open ==> AskOf(h, id) in asked
    ensures Once(AcceptedIn(h, ops), asked + AskedIn(h, ops))
    decreases |ops|
  {
    hide Sound, Issued, Step, EventId, AskedAt, Once;
    if ops == [] {
      OnceNone(asked + AskedIn(h, ops));
    } else {
      var h1 := Step(h, ops[0]);
      StepSound(h, ops[0]);
      forall id | id in h1.open ensures AskOf(h1, id) in asked + AskedAt(h, ops[0]) {
        StepOpens(h, ops[0], id);
      }
      AnsweredOnce(h1, ops[1..], asked + AskedAt(h, ops[0]));
      assert asked + AskedAt(h, ops[0]) + AskedIn(h1, ops[1..]) == asked + AskedIn(h, ops);
      if AcceptedAt(h, ops[0]) == [] {
        assert [] + AcceptedIn(h1, ops[1..]) == AcceptedIn(h1, ops[1..]);
      } else {
        AcceptedGone(h, ops[0]);
        NeverReturns(h1, ops[1..], ops[0].req.event);
        OnceCons(AcceptedAt(h, ops[0])[0], AcceptedIn(h1, ops[1..]), asked + AskedIn(h, ops));
      }
    }
  }

  lemma OnceNone(asked: seq<Ask>)
    ensures Once([], asked)
  {
  }

  lemma AcceptedGone(h: Hub, op: Op)
    requires Sound(h) && AcceptedAt(h, op) != []
    ensures op.req.event in h.open && op.req.event !in Step(h, op).open && Issued(op.req.event, Step(h, op).seqNo)
  {
    hide Sound, Issued, QueueDecision, ClearPrompt;
    OpenIssued(h, op.req.event);
    IssuedKept(h, op, op.req.event);
  }
}

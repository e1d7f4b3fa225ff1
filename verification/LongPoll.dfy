/** The three long polls of api/internal/hub/hub.go as a program counter against the hub: check, subscribe,
    check again, wait for a token. No wakeup is lost. */
module LongPoll {
  import opened Ids
  import opened HubSpec
  import opened Wrappers
  import opened HubRing
  import HubConversation

  // ---- what the hub promises its pollers

  ghost predicate RingNudge(h: Hub, h': Hub) {
    h'.subs == h.subs && ((h'.ring == h.ring && h'.seqNo == h.seqNo) || h.subs <= h'.tokens)
  }

  ghost predicate QueueNudge(up: Upstream, up': Upstream, tokens: set<Chan>) {
    up'.wakers == up.wakers
    && ((up'.decisions == up.decisions && up'.decCursor == up.decCursor) || up.wakers <= tokens)
  }

  ghost predicate ConvNudge(s: Sess, s': Sess, tokens: set<Chan>) {
    s'.wakers == s.wakers && ((s'.conv == s.conv && s'.convSeq == s.convSeq) || s.wakers <= tokens)
  }

  /** A change of the hub leaves alone, or wakes, everyone waiting for what changed, takes no token, and nobody waits
      on what is new. */
  ghost predicate Nudges(h: Hub, h': Hub) {
    && h.tokens <= h'.tokens && RingNudge(h, h')
    && (forall u :: u in h.upstreams && u in h'.upstreams ==> QueueNudge(h.upstreams[u], h'.upstreams[u], h'.tokens))
    && (forall s :: s in h.sessions && s in h'.sessions ==> ConvNudge(h.sessions[s], h'.sessions[s], h'.tokens))
    && (forall u :: u in h'.upstreams && u !in h.upstreams ==> h'.upstreams[u].wakers == {})
    && (forall s :: s in h'.sessions && s !in h.sessions ==> h'.sessions[s].wakers == {})
  }

  lemma Then(h: Hub, h1: Hub, h2: Hub)
    requires Nudges(h, h1) && Nudges(h1, h2)
    requires forall u :: u in h.upstreams && u in h2.upstreams ==> u in h1.upstreams
    requires forall s :: s in h.sessions && s in h2.sessions ==> s in h1.sessions
    ensures Nudges(h, h2)
  {
    forall s | s in h.sessions && s in h2.sessions ensures ConvNudge(h.sessions[s], h2.sessions[s], h2.tokens) {
      assert ConvNudge(h.sessions[s], h1.sessions[s], h1.tokens);
      assert ConvNudge(h1.sessions[s], h2.sessions[s], h2.tokens);
    }
    forall u | u in h.upstreams && u in h2.upstreams ensures QueueNudge(h.upstreams[u], h2.upstreams[u], h2.tokens) {
      assert QueueNudge(h.upstreams[u], h1.upstreams[u], h1.tokens);
      assert QueueNudge(h1.upstreams[u], h2.upstreams[u], h2.tokens);
    }
    forall s | s in h2.sessions && s !in h.sessions ensures h2.sessions[s].wakers == {} {
      if s in h1.sessions {
        assert ConvNudge(h1.sessions[s], h2.sessions[s], h2.tokens);
      }
    }
    forall u | u in h2.upstreams && u !in h.upstreams ensures h2.upstreams[u].wakers == {} {
      if u in h1.upstreams {
        assert QueueNudge(h1.upstreams[u], h2.upstreams[u], h2.tokens);
      }
    }
  }

  lemma PublishNudges(h: Hub, env: Envelope)
    ensures Nudges(h, Publish(h, env))
  {
    hide Stamp;
  }

  lemma PutNudges(h: Hub, session: string, s: Sess)
    requires session in h.sessions && s.wakers == h.sessions[session].wakers
    ensures Nudges(h, Put(h, session, s))
  {
  }

  lemma GetOrCreateNudges(h: Hub, up: string, project: string, session: string, now: int, evicted: set<string>)
    ensures Nudges(h, GetOrCreate(h, up, project, session, now, evicted))
  {
  }

  lemma ClearNudges(h: Hub, session: string, id: string)
    ensures Nudges(h, ClearPrompt(h, session, id))
  {
    hide IndexOf;
  }

  lemma QueueNudges(h: Hub, u: string, dec: Decision, nonce: string)
    requires u in h.upstreams
    ensures Nudges(h, QueueDecision(h, u, dec, nonce))
  {
    hide DecisionId;
  }

  /** Nothing a poller reads or waits on differs. */
  lemma BooksNudge(h: Hub, h': Hub)
    requires h'.ring == h.ring && h'.seqNo == h.seqNo && h'.subs == h.subs && h'.upstreams == h.upstreams
    requires h'.sessions == h.sessions && h'.tokens == h.tokens
    ensures Nudges(h, h')
  {
  }

  lemma TrackNudges(h: Hub, up: string, project: string, session: string, env: Envelope, now: int, evicted: set<string>)
    ensures Nudges(h, TrackPrompt(h, up, project, session, env, now, evicted))
  {
    hide Nudges, AppendConv, GetOrCreate;
    if session == "" {
      BooksNudge(h, h);
    } else {
      var h1 := GetOrCreate(h, up, project, session, now, evicted);
      GetOrCreateNudges(h, up, project, session, now, evicted);
      var s := h1.sessions[session].(pendingPrompt := env.id);
      AppendWakers(s, env, h1.convSize);
      PutNudges(h1, session, Touch(AppendConv(s, env, h1.convSize), now));
      ThenPut(h, h1, session, Touch(AppendConv(s, env, h1.convSize), now));
    }
  }

  lemma AppendWakers(s: Sess, env: Envelope, size: nat)
    ensures AppendConv(s, env, size).wakers == s.wakers
  {
    hide IndexOf;
  }

  lemma ThenPut(h: Hub, h1: Hub, session: string, s: Sess)
    requires Nudges(h, h1) && session in h1.sessions && s.wakers == h1.sessions[session].wakers
    ensures Nudges(h, Put(h1, session, s))
  {
    hide Nudges;
    PutNudges(h1, session, s);
    Then(h, h1, Put(h1, session, s));
  }

  lemma MessageNudges(h: Hub, up: string, project: string, ev: Event, now: int, evicted: set<string>)
    requires ev.Message?
    ensures Nudges(h, OnMessage(h, up, project, ev, now, evicted))
  {
    hide Nudges, AppendConv, GetOrCreate, Truncate, PartId, Blank;
    if ev.session == "" {
      BooksNudge(h, h);
    } else {
      var h1 := GetOrCreate(h, up, project, ev.session, now, evicted);
      GetOrCreateNudges(h, up, project, ev.session, now, evicted);
      var was := h1.sessions[ev.session];
      var s := if ev.part == "" then was.(convSeq := was.convSeq + 1) else was;
      var id := if ev.part == "" then PartId(s.convSeq) else ev.part;
      var env := Blank(Msg, project, ev.session).(id := id, text := Truncate(ev.text, 4096));
      AppendWakers(s, env, h1.convSize);
      ThenPut(h, h1, ev.session, Touch(AppendConv(s, env, h1.convSize), ev.time));
    }
  }

  lemma StatusNudges(h: Hub, up: string, project: string, session: string, time: int, now: int, evicted: set<string>)
    ensures Nudges(h, OnStatus(h, up, project, session, time, now, evicted))
  {
    hide Nudges, GetOrCreate;
    var h1 := GetOrCreate(h, up, project, session, now, evicted);
    GetOrCreateNudges(h, up, project, session, now, evicted);
    ThenPut(h, h1, session, Touch(h1.sessions[session], time));
  }

  lemma SeenNudges(h: Hub, up: string, project: string, session: string, time: int, now: int, evicted: set<string>)
    ensures Nudges(h, Ingest(h, up, project, SessionSeen(session, time), now, evicted))
  {
    hide GetOrCreate;
    var h1 := GetOrCreate(h, up, project, session, now, evicted);
    GetOrCreateNudges(h, up, project, session, now, evicted);
    var h2 := h1.(sessions := h1.sessions[session := Touch(h1.sessions[session], time)]);
    assert Nudges(h1, h2);
    Then(h, h1, h2);
  }

  lemma RepliedNudges(h: Hub, request: string)
    ensures Nudges(h, OnReplied(h, request))
  {
    hide Nudges, ClearPrompt, Publish;
    if request in h.byRequest && h.byRequest[request] in h.open {
      var id := h.byRequest[request];
      var p := h.open[id];
      var h0 := h.(open := h.open - {id}, byRequest := h.byRequest - {request});
      var h1 := ClearPrompt(h0, p.session, id);
      BooksNudge(h, h0);
      ClearNudges(h0, p.session, id);
      Then(h, h0, h1);
      ThenPublish(h, h1, Envelope(id, 0, Gone, p.env.project, p.env.session, "", "", [], "", 0));
    } else {
      BooksNudge(h, OnReplied(h, request));
    }
  }

  lemma ThenPublish(h: Hub, h1: Hub, env: Envelope)
    requires Nudges(h, h1)
    ensures Nudges(h, Publish(h1, env))
  {
    hide Nudges, Publish;
    PublishNudges(h1, env);
    Then(h, h1, Publish(h1, env));
  }

  lemma PermissionNudges(h: Hub, up: string, project: string, ev: Event, now: int, evicted: set<string>)
    requires ev.Permission?
    ensures Nudges(h, OnPermission(h, up, project, ev, now, evicted))
  {
    hide Nudges, Publish, TrackPrompt, PermEnvelope, Stamp;
    var h1 := Publish(h, PermEnvelope(project, ev));
    var h2 := Opened(h, up, project, ev);
    PublishNudges(h, PermEnvelope(project, ev));
    BooksNudge(h1, h2);
    Then(h, h1, h2);
    TrackNudges(h2, up, project, ev.session, Stamp(h, PermEnvelope(project, ev)), now, evicted);
    Then(h, h2, OnPermission(h, up, project, ev, now, evicted));
  }

  lemma IngestNudges(h: Hub, up: string, project: string, ev: Event, now: int, evicted: set<string>)
    ensures Nudges(h, Ingest(h, up, project, ev, now, evicted))
  {
    match ev
    case Permission(_, _, _, _, _) => PermissionNudges(h, up, project, ev, now, evicted);
    case Replied(request) => RepliedNudges(h, request);
    case Message(_, _, _, _) => MessageNudges(h, up, project, ev, now, evicted);
    case IdleEvent(session, time) =>
      hide Nudges, OnStatus, Publish;
      StatusNudges(h, up, project, session, time, now, evicted);
      ThenPublish(h, OnStatus(h, up, project, session, time, now, evicted),
                  Blank(Idle, project, session).(title := "idle"));
    case ErrorEvent(session, description) =>
      PublishNudges(h, Blank(Err, project, session).(title := "error", body := Truncate(description, 256)));
    case SessionSeen(session, time) => SeenNudges(h, up, project, session, time, now, evicted);
    case SessionStatus(session, time) => StatusNudges(h, up, project, session, time, now, evicted);
    case SessionDeleted(_) =>
    case Other =>
  }

  lemma ReplyNudges(h: Hub, req: ReplyRequest, nonce: string)
    ensures Nudges(h, Reply(h, req, nonce))
  {
    hide Nudges, ClearPrompt, QueueDecision, DecisionFor;
    if req.event in h.open {
      var p := h.open[req.event];
      var h0 := h.(open := h.open - {req.event}, byRequest := h.byRequest - {p.request});
      var h1 := Settle(h, req.event);
      BooksNudge(h, h0);
      ClearNudges(h0, p.session, req.event);
      Then(h, h0, h1);
      if p.upstream in h.upstreams {
        QueueNudges(h1, p.upstream, DecisionFor(p, req), nonce);
        Then(h, h1, Reply(h, req, nonce));
      }
    } else {
      BooksNudge(h, h);
    }
  }

  lemma PromptNudges(h: Hub, session: string, text: string, nonce: string, now: int)
    ensures Nudges(h, Prompt(h, session, text, nonce, now))
  {
    hide QueueDecision, Truncate;
    if Prompt(h, session, text, nonce, now) == h {
      BooksNudge(h, h);
    } else {
      var u := h.sessions[session].upstream;
      var dec := Decision("", "", "", session, "prompt", "text", 0, Truncate(text, 4096), 0);
      var h1 := QueueDecision(h, u, dec, nonce);
      QueueNudges(h, u, dec, nonce);
      assert Nudges(h1, Prompt(h, session, text, nonce, now));
      Then(h, h1, Prompt(h, session, text, nonce, now));
    }
  }

  /** Every step but the pollers' own. */
  lemma StepNudges(h: Hub, op: Op)
    requires !op.OpSubscribe? && !op.OpUnsubscribe? && !op.OpTake?
    requires op.OpRegister? ==> UpstreamId(h.upSeq + 1) !in h.upstreams
    ensures Nudges(h, Step(h, op))
  {
    match op
    case OpPublish(env) => PublishNudges(h, env);
    case OpIngest(up, project, ev, now, evicted) => IngestNudges(h, up, project, ev, now, evicted);
    case OpReply(req, nonce) => ReplyNudges(h, req, nonce);
    case OpPrompt(session, text, nonce, now) => PromptNudges(h, session, text, nonce, now);
    case OpRegister(_) =>
      hide UpstreamId;
    case OpRemove(_) =>
  }

  // ---- a poller

  datatype Pc = Start | Finding | Subscribing | Rechecking | Waiting | Woken | Done

  /** One call of Poll, PollDecisions or Conversation with its own channel. */
  datatype Poller = Poller(topic: Topic, ch: Chan, cursor: nat, pc: Pc)

  predicate Present(h: Hub, t: Topic) {
    match t
    case RingTopic => true
    case DecisionTopic(u) => u in h.upstreams
    case ConvTopic(s) => s in h.sessions
  }

  /** The call would return: an error, or something newer than the cursor. */
  predicate Ready(h: Hub, t: Topic, cursor: nat) {
    match t
    case RingTopic => var r := PollOnce(h, cursor); r.Refused? || r.items != []
    case DecisionTopic(u) => var r := PollDecisionsOnce(h, u, cursor); r.Refused? || r.items != []
    case ConvTopic(s) => var r := ConversationOnce(h, s, cursor); r.Refused? || r.items != []
  }

  predicate Subscribed(h: Hub, t: Topic, ch: Chan) {
    match t
    case RingTopic => ch in h.subs
    case DecisionTopic(u) => u in h.upstreams && ch in h.upstreams[u].wakers
    case ConvTopic(s) => s in h.sessions && ch in h.sessions[s].wakers
  }

  /** `Act` is the poller's next critical section, `Timeout` its timer or its caller giving up, `Env` any step of
      anyone else. */
  datatype Turn = Act | Timeout | Env(op: Op)

  /** Only PollDecisions looks its window up under a lock of its own before it subscribes; Conversation does
      both under one. */
  function ActOf(h: Hub, p: Poller): (Hub, Poller) {
    match p.pc
    case Start => (h, p.(pc := if Ready(h, p.topic, p.cursor) then Done
                               else if p.topic.DecisionTopic? then Finding else Subscribing))
    case Finding => (h, p.(pc := if Present(h, p.topic) then Subscribing else Done))
    case Subscribing =>
      if p.topic.ConvTopic? && !Present(h, p.topic) then (h, p.(pc := Done))
      else (Subscribe(h, p.topic, p.ch), p.(pc := Rechecking))
    case Rechecking => Rest(h, p)
    case Waiting => if p.ch in h.tokens then (TakeToken(h, p.ch), p.(pc := Woken)) else (h, p)
    case Woken => Rest(h, p)
    case Done => (h, p)
  }

  function Rest(h: Hub, p: Poller): (Hub, Poller) {
    if Ready(h, p.topic, p.cursor) then (Unsubscribe(h, p.topic, p.ch), p.(pc := Done))
    else (h, p.(pc := Waiting))
  }

  function Advance(h: Hub, p: Poller, e: Turn): (Hub, Poller) {
    match e
    case Act => ActOf(h, p)
    case Timeout => if p.pc == Waiting then (Unsubscribe(h, p.topic, p.ch), p.(pc := Done)) else (h, p)
    case Env(op) => (Step(h, op), p)
  }

  /** Everyone else uses channels of their own. */
  predicate Foreign(op: Op, ch: Chan) {
    (op.OpSubscribe? || op.OpUnsubscribe? || op.OpTake?) ==> op.ch != ch
  }

  /** The topic goes away without session.deleted: its session is evicted or dropped with its window, or its
      window is removed. */
  predicate Dropped(h: Hub, op: Op, t: Topic) {
    Present(h, t) && !Present(Step(h, op), t) && !(t.ConvTopic? && op.OpIngest? && op.ev == SessionDeleted(t.session))
  }

  /** A topic that had gone away is there again. */
  predicate Recreated(h: Hub, op: Op, t: Topic) {
    !Present(h, t) && Present(Step(h, op), t)
  }

  /** Where the poller stands: subscribed, or its topic gone for good; and asleep only with nothing to see. */
  ghost predicate Listening(h: Hub, p: Poller) {
    && (p.pc in {Rechecking, Waiting, Woken} ==> Subscribed(h, p.topic, p.ch) || !Present(h, p.topic))
    && (p.pc == Waiting ==> Ready(h, p.topic, p.cursor) ==> p.ch in h.tokens)
  }

  /** The channel is registered nowhere but at its own topic. */
  ghost predicate Own(h: Hub, t: Topic, ch: Chan) {
    forall other :: Subscribed(h, other, ch) ==> other == t
  }

  /** What anyone else may do: use other channels, and register a window under an unused identifier. */
  predicate Others(h: Hub, op: Op, ch: Chan) {
    Foreign(op, ch) && (op.OpRegister? ==> UpstreamId(h.upSeq + 1) !in h.upstreams)
  }

  /** The two things that strand a poller: its topic goes away while it sleeps without a token, or the topic is there
      again before it has noticed. */
  predicate Strands(h: Hub, op: Op, p: Poller) {
    || (p.pc == Waiting && p.ch !in h.tokens && Dropped(h, op, p.topic))
    || (p.pc in {Rechecking, Waiting, Woken} && Recreated(h, op, p.topic))
  }

  lemma ActListening(h: Hub, p: Poller)
    requires Listening(h, p)
    ensures Listening(ActOf(h, p).0, ActOf(h, p).1)
  {
    hide PollOnce, PollDecisionsOnce, ConversationOnce;
  }

  /** A change that nudges and keeps the topic: whatever is new to a subscriber comes with a token. */
  lemma NudgedReady(h: Hub, h': Hub, t: Topic, ch: Chan, cursor: nat)
    requires Nudges(h, h') && Subscribed(h, t, ch) && Present(h', t)
    ensures Subscribed(h', t, ch)
    ensures Ready(h', t, cursor) && !Ready(h, t, cursor) ==> ch in h'.tokens
  {
    hide Newer, NewerDecisions;
  }

  /** Every queue, conversation and the ring read the same, and `ch` waits where it waited. */
  ghost predicate SameReads(h: Hub, h': Hub, ch: Chan) {
    && h'.ring == h.ring && h'.seqNo == h.seqNo
    && (ch in h'.subs <==> ch in h.subs) && (ch in h'.tokens <==> ch in h.tokens)
    && h'.upstreams.Keys == h.upstreams.Keys && h'.sessions.Keys == h.sessions.Keys
    && (forall u :: u in h.upstreams ==> SameUpstream(h.upstreams[u], h'.upstreams[u], ch))
    && (forall s :: s in h.sessions ==> SameSession(h.sessions[s], h'.sessions[s], ch))
  }

  ghost predicate SameUpstream(up: Upstream, up': Upstream, ch: Chan) {
    up'.decisions == up.decisions && up'.decCursor == up.decCursor && (ch in up'.wakers <==> ch in up.wakers)
  }

  ghost predicate SameSession(s: Sess, s': Sess, ch: Chan) {
    s'.conv == s.conv && s'.convSeq == s.convSeq && (ch in s'.wakers <==> ch in s.wakers)
  }

  lemma ForeignReads(h: Hub, op: Op, ch: Chan)
    requires (op.OpSubscribe? || op.OpUnsubscribe? || op.OpTake?) && Foreign(op, ch)
    ensures SameReads(h, Step(h, op), ch)
  {
    hide SameReads, Subscribe, Unsubscribe, TakeToken;
    match op
    case OpSubscribe(t, other) => SubscribeReads(h, t, other, ch);
    case OpUnsubscribe(t, other) => UnsubscribeReads(h, t, other, ch);
    case OpTake(other) => TakeReads(h, other, ch);
  }

  lemma SubscribeReads(h: Hub, t: Topic, other: Chan, ch: Chan)
    requires other != ch
    ensures SameReads(h, Subscribe(h, t, other), ch)
  {
  }

  lemma UnsubscribeReads(h: Hub, t: Topic, other: Chan, ch: Chan)
    requires other != ch
    ensures SameReads(h, Unsubscribe(h, t, other), ch)
  {
  }

  lemma TakeReads(h: Hub, other: Chan, ch: Chan)
    requires other != ch
    ensures SameReads(h, TakeToken(h, other), ch)
  {
  }

  /** A foreign subscription, unsubscription or token changes nothing a poller sees. */
  lemma ForeignReady(h: Hub, op: Op, t: Topic, ch: Chan, cursor: nat)
    requires (op.OpSubscribe? || op.OpUnsubscribe? || op.OpTake?) && Foreign(op, ch)
    ensures Ready(Step(h, op), t, cursor) == Ready(h, t, cursor) && Present(Step(h, op), t) == Present(h, t)
    ensures Subscribed(Step(h, op), t, ch) == Subscribed(h, t, ch)
    ensures ch in Step(h, op).tokens <==> ch in h.tokens
  {
    hide Newer, NewerDecisions, Step;
    ForeignReads(h, op, ch);
  }

  lemma DeletedWakes(h: Hub, op: Op, session: string, ch: Chan)
    requires op.OpIngest? && op.ev == SessionDeleted(session) && Subscribed(h, ConvTopic(session), ch)
    ensures ch in Step(h, op).tokens
  {
  }

  /** What changes under a subscriber wakes it, unless it is stranded. */
  lemma EnvKeeps(h: Hub, p: Poller, op: Op)
    requires Listening(h, p) && Others(h, op, p.ch) && !Strands(h, op, p)
    ensures Listening(Step(h, op), p)
  {
    hide Step, Ready, Subscribed, Present, Nudges;
    if op.OpSubscribe? || op.OpUnsubscribe? || op.OpTake? {
      ForeignReady(h, op, p.topic, p.ch, p.cursor);
    } else if p.pc in {Rechecking, Waiting, Woken} {
      StepNudges(h, op);
      AbsentReady(h, p.topic, p.cursor);
      MoreTokens(h, Step(h, op));
      if Present(h, p.topic) && Present(Step(h, op), p.topic) {
        NudgedReady(h, Step(h, op), p.topic, p.ch, p.cursor);
      } else if Present(h, p.topic) && !Dropped(h, op, p.topic) {
        DeletedWakes(h, op, p.topic.session, p.ch);
      }
    }
  }

  /** Nobody who waited before waits on a topic that is there again. */
  lemma RecreatedAlone(h: Hub, op: Op, t: Topic, ch: Chan)
    requires Others(h, op, ch) && Recreated(h, op, t)
    ensures !Subscribed(Step(h, op), t, ch)
  {
    hide Step, Ready;
    if op.OpSubscribe? || op.OpUnsubscribe? || op.OpTake? {
      ForeignReady(h, op, t, ch, 0);
    } else {
      StepNudges(h, op);
    }
  }

  /** A poller that listens goes on listening if and only if the step does not strand it. */
  lemma EnvListening(h: Hub, p: Poller, op: Op)
    requires Listening(h, p) && Own(h, p.topic, p.ch) && Others(h, op, p.ch)
    ensures Listening(Step(h, op), p) <==> !Strands(h, op, p)
  {
    if !Strands(h, op, p) {
      EnvKeeps(h, p, op);
    } else if p.pc == Waiting && p.ch !in h.tokens && Dropped(h, op, p.topic) {
      DropStrands(h, op, p.topic, p.ch, p.cursor);
    } else {
      hide Step;
      RecreatedAlone(h, op, p.topic, p.ch);
    }
  }

  /** Dropping a topic wakes nobody: whatever the step, a poller of it that has no token keeps none, though its call
      would now return an error. */
  lemma DropStrands(h: Hub, op: Op, t: Topic, ch: Chan, cursor: nat)
    requires Dropped(h, op, t) && ch !in h.tokens && Own(h, t, ch)
    ensures Ready(Step(h, op), t, cursor) && ch !in Step(h, op).tokens
  {
    AbsentReady(Step(h, op), t, cursor);
    NotSubscribed(h, t, ch);
    match op
    case OpIngest(up, project, ev, now, evicted) => IngestDrops(h, up, project, ev, now, evicted, t);
    case OpReply(req, nonce) => ReplyKeeps(h, req, nonce, t);
    case OpPrompt(session, text, nonce, now) => PromptKeeps(h, session, text, nonce, now, t);
    case _ =>
  }

  lemma NotSubscribed(h: Hub, t: Topic, ch: Chan)
    requires Own(h, t, ch) && t != RingTopic
    ensures ch !in h.subs
  {
    assert !Subscribed(h, RingTopic, ch);
  }

  lemma MoreTokens(h: Hub, h': Hub)
    requires Nudges(h, h')
    ensures h.tokens <= h'.tokens
  {
  }

  lemma AbsentReady(h: Hub, t: Topic, cursor: nat)
    ensures !Present(h, t) ==> Ready(h, t, cursor)
  {
  }

  datatype World = World(hub: Hub, poller: Poller)

  function Turned(w: World, e: Turn): World {
    var (h, p) := Advance(w.hub, w.poller, e);
    World(h, p)
  }

  function Play(w: World, turns: seq<Turn>): World
    decreases |turns|
  {
    if turns == [] then w
    else Play(Turned(w, turns[0]), turns[1..])
  }

  /** Everyone else keeps to their own channels throughout. */
  predicate AllOthers(w: World, turns: seq<Turn>)
    decreases |turns|
  {
    turns == [] ||
    ((turns[0].Env? ==> Others(w.hub, turns[0].op, w.poller.ch)) && AllOthers(Turned(w, turns[0]), turns[1..]))
  }

  /** No step strands the poller. */
  predicate NeverStrands(w: World, turns: seq<Turn>)
    decreases |turns|
  {
    turns == [] ||
    ((turns[0].Env? ==> !Strands(w.hub, turns[0].op, w.poller)) && NeverStrands(Turned(w, turns[0]), turns[1..]))
  }

  ghost predicate AlwaysListening(w: World, turns: seq<Turn>)
    decreases |turns|
  {
    && Listening(w.hub, w.poller)
    && (turns != [] ==> AlwaysListening(Turned(w, turns[0]), turns[1..]))
  }

  /** In every interleaving the poller listens all the way through if and only if no step strands it. */
  lemma {:induction false} ListensIff(w: World, turns: seq<Turn>)
    requires Listening(w.hub, w.poller) && Own(w.hub, w.poller.topic, w.poller.ch) && AllOthers(w, turns)
    ensures AlwaysListening(w, turns) <==> NeverStrands(w, turns)
    decreases |turns|
  {
    hide Listening, Own, Others, Strands, Advance;
    if turns != [] {
      var w' := Turned(w, turns[0]);
      TurnListening(w, turns[0]);
      if Listening(w'.hub, w'.poller) {
        ListensIff(w', turns[1..]);
      }
    }
  }

  lemma TurnListening(w: World, e: Turn)
    requires Listening(w.hub, w.poller) && Own(w.hub, w.poller.topic, w.poller.ch)
    requires e.Env? ==> Others(w.hub, e.op, w.poller.ch)
    ensures var w' := Turned(w, e);
      && (Listening(w'.hub, w'.poller) <==> (e.Env? ==> !Strands(w.hub, e.op, w.poller)))
      && Own(w'.hub, w'.poller.topic, w'.poller.ch)
  {
    hide Step, Ready, Own, Strands, ActOf, Unsubscribe;
    match e
    case Act =>
      ActListening(w.hub, w.poller);
      ActOwn(w.hub, w.poller);
    case Timeout => UnsubscribeOwn(w.hub, w.poller.topic, w.poller.topic, w.poller.ch);
    case Env(op) =>
      EnvListening(w.hub, w.poller, op);
      EnvOwn(w.hub, w.poller.topic, w.poller.ch, op);
  }

  /** No lost wakeup: in every interleaving in which no step strands it, a poller blocked in its select while its call
      would return has a token in its channel. */
  lemma {:induction false} NoLostWakeup(w: World, turns: seq<Turn>)
    requires Listening(w.hub, w.poller) && Own(w.hub, w.poller.topic, w.poller.ch)
    requires AllOthers(w, turns) && NeverStrands(w, turns)
    ensures var w' := Play(w, turns);
      w'.poller.pc == Waiting && Ready(w'.hub, w'.poller.topic, w'.poller.cursor) ==> w'.poller.ch in w'.hub.tokens
    decreases |turns|
  {
    hide Ready, Own, Others, Strands, Advance;
    if turns != [] {
      TurnListening(w, turns[0]);
      NoLostWakeup(Turned(w, turns[0]), turns[1..]);
    }
  }

  // ---- the channel stays where it is registered

  lemma ActOwn(h: Hub, p: Poller)
    requires Own(h, p.topic, p.ch)
    ensures Own(ActOf(h, p).0, p.topic, p.ch) && ActOf(h, p).1.topic == p.topic && ActOf(h, p).1.ch == p.ch
  {
    hide Ready, Own, Unsubscribe, Subscribe;
    SubscribeOwn(h, p.topic, p.ch);
    UnsubscribeOwn(h, p.topic, p.topic, p.ch);
    SameWakers(h, TakeToken(h, p.ch), p.topic, p.ch);
  }

  lemma SubscribeOwn(h: Hub, t: Topic, ch: Chan)
    requires Own(h, t, ch)
    ensures Own(Subscribe(h, t, ch), t, ch)
  {
    forall other | Subscribed(Subscribe(h, t, ch), other, ch) ensures other == t {
      if other != t {
        assert Subscribed(h, other, ch);
      }
    }
  }

  lemma UnsubscribeOwn(h: Hub, u: Topic, t: Topic, ch: Chan)
    requires Own(h, t, ch)
    ensures Own(Unsubscribe(h, u, ch), t, ch)
  {
    forall other | Subscribed(Unsubscribe(h, u, ch), other, ch) ensures Subscribed(h, other, ch) {
    }
  }

  lemma SameWakers(h: Hub, h': Hub, t: Topic, ch: Chan)
    requires Own(h, t, ch) && forall other :: Subscribed(h', other, ch) ==> Subscribed(h, other, ch)
    ensures Own(h', t, ch)
  {
  }

  lemma EnvOwn(h: Hub, t: Topic, ch: Chan, op: Op)
    requires Own(h, t, ch) && Others(h, op, ch)
    ensures Own(Step(h, op), t, ch)
  {
    hide Step, Ready;
    forall other | Subscribed(Step(h, op), other, ch) ensures Subscribed(h, other, ch) {
      if op.OpSubscribe? || op.OpUnsubscribe? || op.OpTake? {
        ForeignReady(h, op, other, ch, 0);
      } else {
        StepNudges(h, op);
      }
    }
  }

  /** A call starts listening, with a channel nobody has seen. */
  lemma StartsListening(h: Hub, t: Topic, ch: Chan, cursor: nat)
    requires forall other :: !Subscribed(h, other, ch)
    ensures Listening(h, Poller(t, ch, cursor, Start)) && Own(h, t, ch)
  {
    hide Ready;
  }

  /** From the call on: a poll, made in any state with the channel it creates, is never blocked without a token while it
      would return, unless a step strands it. */
  lemma CallWakes(h: Hub, t: Topic, ch: Chan, cursor: nat, turns: seq<Turn>)
    requires forall other :: !Subscribed(h, other, ch)
    requires AllOthers(World(h, Poller(t, ch, cursor, Start)), turns)
    requires NeverStrands(World(h, Poller(t, ch, cursor, Start)), turns)
    ensures var w' := Play(World(h, Poller(t, ch, cursor, Start)), turns);
      w'.poller.pc == Waiting && Ready(w'.hub, w'.poller.topic, w'.poller.cursor) ==> w'.poller.ch in w'.hub.tokens
  {
    hide Ready, Own, Listening, AllOthers, NeverStrands, Play;
    StartsListening(h, t, ch, cursor);
    NoLostWakeup(World(h, Poller(t, ch, cursor, Start)), turns);
  }

  /** A call that ends, by itself or by its timer, leaves its channel registered nowhere. */
  lemma EndsClean(h: Hub, p: Poller, e: Turn)
    requires Own(h, p.topic, p.ch) && p.pc in {Rechecking, Waiting, Woken} && !e.Env? && Advance(h, p, e).1.pc == Done
    ensures forall t :: !Subscribed(Advance(h, p, e).0, t, p.ch)
  {
    hide Ready, Own;
    UnsubscribeOwn(h, p.topic, p.topic, p.ch);
    Unsubscribed(h, p.topic, p.ch);
    OwnOnly(Unsubscribe(h, p.topic, p.ch), p.topic, p.ch);
  }

  lemma Unsubscribed(h: Hub, t: Topic, ch: Chan)
    ensures !Subscribed(Unsubscribe(h, t, ch), t, ch)
  {
  }

  lemma OwnOnly(h: Hub, t: Topic, ch: Chan)
    requires Own(h, t, ch) && !Subscribed(h, t, ch)
    ensures forall other :: !Subscribed(h, other, ch)
  {
    hide Subscribed;
  }

  // ---- what drops a topic

  /** Only creating another session drops one, and that wakes nobody but the ring's pollers. */
  lemma IngestDrops(h: Hub, up: string, project: string, ev: Event, now: int, evicted: set<string>, t: Topic)
    requires Dropped(h, OpIngest(up, project, ev, now, evicted), t)
    ensures Ingest(h, up, project, ev, now, evicted).tokens <= h.tokens + h.subs
  {
  }

  lemma ReplyKeeps(h: Hub, req: ReplyRequest, nonce: string, t: Topic)
    ensures Present(Reply(h, req, nonce), t) == Present(h, t)
  {
    hide DecisionId, Retract, Enqueue, DecisionFor;
  }

  lemma PromptKeeps(h: Hub, session: string, text: string, nonce: string, now: int, t: Topic)
    ensures Present(Prompt(h, session, text, nonce, now), t) == Present(h, t)
  {
    hide DecisionId, Enqueue, Truncate;
  }

  // ---- why recreation strands

  /** A session deleted and recreated before its poller runs again: the token it was left is spent on finding
      nothing, it waits on the session that is gone, and the next message does not wake it. */
  lemma RecreatedStrands(h: Hub, p: Poller, up: string, project: string, time: int, now: int,
                         part: string, text: string)
    requires p.pc == Waiting && p.topic.ConvTopic? && p.cursor == 0 && p.ch !in h.subs && part != "" && h.convSize > 0
    requires p.topic.session != "" && Subscribed(h, p.topic, p.ch)
    ensures var s := p.topic.session;
      var w := Play(World(h, p), [Env(OpIngest(up, project, SessionDeleted(s), now, {})),
                                  Env(OpIngest(up, project, SessionSeen(s, time), now, {})), Act, Act,
                                  Env(OpIngest(up, project, Message(s, part, text, time), now, {}))]);
      w.poller.pc == Waiting && Ready(w.hub, w.poller.topic, 0) && p.ch !in w.hub.tokens
  {
    hide Ingest;
    var s := p.topic.session;
    var e1 := OpIngest(up, project, SessionDeleted(s), now, {});
    var e2 := OpIngest(up, project, SessionSeen(s, time), now, {});
    var e5 := OpIngest(up, project, Message(s, part, text, time), now, {});
    RecreateEmpty(h, s, up, project, time, now);
    var h2 := Step(Step(h, e1), e2);
    MessageAlone(TakeToken(h2, p.ch), s, up, project, part, text, time, now);
    hide Step;
    PlayFive(World(h, p), Env(e1), Env(e2), Act, Act, Env(e5));
  }

  lemma RecreateEmpty(h: Hub, s: string, up: string, project: string, time: int, now: int)
    requires s in h.sessions
    ensures var h2 :=
        Ingest(Ingest(h, up, project, SessionDeleted(s), now, {}), up, project, SessionSeen(s, time), now, {});
      && h2.tokens == h.tokens + h.sessions[s].wakers && s in h2.sessions && h2.convSize == h.convSize
      && h2.sessions[s].conv == [] && h2.sessions[s].wakers == {} && h2.sessions[s].convSeq == 0
      && !Ready(h2, ConvTopic(s), 0)
  {
  }

  lemma MessageAlone(h: Hub, s: string, up: string, project: string, part: string, text: string, time: int, now: int)
    requires s in h.sessions && h.sessions[s].conv == [] && h.sessions[s].wakers == {} && h.sessions[s].convSeq == 0
    requires s != "" && part != "" && h.convSize > 0
    ensures var h' := Ingest(h, up, project, Message(s, part, text, time), now, {});
      h'.tokens == h.tokens && Ready(h', ConvTopic(s), 0)
  {
    hide OnMessage, Blank, Truncate;
    HubConversation.FirstMessage(h, up, project, Message(s, part, text, time), now, {});
  }

  lemma PlayFive(w: World, a: Turn, b: Turn, c: Turn, d: Turn, e: Turn)
    ensures Play(w, [a, b, c, d, e]) == Turned(Turned(Turned(Turned(Turned(w, a), b), c), d), e)
  {
    hide Advance;
    assert [a, b, c, d, e][1..] == [b, c, d, e] && [b, c, d, e][1..] == [c, d, e] && [c, d, e][1..] == [d, e];
    assert [d, e][1..] == [e] && [e][1..] == [];
    var w1 := Turned(w, a);
    var w2 := Turned(w1, b);
    var w3 := Turned(w2, c);
    var w4 := Turned(w3, d);
    assert Play(w4, [e]) == Play(Turned(w4, e), []);
    assert Play(w3, [d, e]) == Play(w4, [e]);
    assert Play(w2, [c, d, e]) == Play(w3, [d, e]);
    assert Play(w1, [b, c, d, e]) == Play(w2, [c, d, e]);
  }
}

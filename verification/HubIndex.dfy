/** The reverse index from Kilo's request to the open prompt, and the badge of a session, in
    api/internal/hub/hub.go: exactly when each of them agrees with the open prompts. */
module HubIndex {
  import opened Ids
  import opened HubSpec
  import opened Wrappers
  import opened HubRing
  import opened HubPrompts
  import opened HubAnswers

  /** open and byRequest are inverse maps. */
  ghost predicate Inverse(h: Hub) {
    && (forall id :: id in h.open ==> Indexed(h, id))
    && (forall r :: r in h.byRequest ==> h.byRequest[r] in h.open && h.open[h.byRequest[r]].request == r)
  }

  ghost predicate Indexed(h: Hub, id: string)
    requires id in h.open
  {
    h.open[id].request in h.byRequest && h.byRequest[h.open[id].request] == id
  }

  /** The request a permission event brings is not indexed, or its prompt is the one a full ring drops next. */
  predicate Fresh(h: Hub, op: Op) {
    op.OpIngest? && op.ev.Permission? ==> Unindexed(h, op.ev.request)
  }

  predicate Unindexed(h: Hub, request: string) {
    request in h.byRequest ==> 0 < |h.ring| == h.size && h.byRequest[request] == h.ring[0].id
  }

  lemma CloseInverse(h: Hub, h': Hub, id: string)
    requires Inverse(h) && id in h.open
    requires h'.open == h.open - {id} && h'.byRequest == h.byRequest - {h.open[id].request}
    ensures Inverse(h')
  {
    forall e | e in h'.open ensures Indexed(h', e) {
      assert Indexed(h, e) && Indexed(h, id);
    }
    assert Indexed(h, id);
  }

  lemma SameIndex(h: Hub, h': Hub)
    requires h'.open == h.open && h'.byRequest == h.byRequest
    ensures Inverse(h') <==> Inverse(h)
  {
    if Inverse(h) {
      forall id | id in h'.open ensures Indexed(h', id) {
        assert Indexed(h, id);
      }
    }
    if Inverse(h') {
      forall id | id in h.open ensures Indexed(h, id) {
        assert Indexed(h', id);
      }
    }
  }

  lemma PublishInverse(h: Hub, env: Envelope)
    requires Inverse(h)
    ensures Inverse(Publish(h, env))
  {
    hide Stamp, Inverse;
    var ring := h.ring + [Stamp(h, env)];
    if |ring| > h.size && ring[0].id in h.open {
      CloseInverse(h, Publish(h, env), ring[0].id);
    } else {
      SameIndex(h, Publish(h, env));
    }
  }

  lemma OpenInverse(h: Hub, h': Hub, id: string, p: Pending)
    requires Inverse(h) && id !in h.open
    requires h'.open == h.open[id := p] && h'.byRequest == h.byRequest[p.request := id]
    ensures Inverse(h') <==> p.request !in h.byRequest
  {
    if p.request in h.byRequest {
      var other := h.byRequest[p.request];
      assert other in h'.open && h'.open[other].request == p.request;
      assert !Indexed(h', other);
    } else {
      forall e | e in h'.open ensures Indexed(h', e) {
        assert e != id ==> Indexed(h, e);
      }
    }
  }

  /** Publishing takes a request off the index exactly when its prompt falls off the ring. */
  lemma PublishUnindexes(h: Hub, env: Envelope, request: string)
    requires Sound(h) && Inverse(h)
    ensures request !in Publish(h, env).byRequest <==> Unindexed(h, request)
  {
    SoundWindow(h);
    hide Sound, Stamp;
    var ring := h.ring + [Stamp(h, env)];
    if |ring| > h.size {
      assert ring[0] == h.ring[0];
      if h.ring[0].id in h.open {
        assert Indexed(h, h.ring[0].id);
      }
    }
  }

  /** Opening a prompt keeps the maps inverse if and only if its request is not indexed already. */
  lemma OpenedInverse(h: Hub, up: string, project: string, ev: Event)
    requires Sound(h) && Inverse(h) && ev.Permission?
    ensures Inverse(Opened(h, up, project, ev)) <==> Unindexed(h, ev.request)
  {
    PublishUnindexes(h, PermEnvelope(project, ev), ev.request);
    PublishInverse(h, PermEnvelope(project, ev));
    PublishSound(h, PermEnvelope(project, ev));
    hide Publish, PermEnvelope, Sound, Stamp, Inverse, Unindexed;
    var env := Stamp(h, PermEnvelope(project, ev));
    OpenInverse(Publish(h, PermEnvelope(project, ev)), Opened(h, up, project, ev), env.id,
                Pending(env, up, ev.request, ev.session));
  }

  /** Every step keeps the two maps inverse if and only if it does not report a request that is still open. */
  lemma StepInverse(h: Hub, op: Op)
    requires Sound(h) && Inverse(h)
    ensures Inverse(Step(h, op)) <==> Fresh(h, op)
  {
    hide Sound, Inverse, Publish, Ingest, ClearPrompt, QueueDecision, Prompt, Subscribe, Unsubscribe, PermEnvelope;
    match op
    case OpPublish(env) => PublishInverse(h, env);
    case OpIngest(up, project, ev, now, evicted) => IngestInverse(h, up, project, ev, now, evicted);
    case OpReply(req, nonce) =>
      if req.event in h.open {
        CloseInverse(h, Step(h, op), req.event);
      }
    case _ => SameIndex(h, Step(h, op));
  }

  lemma IngestInverse(h: Hub, up: string, project: string, ev: Event, now: int, evicted: set<string>)
    requires Sound(h) && Inverse(h)
    ensures Inverse(Ingest(h, up, project, ev, now, evicted)) <==> Fresh(h, OpIngest(up, project, ev, now, evicted))
  {
    hide Sound, Inverse, Publish, TrackPrompt, OnStatus, OnMessage, GetOrCreate, Touch, ClearPrompt, PermEnvelope,
      Truncate, Opened;
    match ev
    case Permission(_, _, _, _, _) =>
      OpenedInverse(h, up, project, ev);
      SameIndex(Opened(h, up, project, ev), Ingest(h, up, project, ev, now, evicted));
    case Replied(request) => RepliedInverse(h, request);
    case IdleEvent(session, time) =>
      var h1 := OnStatus(h, up, project, session, time, now, evicted);
      SameIndex(h, h1);
      PublishInverse(h1, Blank(Idle, project, session).(title := "idle"));
    case ErrorEvent(session, description) =>
      PublishInverse(h, Blank(Err, project, session).(title := "error", body := Truncate(description, 256)));
    case _ => SameIndex(h, Ingest(h, up, project, ev, now, evicted));
  }

  lemma RepliedInverse(h: Hub, request: string)
    requires Inverse(h)
    ensures Inverse(OnReplied(h, request))
  {
    hide Publish, ClearPrompt;
    if request in h.byRequest {
      var id := h.byRequest[request];
      var p := h.open[id];
      var h1 := ClearPrompt(h.(open := h.open - {id}, byRequest := h.byRequest - {request}), p.session, id);
      CloseInverse(h, h1, id);
      PublishInverse(h1, Envelope(id, 0, Gone, p.env.project, p.env.session, "", "", [], "", 0));
    }
  }

  ghost predicate AllFresh(h: Hub, ops: seq<Op>)
    decreases |ops|
  {
    ops == [] || (Fresh(h, ops[0]) && AllFresh(Step(h, ops[0]), ops[1..]))
  }

  /** Over a whole run with distinct requests the maps stay inverse. */
  lemma {:induction false} RunInverse(h: Hub, ops: seq<Op>)
    requires Sound(h) && Inverse(h) && AllNumber(ops) && AllFresh(h, ops)
    ensures Sound(Run(h, ops)) && Inverse(Run(h, ops))
    decreases |ops|
  {
    hide Sound, Inverse, Step, Fresh;
    if ops != [] {
      StepSound(h, ops[0]);
      StepInverse(h, ops[0]);
      RunInverse(Step(h, ops[0]), ops[1..]);
    }
  }

  /** What a repeated request costs, in any state: once the earlier prompt is answered, the later one has no
      entry in the reverse index, and Kilo's own answer to the request no longer retracts it. */
  lemma RepeatedRequestSticks(h: Hub, up: string, project: string, ev: Event, now: int, evicted: set<string>,
                              req: ReplyRequest, nonce: string)
    requires Sound(h) && Inverse(h) && ev.Permission?
    requires req.event in h.open && h.open[req.event].request == ev.request
    requires h.open[req.event].env.seqNo > h.seqNo + 1 - h.size
    ensures var answered := Reply(OnPermission(h, up, project, ev, now, evicted), req, nonce);
      EventId(h.seqNo + 1) in OnReplied(answered, ev.request).open
  {
    PublishOpen(h, PermEnvelope(project, ev));
    AskTwice(h, up, project, ev, req.event);
    hide EventId, Publish, PermEnvelope, TrackPrompt, ClearPrompt, QueueDecision, Sound, Inverse, Opened;
    var answered := Reply(OnPermission(h, up, project, ev, now, evicted), req, nonce);
    assert ev.request !in answered.byRequest && EventId(h.seqNo + 1) in answered.open;
  }

  lemma AskTwice(h: Hub, up: string, project: string, ev: Event, other: string)
    requires Sound(h) && ev.Permission? && other in Publish(h, PermEnvelope(project, ev)).open
    ensures var h' := Opened(h, up, project, ev); var id := EventId(h.seqNo + 1);
      && id in h'.open && id != other && other in h'.open
      && h'.open[other] == Publish(h, PermEnvelope(project, ev)).open[other]
  {
    PublishSound(h, PermEnvelope(project, ev));
    hide EventId, Publish, PermEnvelope, Sound;
  }

  // ---- the badge

  /** A session's badge names a prompt that was published; it is open exactly while its envelope is retained. */
  ghost predicate BadgeOf(h: Hub, session: string, badge: string, n: nat) {
    && badge == EventId(n) && n <= h.seqNo
    && (badge in h.open <==> n > h.seqNo - |h.ring|)
    && (badge in h.open ==> h.open[badge].session == session)
  }

  ghost predicate Badged(h: Hub) {
    forall s :: s in h.sessions && h.sessions[s].pendingPrompt != "" ==>
      exists n: nat :: BadgeOf(h, s, h.sessions[s].pendingPrompt, n)
  }

  /** No badge appears or moves. */
  ghost predicate Quiet(h: Hub, h': Hub) {
    forall s :: s in h'.sessions && h'.sessions[s].pendingPrompt != "" ==>
      s in h.sessions && h.sessions[s].pendingPrompt == h'.sessions[s].pendingPrompt
  }

  lemma QuietBadged(h: Hub, h': Hub)
    requires Badged(h) && Quiet(h, h')
    requires h'.open == h.open && h'.ring == h.ring && h'.seqNo == h.seqNo
    ensures Badged(h')
  {
    hide EventId;
    forall s | s in h'.sessions && h'.sessions[s].pendingPrompt != ""
      ensures exists n: nat :: BadgeOf(h', s, h'.sessions[s].pendingPrompt, n)
    {
      var n: nat :| BadgeOf(h, s, h.sessions[s].pendingPrompt, n);
      assert BadgeOf(h', s, h'.sessions[s].pendingPrompt, n);
    }
  }

  lemma PublishBadged(h: Hub, env: Envelope)
    requires Sound(h) && Badged(h)
    ensures Badged(Publish(h, env))
  {
    hide EventId, Publish, Stamp, Issued;
    PublishOpen(h, env);
    var h' := Publish(h, env);
    forall s | s in h'.sessions && h'.sessions[s].pendingPrompt != ""
      ensures exists n: nat :: BadgeOf(h', s, h'.sessions[s].pendingPrompt, n)
    {
      var badge := h.sessions[s].pendingPrompt;
      var n: nat :| BadgeOf(h, s, badge, n);
      if badge in h.open {
        EventIdInjective(h.open[badge].env.seqNo, n);
      }
      assert BadgeOf(h', s, badge, n);
    }
  }

  /** Closing a prompt takes down the one badge that could name it. */
  lemma CloseBadged(h: Hub, h': Hub, id: string)
    requires Badged(h) && id in h.open && h'.open == h.open - {id} && h'.ring == h.ring && h'.seqNo == h.seqNo
    requires h'.sessions == ClearPrompt(h, h.open[id].session, id).sessions
    ensures Badged(h')
  {
    hide EventId;
    forall s | s in h'.sessions && h'.sessions[s].pendingPrompt != ""
      ensures exists n: nat :: BadgeOf(h', s, h'.sessions[s].pendingPrompt, n)
    {
      assert h'.sessions[s].pendingPrompt == h.sessions[s].pendingPrompt;
      var n: nat :| BadgeOf(h, s, h.sessions[s].pendingPrompt, n);
      assert BadgeOf(h', s, h'.sessions[s].pendingPrompt, n);
    }
  }

  lemma OpenBadged(h: Hub, h': Hub, id: string, p: Pending)
    requires Badged(h) && id == EventId(h.seqNo) && id !in h.open && h'.open == h.open[id := p] && h.ring != []
    requires h'.ring == h.ring && h'.seqNo == h.seqNo
    requires forall s :: s in h'.sessions && h'.sessions[s].pendingPrompt != "" ==>
      (s == p.session && h'.sessions[s].pendingPrompt == id)
      || (s in h.sessions && h.sessions[s].pendingPrompt == h'.sessions[s].pendingPrompt)
    ensures Badged(h')
  {
    hide EventId;
    forall s | s in h'.sessions && h'.sessions[s].pendingPrompt != ""
      ensures exists n: nat :: BadgeOf(h', s, h'.sessions[s].pendingPrompt, n)
    {
      var badge := h'.sessions[s].pendingPrompt;
      if s == p.session && badge == id {
        assert BadgeOf(h', s, badge, h.seqNo);
      } else {
        var n: nat :| BadgeOf(h, s, h.sessions[s].pendingPrompt, n);
        if badge == id {
          EventIdInjective(n, h.seqNo);
        }
        assert BadgeOf(h', s, badge, n);
      }
    }
  }

  lemma PermissionBadged(h: Hub, up: string, project: string, ev: Event, now: int, evicted: set<string>)
    requires Sound(h) && Badged(h) && ev.Permission?
    ensures Badged(OnPermission(h, up, project, ev, now, evicted))
  {
    var env := Stamp(h, PermEnvelope(project, ev));
    PublishSound(h, PermEnvelope(project, ev));
    PublishBadged(h, PermEnvelope(project, ev));
    TrackBadge(Opened(h, up, project, ev), up, project, ev.session, env, now, evicted);
    hide EventId, Publish, TrackPrompt, PermEnvelope, Issued, Badged, Window, Tracked, Distinct;
    OpenBadged(Publish(h, PermEnvelope(project, ev)), OnPermission(h, up, project, ev, now, evicted), env.id,
               Pending(env, up, ev.request, ev.session));
  }

  /** Only the session that asks gets the new badge. */
  lemma TrackBadge(h: Hub, up: string, project: string, session: string, env: Envelope, now: int, evicted: set<string>)
    ensures var h' := TrackPrompt(h, up, project, session, env, now, evicted);
      forall s :: s in h'.sessions && h'.sessions[s].pendingPrompt != "" ==>
        (s == session && h'.sessions[s].pendingPrompt == env.id)
        || (s in h.sessions && h.sessions[s].pendingPrompt == h'.sessions[s].pendingPrompt)
  {
    hide IndexOf;
  }

  lemma SessionsQuiet(h: Hub, up: string, project: string, ev: Event, now: int, evicted: set<string>)
    requires ev.Message? || ev.IdleEvent? || ev.SessionStatus?
    ensures ev.Message? ==> Quiet(h, OnMessage(h, up, project, ev, now, evicted))
    ensures !ev.Message? ==> Quiet(h, OnStatus(h, up, project, ev.session, ev.time, now, evicted))
  {
    hide IndexOf, PartId, Blank, Truncate;
  }

  lemma RepliedBadged(h: Hub, request: string)
    requires Sound(h) && Badged(h)
    ensures Badged(OnReplied(h, request))
  {
    if request in h.byRequest && h.byRequest[request] in h.open {
      var id := h.byRequest[request];
      var p := h.open[id];
      var h1 := ClearPrompt(h.(open := h.open - {id}, byRequest := h.byRequest - {request}), p.session, id);
      hide Sound, ClearPrompt, Publish, Badged;
      Shrinks(h, h1);
      ClearedSame(h, h1, id, h.byRequest - {request});
      CloseBadged(h, h1, id);
      PublishBadged(h1, Envelope(id, 0, Gone, p.env.project, p.env.session, "", "", [], "", 0));
    } else {
      hide Sound, Badged;
      QuietBadged(h, OnReplied(h, request));
    }
  }

  lemma ClearedSame(h: Hub, h': Hub, id: string, byRequest: map<string, string>)
    requires id in h.open &&
      h' == ClearPrompt(h.(open := h.open - {id}, byRequest := byRequest), h.open[id].session, id)
    ensures h'.sessions == ClearPrompt(h, h.open[id].session, id).sessions
  {
    hide Retract;
  }

  lemma IngestBadged(h: Hub, up: string, project: string, ev: Event, now: int, evicted: set<string>)
    requires Sound(h) && Badged(h)
    ensures Badged(Ingest(h, up, project, ev, now, evicted))
  {
    hide Sound, Badged, Publish, OnPermission, OnStatus, OnMessage, OnReplied, Truncate;
    match ev
    case Permission(_, _, _, _, _) => PermissionBadged(h, up, project, ev, now, evicted);
    case Replied(request) => RepliedBadged(h, request);
    case IdleEvent(session, time) =>
      var h1 := OnStatus(h, up, project, session, time, now, evicted);
      SessionsQuiet(h, up, project, ev, now, evicted);
      QuietBadged(h, h1);
      Shrinks(h, h1);
      PublishBadged(h1, Blank(Idle, project, session).(title := "idle"));
    case ErrorEvent(session, description) =>
      PublishBadged(h, Blank(Err, project, session).(title := "error", body := Truncate(description, 256)));
    case Message(_, _, _, _) =>
      SessionsQuiet(h, up, project, ev, now, evicted);
      QuietBadged(h, Ingest(h, up, project, ev, now, evicted));
    case SessionStatus(_, _) =>
      SessionsQuiet(h, up, project, ev, now, evicted);
      QuietBadged(h, Ingest(h, up, project, ev, now, evicted));
    case _ => QuietBadged(h, Ingest(h, up, project, ev, now, evicted));
  }

  lemma ReplyBadged(h: Hub, req: ReplyRequest, nonce: string)
    requires Badged(h)
    ensures Badged(Reply(h, req, nonce))
  {
    hide Badged, ClearPrompt;
    if req.event in h.open {
      var p := h.open[req.event];
      ClearedSame(h, Settle(h, req.event), req.event, h.byRequest - {p.request});
      CloseBadged(h, Settle(h, req.event), req.event);
      QuietBadged(Settle(h, req.event), Reply(h, req, nonce));
    }
  }

  /** Every step keeps the badges in order. */
  lemma StepBadged(h: Hub, op: Op)
    requires Sound(h) && Badged(h)
    ensures Badged(Step(h, op))
  {
    hide Sound, Badged, Publish, Ingest, Reply, QueueDecision;
    match op
    case OpPublish(env) => PublishBadged(h, env);
    case OpIngest(up, project, ev, now, evicted) => IngestBadged(h, up, project, ev, now, evicted);
    case OpReply(req, nonce) => ReplyBadged(h, req, nonce);
    case _ => QuietBadged(h, Step(h, op));
  }

  lemma {:induction false} RunBadged(h: Hub, ops: seq<Op>)
    requires Sound(h) && Badged(h) && AllNumber(ops)
    ensures Sound(Run(h, ops)) && Badged(Run(h, ops))
    decreases |ops|
  {
    hide Sound, Badged, Step;
    if ops != [] {
      StepSound(h, ops[0]);
      StepBadged(h, ops[0]);
      RunBadged(Step(h, ops[0]), ops[1..]);
    }
  }

  /** In every reachable state the prompt a session's badge names is open if and only if the ring still
      retains its envelope; settling a prompt otherwise always takes the badge down. */
  lemma BadgeMeansOpen(ringSize: int, ops: seq<Op>, session: string) returns (n: nat)
    requires AllNumber(ops)
    requires session in Run(New(ringSize), ops).sessions
    requires Run(New(ringSize), ops).sessions[session].pendingPrompt != ""
    ensures var h := Run(New(ringSize), ops); var badge := h.sessions[session].pendingPrompt;
      && badge == EventId(n) && n <= h.seqNo
      && (badge in h.open <==> n > h.seqNo - |h.ring|)
      && (badge in h.open ==> h.open[badge].session == session)
  {
    hide Run, EventId;
    NewSound(ringSize);
    RunBadged(New(ringSize), ops);
    var h := Run(New(ringSize), ops);
    n :| BadgeOf(h, session, h.sessions[session].pendingPrompt, n);
  }

  /** A ring of one envelope: an error report evicts the prompt and leaves the badge. */
  lemma BadgeOutlivesPrompt(now: int)
    ensures var ops := [OpIngest("up_1", "p", Permission("per_1", "s", "bash", [], []), now, {}),
                        OpIngest("up_1", "p", ErrorEvent("s", "boom"), now, {})];
      var h := Run(New(1), ops);
      h.open == map[] && "s" in h.sessions && h.sessions["s"].pendingPrompt == EventId(1)
  {
    hide EventId, PermEnvelope, Blank, IndexOf;
    var ask := OpIngest("up_1", "p", Permission("per_1", "s", "bash", [], []), now, {});
    var fail := OpIngest("up_1", "p", ErrorEvent("s", "boom"), now, {});
    var h1 := Step(New(1), ask);
    assert h1.open.Keys == {EventId(1)} && h1.ring[0].id == EventId(1) && |h1.ring| == 1;
    assert h1.sessions["s"].pendingPrompt == EventId(1);
    var h2 := Step(h1, fail);
    assert h2.open == map[] && h2.sessions == h1.sessions;
    assert [ask, fail][1..] == [fail] && [fail][1..] == [];
    assert Run(h2, []) == h2;
    assert Run(h1, [fail]) == Run(h2, []);
  }
}

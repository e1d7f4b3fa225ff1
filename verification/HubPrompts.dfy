/** Open prompts of api/internal/hub/hub.go: every open prompt is still in the ring under the identifier it was
    published with, nothing else there shares it, and publishing closes exactly the prompt that falls off. */
module HubPrompts {
  import opened Ids
  import opened HubSpec
  import opened Wrappers
  import opened HubRing

  ghost predicate Issued(id: string, n: nat) {
    exists m: nat :: m <= n && id == EventId(m)
  }

  /** The ring holds consecutive numbers up to seqNo, under identifiers handed out so far. */
  ghost predicate Window(h: Hub) {
    && 0 < h.size && |h.ring| <= h.size && |h.ring| <= h.seqNo
    && forall i :: 0 <= i < |h.ring| ==>
      h.ring[i].seqNo == h.seqNo - |h.ring| + 1 + i && Issued(h.ring[i].id, h.seqNo)
  }

  /** `env` is where the ring holds its number. */
  ghost predicate InRing(h: Hub, env: Envelope) {
    var at := env.seqNo - (h.seqNo - |h.ring|) - 1;
    0 <= at < |h.ring| && h.ring[at] == env
  }

  /** An open prompt carries the identifier it was published under and is still in the ring. */
  ghost predicate Tracked(h: Hub) {
    forall id :: id in h.open ==>
      var env := h.open[id].env;
      env.id == id == EventId(env.seqNo) && env.kind == Perm && InRing(h, env)
  }

  /** Nothing else in the ring shares its identifier. */
  ghost predicate Distinct(h: Hub) {
    forall i :: 0 <= i < |h.ring| && h.ring[i].id in h.open ==> h.open[h.ring[i].id].env == h.ring[i]
  }

  ghost predicate Sound(h: Hub) {
    Window(h) && Tracked(h) && Distinct(h)
  }

  /** A run publishes directly only envelopes that leave the identifier to the hub. */
  predicate Numbers(op: Op) {
    op.OpPublish? ==> op.env.id == ""
  }

  lemma NewSound(ringSize: int)
    ensures Sound(New(ringSize))
  {
  }

  lemma IssuedGrows(id: string, n: nat)
    requires Issued(id, n)
    ensures Issued(id, n + 1) && id != EventId(n + 1)
  {
    hide EventId;
    var m: nat :| m <= n && id == EventId(m);
    if id == EventId(n + 1) {
      EventIdInjective(m, n + 1);
    }
  }

  lemma IssuedLast(n: nat)
    ensures Issued(EventId(n), n)
  {
    hide EventId;
  }

  /** Of the open prompts of a full ring, the oldest envelope's is the one whose number leaves the window. */
  lemma OldestOpen(h: Hub, id: string)
    requires Sound(h) && |h.ring| == h.size && id in h.open
    ensures id == h.ring[0].id <==> h.open[id].env.seqNo == h.seqNo + 1 - h.size
    ensures h.open[id].env.seqNo >= h.seqNo + 1 - h.size
  {
    hide EventId, Issued;
    assert InRing(h, h.open[id].env);
  }

  lemma RoomKeeps(h: Hub, id: string)
    requires Sound(h) && |h.ring| < h.size && id in h.open
    ensures h.open[id].env.seqNo > h.seqNo + 1 - h.size
  {
    hide EventId, Issued;
    assert InRing(h, h.open[id].env);
  }

  lemma PublishRing(h: Hub, env: Envelope)
    requires Window(h)
    ensures Publish(h, env).ring
         == if |h.ring| < h.size then h.ring + [Stamp(h, env)] else h.ring[1..] + [Stamp(h, env)]
    ensures Publish(h, env).open
         == if |h.ring| < h.size then h.open else h.open - {h.ring[0].id}
  {
    hide Stamp, Issued;
    if |h.ring| == h.size {
      assert (h.ring + [Stamp(h, env)])[1..] == h.ring[1..] + [Stamp(h, env)];
    }
  }

  /** Publishing closes exactly the prompt whose envelope falls off the ring. */
  lemma PublishOpen(h: Hub, env: Envelope)
    requires Sound(h)
    ensures Publish(h, env).open
         == map id | id in h.open && h.open[id].env.seqNo > h.seqNo + 1 - h.size :: h.open[id]
    ensures Publish(h, env).ring
         == if |h.ring| < h.size then h.ring + [Stamp(h, env)] else h.ring[1..] + [Stamp(h, env)]
  {
    hide Stamp, Publish, Tracked, Distinct, Window, Sound;
    SoundWindow(h);
    PublishRing(h, env);
    if |h.ring| < h.size {
      forall id | id in h.open ensures h.open[id].env.seqNo > h.seqNo + 1 - h.size {
        RoomKeeps(h, id);
      }
    } else {
      forall id | id in h.open ensures id != h.ring[0].id <==> h.open[id].env.seqNo > h.seqNo + 1 - h.size {
        OldestOpen(h, id);
      }
    }
  }

  lemma SoundWindow(h: Hub)
    requires Sound(h)
    ensures Window(h) && 0 < h.size && |h.ring| <= h.size
  {
    hide Issued;
  }

  lemma PublishWindow(h: Hub, env: Envelope)
    requires Sound(h) && (env.id == "" || Issued(env.id, h.seqNo))
    ensures Window(Publish(h, env)) && Issued(Stamp(h, env).id, h.seqNo + 1)
  {
    hide EventId, Publish, Issued;
    PublishOpen(h, env);
    forall i | 0 <= i < |h.ring| ensures Issued(h.ring[i].id, h.seqNo + 1) {
      IssuedGrows(h.ring[i].id, h.seqNo);
    }
    IssuedLast(h.seqNo + 1);
    if env.id != "" {
      IssuedGrows(env.id, h.seqNo);
    }
  }

  lemma PublishKeeps(h: Hub, env: Envelope, e: Envelope)
    requires Sound(h) && InRing(h, e) && e.seqNo > h.seqNo + 1 - h.size
    ensures InRing(Publish(h, env), e)
  {
    hide EventId, Publish, Issued, Stamp, Tracked, Distinct;
    PublishOpen(h, env);
  }

  lemma FreshStamp(h: Hub, env: Envelope)
    requires Sound(h) && (env.id == "" || env.id !in h.open)
    ensures Stamp(h, env).id !in h.open
  {
    hide EventId, Issued;
    if env.id == "" && EventId(h.seqNo + 1) in h.open {
      var e := h.open[EventId(h.seqNo + 1)].env;
      assert InRing(h, e);
      IssuedGrows(e.id, h.seqNo);
    }
  }

  lemma PublishSound(h: Hub, env: Envelope)
    requires Sound(h) && (env.id == "" || (env.id !in h.open && Issued(env.id, h.seqNo)))
    ensures Sound(Publish(h, env)) && Stamp(h, env).id !in Publish(h, env).open && Stamp(h, env).id !in h.open
    ensures InRing(Publish(h, env), Stamp(h, env))
  {
    PublishWindow(h, env);
    FreshStamp(h, env);
    PublishTracked(h, env);
    PublishDistinct(h, env);
    hide EventId, Publish, Issued, Tracked, Distinct, Stamp;
    PublishOpen(h, env);
    assert Publish(h, env).ring[|Publish(h, env).ring| - 1] == Stamp(h, env);
  }

  lemma PublishDistinct(h: Hub, env: Envelope)
    requires Sound(h) && Stamp(h, env).id !in h.open
    ensures Distinct(Publish(h, env))
  {
    hide EventId, Publish, Issued, Tracked, Stamp;
    PublishOpen(h, env);
    var h' := Publish(h, env);
    forall i | 0 <= i < |h'.ring| && h'.ring[i].id in h'.open ensures h'.open[h'.ring[i].id].env == h'.ring[i] {
      if i < |h'.ring| - 1 {
        assert h'.ring[i] == h.ring[if |h.ring| < h.size then i else i + 1];
      }
    }
  }

  lemma PublishTracked(h: Hub, env: Envelope)
    requires Sound(h)
    ensures Tracked(Publish(h, env))
  {
    hide EventId, Publish, Issued, Stamp, InRing, Distinct;
    PublishOpen(h, env);
    var h' := Publish(h, env);
    forall id | id in h'.open ensures InRing(h', h'.open[id].env) {
      PublishKeeps(h, env, h.open[id].env);
    }
  }

  lemma Shrinks(h: Hub, h': Hub)
    requires Sound(h) && h'.ring == h.ring && h'.seqNo == h.seqNo && h'.size == h.size
    requires forall id :: id in h'.open ==> id in h.open && h'.open[id] == h.open[id]
    ensures Sound(h')
  {
    hide EventId, Issued;
  }

  lemma StampUnique(h: Hub, env: Envelope)
    requires Sound(h) && env.id == ""
    ensures forall e :: e in Publish(h, env).ring && e != Stamp(h, env) ==> e.id != Stamp(h, env).id
  {
    hide EventId, Issued, Publish;
    PublishOpen(h, env);
    forall i | 0 <= i < |h.ring| ensures h.ring[i].id != Stamp(h, env).id {
      IssuedGrows(h.ring[i].id, h.seqNo);
    }
  }

  lemma OpenedSound(h: Hub, up: string, project: string, ev: Event)
    requires Sound(h) && ev.Permission?
    ensures Sound(Opened(h, up, project, ev))
  {
    PublishSound(h, PermEnvelope(project, ev));
    StampUnique(h, PermEnvelope(project, ev));
    hide Issued, Publish, PermEnvelope, Sound, EventId, InRing;
    OpenSound(Publish(h, PermEnvelope(project, ev)), Opened(h, up, project, ev), Stamp(h, PermEnvelope(project, ev)));
  }

  lemma PermissionSound(h: Hub, up: string, project: string, ev: Event, now: int, evicted: set<string>)
    requires Sound(h) && ev.Permission?
    ensures Sound(Opened(h, up, project, ev)) && Sound(OnPermission(h, up, project, ev, now, evicted))
  {
    OpenedSound(h, up, project, ev);
    hide Issued, Opened, Publish, PermEnvelope, TrackPrompt, Sound, EventId;
    Shrinks(Opened(h, up, project, ev), OnPermission(h, up, project, ev, now, evicted));
  }

  lemma OpenSound(h: Hub, h': Hub, env: Envelope)
    requires Sound(h) && InRing(h, env) && env.seqNo == h.seqNo && env.kind == Perm && env.id == EventId(env.seqNo)
    requires forall e :: e in h.ring && e != env ==> e.id != env.id
    requires env.id in h'.open && h'.open.Keys == h.open.Keys + {env.id} && h'.open[env.id].env == env
    requires forall id :: id in h.open && id != env.id ==> h'.open[id] == h.open[id]
    requires h'.ring == h.ring && h'.seqNo == h.seqNo && h'.size == h.size
    ensures Sound(h')
  {
    OpenTracked(h, h', env);
    hide EventId, Issued, Tracked, InRing;
    forall i | 0 <= i < |h.ring| && h.ring[i].id in h'.open ensures h'.open[h.ring[i].id].env == h.ring[i] {
      if h.ring[i] != env {
        assert h.ring[i].id in h.open;
      }
    }
  }

  lemma OpenTracked(h: Hub, h': Hub, env: Envelope)
    requires Tracked(h) && InRing(h, env) && env.kind == Perm && env.id == EventId(env.seqNo)
    requires env.id in h'.open && h'.open.Keys == h.open.Keys + {env.id} && h'.open[env.id].env == env
    requires forall id :: id in h.open && id != env.id ==> h'.open[id] == h.open[id]
    requires h'.ring == h.ring && h'.seqNo == h.seqNo
    ensures Tracked(h')
  {
    hide EventId;
  }

  /** Every step keeps the open prompts sound. */
  lemma StepSound(h: Hub, op: Op)
    requires Sound(h) && Numbers(op)
    ensures Sound(Step(h, op))
  {
    match op
    case OpPublish(env) => PublishSound(h, env);
    case OpIngest(up, project, ev, now, evicted) => IngestSound(h, up, project, ev, now, evicted);
    case OpReply(req, nonce) =>
      hide Sound, QueueDecision, ClearPrompt;
      Shrinks(h, Reply(h, req, nonce));
    case _ =>
      hide Sound, Prompt, Subscribe, Unsubscribe;
      Shrinks(h, Step(h, op));
  }

  lemma IngestSound(h: Hub, up: string, project: string, ev: Event, now: int, evicted: set<string>)
    requires Sound(h)
    ensures Sound(Ingest(h, up, project, ev, now, evicted))
  {
    hide Truncate, Publish, OnStatus, GetOrCreate, OnMessage, OnPermission, Touch, Stamp, Sound;
    match ev
    case Permission(_, _, _, _, _) => PermissionSound(h, up, project, ev, now, evicted);
    case Replied(request) => RepliedSound(h, request);
    case IdleEvent(session, time) =>
      var h1 := OnStatus(h, up, project, session, time, now, evicted);
      Shrinks(h, h1);
      PublishSound(h1, Blank(Idle, project, session).(title := "idle"));
    case ErrorEvent(session, description) =>
      PublishSound(h, Blank(Err, project, session).(title := "error", body := Truncate(description, 256)));
    case _ => Shrinks(h, Ingest(h, up, project, ev, now, evicted));
  }

  lemma OpenIssued(h: Hub, id: string)
    requires Sound(h) && id in h.open
    ensures Issued(id, h.seqNo)
  {
    hide EventId, Issued;
    assert InRing(h, h.open[id].env);
  }

  lemma RepliedSound(h: Hub, request: string)
    requires Sound(h)
    ensures Sound(OnReplied(h, request))
  {
    hide Sound, Publish, ClearPrompt;
    if request in h.byRequest && h.byRequest[request] in h.open {
      var id := h.byRequest[request];
      var p := h.open[id];
      var h1 := ClearPrompt(h.(open := h.open - {id}, byRequest := h.byRequest - {request}), p.session, id);
      OpenIssued(h, id);
      Shrinks(h, h1);
      PublishSound(h1, Envelope(id, 0, Gone, p.env.project, p.env.session, "", "", [], "", 0));
    } else {
      Shrinks(h, OnReplied(h, request));
    }
  }

  /** At most as many prompts are open as the ring holds envelopes. */
  lemma OpenFitsRing(h: Hub)
    requires Sound(h)
    ensures |h.open| <= |h.ring|
  {
    hide EventId, Issued;
    forall id | id in h.open ensures id in IdsOf(h.ring) {
      var env := h.open[id].env;
      assert InRing(h, env);
      IdsMember(h.ring, env.seqNo - (h.seqNo - |h.ring|) - 1);
    }
    SubsetSize(h.open.Keys, IdsOf(h.ring));
    IdsSize(h.ring);
  }

  ghost function IdsOf(s: seq<Envelope>): set<string> {
    if s == [] then {} else IdsOf(s[1..]) + {s[0].id}
  }

  lemma {:induction false} IdsMember(s: seq<Envelope>, k: int)
    requires 0 <= k < |s|
    ensures s[k].id in IdsOf(s)
  {
    if k > 0 {
      IdsMember(s[1..], k - 1);
    }
  }

  lemma {:induction false} IdsSize(s: seq<Envelope>)
    ensures |IdsOf(s)| <= |s|
  {
    if s != [] {
      IdsSize(s[1..]);
    }
  }
}

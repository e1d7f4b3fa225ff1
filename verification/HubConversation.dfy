/** Conversation sync of api/internal/hub/hub.go: a reader that upserts by identifier and reuses the cursor it
    was given (companion ConversationActivity.kt) agrees with the server on every retained entry. */
module HubConversation {
  import opened Ids
  import opened HubSpec
  import opened Wrappers
  import opened HubRing

  /** Identifiers and sequence numbers are distinct, numbers at most convSeq, entries at most convSize. */
  ghost predicate Conv(s: Sess, size: nat) {
    && |s.conv| <= size
    && (forall i :: 0 <= i < |s.conv| ==> 0 < s.conv[i].seqNo <= s.convSeq && s.conv[i].id != "")
    && (forall i, j :: 0 <= i < j < |s.conv| ==> s.conv[i].seqNo != s.conv[j].seqNo && s.conv[i].id != s.conv[j].id)
  }

  /** Whatever changed is numbered past everything there was, and the activity clock does not run backwards. */
  ghost predicate Advances(s: Sess, s': Sess) {
    && s.convSeq <= s'.convSeq && s.updated <= s'.updated
    && forall i :: 0 <= i < |s'.conv| ==> s'.conv[i] in s.conv || s.convSeq < s'.conv[i].seqNo
  }

  ghost predicate ConvStep(s: Sess, s': Sess, size: nat) {
    Conv(s', size) && Advances(s, s')
  }

  ghost predicate SameConv(s: Sess, s': Sess) {
    s'.conv == s.conv && s'.convSeq == s.convSeq && s.updated <= s'.updated
  }

  lemma ReplaceStep(s: Sess, at: nat, e: Envelope, size: nat)
    requires Conv(s, size) && at < |s.conv| && e.id == s.conv[at].id && e.seqNo == s.convSeq + 1
    ensures ConvStep(s, s.(convSeq := s.convSeq + 1, conv := s.conv[at := e]), size)
  {
  }

  lemma SnocStep(s: Sess, e: Envelope, size: nat)
    requires Conv(s, size) && e.seqNo == s.convSeq + 1 && e.id != "" && IndexOf(s.conv, e.id) < 0
    ensures ConvStep(s, s.(convSeq := s.convSeq + 1, conv := s.conv + [e]), size + 1)
  {
    hide IndexOf;
  }

  lemma DropStep(s: Sess, s': Sess, size: nat)
    requires ConvStep(s, s', size + 1)
    ensures ConvStep(s, s'.(conv := if |s'.conv| > size then s'.conv[|s'.conv| - size..] else s'.conv), size)
  {
    if |s'.conv| > size {
      var drop := |s'.conv| - size;
      assert forall i :: 0 <= i < size ==> s'.conv[drop..][i] == s'.conv[drop + i];
    }
  }

  lemma AppendConvStep(s: Sess, env: Envelope, size: nat)
    requires Conv(s, size) && env.id != ""
    ensures ConvStep(s, AppendConv(s, env, size), size)
  {
    hide Conv, Advances, IndexOf;
    var e := env.(seqNo := s.convSeq + 1);
    var at := IndexOf(s.conv, env.id);
    if at >= 0 {
      ReplaceStep(s, at, e, size);
    } else {
      SnocStep(s, e, size);
      DropStep(s, s.(convSeq := s.convSeq + 1, conv := s.conv + [e]), size);
    }
  }

  lemma RetractStep(s: Sess, id: string, session: string, size: nat)
    requires Conv(s, size)
    ensures ConvStep(s, Retract(s, id, session), size)
  {
    hide IndexOf;
  }

  /** In every reachable state every session's conversation is well formed. */
  ghost predicate Talks(h: Hub) {
    forall s :: s in h.sessions ==> Conv(h.sessions[s], h.convSize)
  }

  /** A step of the hub, as the sessions see it: each survivor advances, each newcomer is well formed. */
  ghost predicate TalksStep(h: Hub, h': Hub) {
    && Talks(h') && h'.convSize == h.convSize
    && forall s :: s in h.sessions && s in h'.sessions ==> Advances(h.sessions[s], h'.sessions[s])
  }

  /** Every conversation is as it was. */
  ghost predicate Silent(h: Hub, h': Hub) {
    h'.convSize == h.convSize &&
    forall s :: s in h'.sessions ==> s in h.sessions && SameConv(h.sessions[s], h'.sessions[s])
  }

  lemma SilentStep(h: Hub, h': Hub)
    requires Talks(h) && Silent(h, h')
    ensures TalksStep(h, h')
  {
  }

  lemma GetOrCreateStep(h: Hub, up: string, project: string, session: string, now: int, evicted: set<string>)
    requires Talks(h)
    ensures var h' := GetOrCreate(h, up, project, session, now, evicted);
      TalksStep(h, h') && forall s :: s in h'.sessions && s != session ==> s in h.sessions
  {
    var h' := GetOrCreate(h, up, project, session, now, evicted);
    if session in h.sessions {
      hide Conv;
      SameConvStep(h.sessions[session], h'.sessions[session], h.convSize);
    } else {
      assert Conv(h'.sessions[session], h.convSize);
      hide Conv;
    }
    forall s | s in h'.sessions && s in h.sessions ensures SameConv(h.sessions[s], h'.sessions[s]) {
    }
  }

  lemma SameConvStep(s: Sess, s': Sess, size: nat)
    requires Conv(s, size) && SameConv(s, s')
    ensures ConvStep(s, s', size)
  {
  }

  /** Replacing one session's conversation by an advance of it. */
  lemma PutStep(h: Hub, session: string, s: Sess)
    requires Talks(h) && session in h.sessions && ConvStep(h.sessions[session], s, h.convSize)
    ensures TalksStep(h, Put(h, session, s))
  {
    hide Conv;
  }

  lemma Then(h: Hub, h1: Hub, h2: Hub)
    requires TalksStep(h, h1) && TalksStep(h1, h2)
    requires forall s :: s in h.sessions && s in h2.sessions ==> s in h1.sessions
    ensures TalksStep(h, h2)
  {
    hide Conv;
  }

  lemma Touched(s: Sess, s': Sess, t: Sess, size: nat)
    requires ConvStep(s, s', size) && SameConv(s', t)
    ensures ConvStep(s, t, size)
  {
  }

  lemma TrackStep(h: Hub, up: string, project: string, session: string, env: Envelope, now: int, evicted: set<string>)
    requires Talks(h) && env.id != ""
    ensures TalksStep(h, TrackPrompt(h, up, project, session, env, now, evicted))
  {
    hide Talks, Conv, Advances, AppendConv, GetOrCreate;
    if session == "" {
      SilentStep(h, h);
    } else {
      var h1 := GetOrCreate(h, up, project, session, now, evicted);
      GetOrCreateStep(h, up, project, session, now, evicted);
      PutAppended(h1, session, h1.sessions[session].(pendingPrompt := env.id), env, now);
      Then(h, h1, TrackPrompt(h, up, project, session, env, now, evicted));
    }
  }

  lemma PutAppended(h: Hub, session: string, s: Sess, env: Envelope, ms: int)
    requires Talks(h) && session in h.sessions && env.id != ""
    requires h.sessions[session].conv == s.conv && h.sessions[session].convSeq <= s.convSeq
    requires h.sessions[session].updated == s.updated
    ensures TalksStep(h, Put(h, session, Touch(AppendConv(s, env, h.convSize), ms)))
  {
    var was := h.sessions[session];
    assert ConvStep(was, s, h.convSize);
    AppendConvStep(s, env, h.convSize);
    hide Conv, AppendConv;
    Touched(was, AppendConv(s, env, h.convSize), Touch(AppendConv(s, env, h.convSize), ms), h.convSize) by {
      assert Advances(was, AppendConv(s, env, h.convSize));
    }
    PutStep(h, session, Touch(AppendConv(s, env, h.convSize), ms));
  }

  lemma MessageStep(h: Hub, up: string, project: string, ev: Event, now: int, evicted: set<string>)
    requires Talks(h) && ev.Message?
    ensures TalksStep(h, OnMessage(h, up, project, ev, now, evicted))
  {
    hide Talks, Conv, Advances, AppendConv, GetOrCreate, Truncate, PartId;
    if ev.session == "" {
      SilentStep(h, h);
    } else {
      var h1 := GetOrCreate(h, up, project, ev.session, now, evicted);
      GetOrCreateStep(h, up, project, ev.session, now, evicted);
      var was := h1.sessions[ev.session];
      var s := if ev.part == "" then was.(convSeq := was.convSeq + 1) else was;
      var id := if ev.part == "" then PartId(s.convSeq) else ev.part;
      PutAppended(h1, ev.session, s,
                  Blank(Msg, project, ev.session).(id := id, text := Truncate(ev.text, 4096)), ev.time);
      Then(h, h1, OnMessage(h, up, project, ev, now, evicted));
    }
  }

  lemma ClearStep(h: Hub, session: string, id: string)
    requires Talks(h)
    ensures TalksStep(h, ClearPrompt(h, session, id))
  {
    if session in h.sessions {
      RetractStep(h.sessions[session], id, session, h.convSize);
      hide Conv, Advances, Retract;
      PutStep(h, session, Retract(h.sessions[session], id, session));
    } else {
      SilentStep(h, h);
    }
  }

  lemma StatusStep(h: Hub, up: string, project: string, session: string, time: int, now: int, evicted: set<string>)
    requires Talks(h)
    ensures TalksStep(h, OnStatus(h, up, project, session, time, now, evicted))
  {
    hide Talks, Conv, Advances, GetOrCreate;
    var h1 := GetOrCreate(h, up, project, session, now, evicted);
    GetOrCreateStep(h, up, project, session, now, evicted);
    SilentStep(h1, OnStatus(h, up, project, session, time, now, evicted));
    Then(h, h1, OnStatus(h, up, project, session, time, now, evicted));
  }

  /** Nothing about sessions differs. */
  lemma SameTalks(h: Hub, h1: Hub, h2: Hub)
    requires TalksStep(h, h1) && h2.sessions == h1.sessions && h2.convSize == h1.convSize
    ensures TalksStep(h, h2)
  {
    hide Conv, Advances;
  }

  lemma IngestTalks(h: Hub, up: string, project: string, ev: Event, now: int, evicted: set<string>)
    requires Talks(h)
    ensures TalksStep(h, Ingest(h, up, project, ev, now, evicted))
  {
    hide TalksStep, Talks, Publish, GetOrCreate, OnStatus, OnMessage, TrackPrompt, PermEnvelope, ClearPrompt,
      Blank, Truncate, EventId;
    var h' := Ingest(h, up, project, ev, now, evicted);
    match ev
    case Permission(_, _, _, _, _) =>
      SilentStep(h, Opened(h, up, project, ev));
      OpenedTalks(h, Opened(h, up, project, ev));
      TrackStep(Opened(h, up, project, ev), up, project, ev.session, Stamp(h, PermEnvelope(project, ev)), now, evicted);
      Rebase(h, Opened(h, up, project, ev), h');
    case Replied(request) => RepliedTalks(h, request);
    case Message(_, _, _, _) => MessageStep(h, up, project, ev, now, evicted);
    case IdleEvent(session, time) =>
      StatusStep(h, up, project, session, time, now, evicted);
      SameTalks(h, OnStatus(h, up, project, session, time, now, evicted), h');
    case SessionStatus(session, time) => StatusStep(h, up, project, session, time, now, evicted);
    case SessionSeen(session, time) => SeenStep(h, up, project, session, time, now, evicted);
    case _ => SilentStep(h, h');
  }

  lemma OpenedTalks(h: Hub, h1: Hub)
    requires TalksStep(h, h1)
    ensures Talks(h1)
  {
    hide Talks, Advances;
  }

  /** Only the sessions of the state before matter. */
  lemma Rebase(h: Hub, h1: Hub, h2: Hub)
    requires TalksStep(h1, h2) && h1.sessions == h.sessions && h1.convSize == h.convSize
    ensures TalksStep(h, h2)
  {
    hide Conv, Advances;
  }

  lemma SeenStep(h: Hub, up: string, project: string, session: string, time: int, now: int, evicted: set<string>)
    requires Talks(h)
    ensures TalksStep(h, Ingest(h, up, project, SessionSeen(session, time), now, evicted))
  {
    hide Talks, Conv, Advances, GetOrCreate;
    var h1 := GetOrCreate(h, up, project, session, now, evicted);
    var h' := Ingest(h, up, project, SessionSeen(session, time), now, evicted);
    GetOrCreateStep(h, up, project, session, now, evicted);
    SilentStep(h1, h');
    Then(h, h1, h');
  }

  lemma RepliedTalks(h: Hub, request: string)
    requires Talks(h)
    ensures TalksStep(h, OnReplied(h, request))
  {
    hide TalksStep, Talks, Publish, ClearPrompt;
    if request in h.byRequest && h.byRequest[request] in h.open {
      var id := h.byRequest[request];
      var p := h.open[id];
      var h0 := h.(open := h.open - {id}, byRequest := h.byRequest - {request});
      SilentStep(h, h0);
      OpenedTalks(h, h0);
      ClearStep(h0, p.session, id);
      Rebase(h, h0, ClearPrompt(h0, p.session, id));
      SameTalks(h, ClearPrompt(h0, p.session, id), OnReplied(h, request));
    } else {
      SilentStep(h, OnReplied(h, request));
    }
  }

  lemma ReplyTalks(h: Hub, req: ReplyRequest, nonce: string)
    requires Talks(h)
    ensures TalksStep(h, Reply(h, req, nonce))
  {
    hide TalksStep, Talks, ClearPrompt, QueueDecision;
    if req.event in h.open {
      var p := h.open[req.event];
      var h0 := h.(open := h.open - {req.event}, byRequest := h.byRequest - {p.request});
      SilentStep(h, h0);
      OpenedTalks(h, h0);
      ClearStep(h0, p.session, req.event);
      Rebase(h, h0, Settle(h, req.event));
      SameTalks(h, Settle(h, req.event), Reply(h, req, nonce));
    } else {
      SilentStep(h, h);
    }
  }

  /** Every step of the hub. */
  lemma StepTalks(h: Hub, op: Op)
    requires Talks(h)
    ensures TalksStep(h, Step(h, op))
  {
    hide TalksStep, Talks, Ingest, Reply, Publish, QueueDecision, Truncate;
    match op
    case OpIngest(up, project, ev, now, evicted) => IngestTalks(h, up, project, ev, now, evicted);
    case OpReply(req, nonce) => ReplyTalks(h, req, nonce);
    case _ => SilentStep(h, Step(h, op));
  }

  // ---- the reader

  /** The view a reader keeps: the newest envelope under each identifier. */
  datatype Viewer = Viewer(cursor: nat, view: map<string, Envelope>, gone: bool)

  function Upsert(view: map<string, Envelope>, items: seq<Envelope>): map<string, Envelope> {
    if items == [] then view else Upsert(view, items[..|items| - 1])[items[|items| - 1].id := items[|items| - 1]]
  }

  function PollOf(r: Viewer, h: Hub, session: string): Viewer {
    match ConversationOnce(h, session, r.cursor)
    case Refused => r.(gone := true)
    case Answer(cursor, items) => Viewer(cursor, Upsert(r.view, items), r.gone)
  }

  ghost predicate Shows(view: map<string, Envelope>, e: Envelope) {
    e.id in view && view[e.id] == e
  }

  /** The reader agrees with the server on an entry. */
  ghost predicate Agrees(r: Viewer, s: Sess) {
    forall i :: 0 <= i < |s.conv| ==> Shows(r.view, s.conv[i])
  }

  /** It agrees on everything its cursor covers. */
  ghost predicate InStep(r: Viewer, s: Sess) {
    r.cursor <= s.convSeq && forall i :: 0 <= i < |s.conv| && s.conv[i].seqNo <= r.cursor ==> Shows(r.view, s.conv[i])
  }

  ghost predicate DistinctIds(conv: seq<Envelope>) {
    forall i, j :: 0 <= i < j < |conv| ==> conv[i].id != conv[j].id
  }

  lemma UpsertLast(view: map<string, Envelope>, conv: seq<Envelope>, cursor: nat)
    requires conv != []
    ensures var e := conv[|conv| - 1]; var before := Upsert(view, Newer(conv[..|conv| - 1], cursor));
      Upsert(view, Newer(conv, cursor)) == if e.seqNo > cursor then before[e.id := e] else before
  {
    var items := Newer(conv[..|conv| - 1], cursor);
    assert (items + [conv[|conv| - 1]])[..|items|] == items && items + [] == items;
  }

  lemma {:induction false} UpsertNewer(view: map<string, Envelope>, conv: seq<Envelope>, cursor: nat, i: nat)
    requires DistinctIds(conv) && i < |conv|
    ensures conv[i].seqNo > cursor ==> Shows(Upsert(view, Newer(conv, cursor)), conv[i])
    ensures conv[i].seqNo <= cursor ==>
      (Shows(Upsert(view, Newer(conv, cursor)), conv[i]) <==> Shows(view, conv[i]))
  {
    hide Upsert, Newer;
    var most := conv[..|conv| - 1];
    UpsertLast(view, conv, cursor);
    if i < |most| {
      UpsertNewer(view, most, cursor, i);
    } else if conv[i].seqNo <= cursor {
      UpsertOthers(view, most, cursor, conv[i].id);
    }
  }

  lemma {:induction false} UpsertOthers(view: map<string, Envelope>, conv: seq<Envelope>, cursor: nat, id: string)
    requires forall i :: 0 <= i < |conv| ==> conv[i].id != id
    ensures var view' := Upsert(view, Newer(conv, cursor));
      (id in view' <==> id in view) && (id in view ==> view'[id] == view[id])
  {
    if conv != [] {
      UpsertLast(view, conv, cursor);
      UpsertOthers(view, conv[..|conv| - 1], cursor, id);
    }
  }

  /** After a poll the reader agrees with the server if and only if every retained entry is newer than its
      cursor or already shown: the exact condition under which a cursor may be reused. */
  lemma PollAgreesIff(h: Hub, session: string, r: Viewer)
    requires Talks(h) && session in h.sessions
    ensures var s := h.sessions[session];
      Agrees(PollOf(r, h, session), s) <==>
        forall i :: 0 <= i < |s.conv| ==> s.conv[i].seqNo > r.cursor || Shows(r.view, s.conv[i])
  {
    hide Upsert, Newer, Shows;
    var s := h.sessions[session];
    var r' := PollOf(r, h, session);
    forall i | 0 <= i < |s.conv|
      ensures Shows(r'.view, s.conv[i]) <==> s.conv[i].seqNo > r.cursor || Shows(r.view, s.conv[i])
    {
      UpsertNewer(r.view, s.conv, r.cursor, i);
    }
    if Agrees(r', s) {
      forall i | 0 <= i < |s.conv| ensures s.conv[i].seqNo > r.cursor || Shows(r.view, s.conv[i]) {
        assert Shows(r'.view, s.conv[i]);
      }
    }
  }

  datatype Move = Hubs(op: Op) | PollDelivered | PollLost

  datatype World = World(hub: Hub, reader: Viewer)

  function ConverseOne(w: World, session: string, m: Move): World {
    match m
    case Hubs(op) => w.(hub := Step(w.hub, op))
    case PollDelivered => w.(reader := PollOf(w.reader, w.hub, session))
    case PollLost => w
  }

  function Converse(w: World, session: string, moves: seq<Move>): World
    decreases |moves|
  {
    if moves == [] then w else Converse(ConverseOne(w, session, moves[0]), session, moves[1..])
  }

  /** One lifetime of the session: it is never deleted, evicted or dropped with its window. */
  ghost predicate Lives(w: World, session: string, moves: seq<Move>)
    decreases |moves|
  {
    && session in w.hub.sessions
    && (moves != [] ==> Lives(ConverseOne(w, session, moves[0]), session, moves[1..]))
  }

  /** However many in-place updates, retractions, evictions and lost answers lie between two polls, within one
      lifetime of the session the reader agrees with the server on every retained entry after each poll. */
  lemma {:induction false} ReaderAgrees(w: World, session: string, moves: seq<Move>)
    requires Talks(w.hub) && Lives(w, session, moves) && InStep(w.reader, w.hub.sessions[session])
    ensures var w' := Converse(w, session, moves);
      Talks(w'.hub) && session in w'.hub.sessions && InStep(w'.reader, w'.hub.sessions[session])
      && Agrees(PollOf(w'.reader, w'.hub, session), w'.hub.sessions[session])
    decreases |moves|
  {
    hide Step, Shows, Upsert, Newer;
    InStepPolls(w.hub, session, w.reader);
    if moves != [] {
      match moves[0] {
        case Hubs(op) =>
          StepTalks(w.hub, op);
          AdvanceInStep(w.reader, w.hub.sessions[session], Step(w.hub, op).sessions[session]);
        case PollDelivered =>
        case PollLost =>
      }
      ReaderAgrees(ConverseOne(w, session, moves[0]), session, moves[1..]);
    }
  }

  lemma InStepPolls(h: Hub, session: string, r: Viewer)
    requires Talks(h) && session in h.sessions && InStep(r, h.sessions[session])
    ensures var r' := PollOf(r, h, session);
      Agrees(r', h.sessions[session]) && InStep(r', h.sessions[session])
  {
    hide Shows, Upsert, Newer, Conv;
    PollAgreesIff(h, session, r);
  }

  lemma AdvanceInStep(r: Viewer, s: Sess, s': Sess)
    requires InStep(r, s) && Advances(s, s')
    ensures InStep(r, s')
  {
    hide Shows;
    forall i | 0 <= i < |s'.conv| && s'.conv[i].seqNo <= r.cursor ensures Shows(r.view, s'.conv[i]) {
      assert s'.conv[i] in s.conv;
    }
  }

  /** A reader starts in step with any session. */
  lemma FreshReader(s: Sess, size: nat)
    requires Conv(s, size)
    ensures InStep(Viewer(0, map[], false), s)
  {
  }

  lemma {:induction false} RunTalks(h: Hub, ops: seq<Op>)
    requires Talks(h)
    ensures Talks(Run(h, ops))
    decreases |ops|
  {
    hide Step, Conv;
    if ops != [] {
      StepTalks(h, ops[0]);
      RunTalks(Step(h, ops[0]), ops[1..]);
    }
  }

  lemma NewTalks(ringSize: int)
    ensures Talks(New(ringSize))
  {
  }

  /** From a new hub: a reader that opens a session after any run agrees with it after every poll from then on, as long
      as the session lives. */
  lemma NewReaderAgrees(ringSize: int, ops: seq<Op>, session: string, moves: seq<Move>)
    requires Lives(World(Run(New(ringSize), ops), Viewer(0, map[], false)), session, moves)
    requires session in Run(New(ringSize), ops).sessions
    ensures var w' := Converse(World(Run(New(ringSize), ops), Viewer(0, map[], false)), session, moves);
      session in w'.hub.sessions && Agrees(PollOf(w'.reader, w'.hub, session), w'.hub.sessions[session])
  {
    hide Run, New, Lives, Converse, InStep, Agrees, Conv, PollOf;
    var h := Run(New(ringSize), ops);
    NewTalks(ringSize);
    RunTalks(New(ringSize), ops);
    FreshReader(h.sessions[session], h.convSize);
    ReaderAgrees(World(h, Viewer(0, map[], false)), session, moves);
  }

  /** The first entry of a session that has none. */
  lemma FirstEntry(s: Sess, env: Envelope, part: string, ms: int, size: nat)
    requires s.conv == [] && s.convSeq == 0 && part != "" && size > 0
    ensures Hear(s, env, part, ms, size).conv == [env.(id := part, seqNo := 1)]
    ensures Hear(s, env, part, ms, size).wakers == s.wakers
  {
  }

  /** A message to a session that is not there, or has nothing yet, leaves it with that one entry. */
  lemma FirstMessage(h: Hub, up: string, project: string, ev: Event, now: int, evicted: set<string>)
    requires ev.Message? && ev.session != "" && ev.part != "" && h.convSize > 0
    requires ev.session in h.sessions ==> h.sessions[ev.session].conv == [] && h.sessions[ev.session].convSeq == 0
    ensures var h' := OnMessage(h, up, project, ev, now, evicted);
      var env := Blank(Msg, project, ev.session).(id := ev.part, seqNo := 1, text := Truncate(ev.text, 4096));
      && ev.session in h'.sessions && h'.sessions[ev.session].conv == [env]
      && h'.tokens == h.tokens + (if ev.session in h.sessions then h.sessions[ev.session].wakers else {})
  {
    hide Hear, Truncate, Blank;
    var h1 := GetOrCreate(h, up, project, ev.session, now, evicted);
    FirstEntry(h1.sessions[ev.session],
               Blank(Msg, project, ev.session).(text := Truncate(ev.text, 4096)), ev.part, ev.time,
               h.convSize);
  }

  /** Across two lifetimes the cursor does not survive: after a session is deleted and recreated by one message,
      a reader that had already polled anything misses that message. */
  lemma StaleCursorMisses(h: Hub, session: string, r: Viewer, up: string, project: string, part: string, text: string,
                          time: int, now: int, evicted: set<string>)
    requires session in h.sessions && session != "" && part != "" && h.convSize > 0
    requires r.cursor >= 1 && part !in r.view
    ensures var deleted := Ingest(h, up, project, SessionDeleted(session), now, {});
      var h' := Ingest(deleted, up, project, Message(session, part, text, time), now, evicted);
      session in h'.sessions && !Agrees(PollOf(r, h', session), h'.sessions[session])
  {
    hide Upsert, OnMessage, Blank, Truncate;
    var deleted := OnDeleted(h, session);
    var h' := OnMessage(deleted, up, project, Message(session, part, text, time), now, evicted);
    FirstMessage(deleted, up, project, Message(session, part, text, time), now, evicted);
    var s := h'.sessions[session];
    UpsertNewer(r.view, s.conv, r.cursor, 0);
    assert !Shows(PollOf(r, h', session).view, s.conv[0]);
  }
}

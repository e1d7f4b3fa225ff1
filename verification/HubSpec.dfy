/** The hub of api/internal/hub/hub.go as functions on values: one function per locked section.

    `HubImpl` proves the class that updates its fields in place against these functions; the results
    about every run are proved about them. A wakeup channel is a number, its one-slot buffer is
    membership in `tokens`. */
module HubSpec {
  import opened Ids
  import opened Wrappers

  type Chan = nat

  datatype Kind = Perm | Ques | Idle | Err | Msg | Gone

  datatype Envelope = Envelope(id: string, seqNo: nat, kind: Kind, project: string, session: string,
                               title: string, body: string, choices: seq<string>, text: string, expires: int)

  datatype Pending = Pending(env: Envelope, upstream: string, request: string, session: string)

  datatype Decision = Decision(id: string, nonce: string, request: string, session: string, kind: string,
                               action: string, choice: int, text: string, expires: int)

  datatype ReplyRequest = ReplyRequest(event: string, action: string, choice: int, text: string)

  datatype Upstream = Upstream(project: string, decisions: seq<Decision>, decCursor: nat, wakers: set<Chan>)

  datatype Sess = Sess(upstream: string, project: string, updated: int, convSeq: nat, conv: seq<Envelope>,
                       pendingPrompt: string, wakers: set<Chan>)

  datatype Hub = Hub(seqNo: nat, size: nat, ring: seq<Envelope>, open: map<string, Pending>,
                     byRequest: map<string, string>, subs: set<Chan>, upstreams: map<string, Upstream>,
                     upSeq: nat, decSeq: nat, sessions: map<string, Sess>, convSize: nat, tokens: set<Chan>)

  /** What a plugin reports. `Other` stands for the kinds the hub does not recognise, "question" among
      them. */
  datatype Event =
    | Permission(request: string, session: string, action: string, resources: seq<string>, always: seq<string>)
    | Replied(request: string)
    | Message(session: string, part: string, text: string, time: int)
    | IdleEvent(session: string, time: int)
    | ErrorEvent(session: string, description: string)
    | SessionSeen(session: string, time: int)
    | SessionDeleted(session: string)
    | SessionStatus(session: string, time: int)
    | Other

  const MAX_QUEUED_DECISIONS := 256
  const CONV_SIZE := 50

  function New(ringSize: int): Hub {
    Hub(0, if ringSize <= 0 then 200 else ringSize, [], map[], map[], {}, map[], 0, 0, map[], CONV_SIZE, {})
  }

  // ---- translation

  function TruncateChoices(choices: seq<string>): (r: seq<string>)
    ensures |r| <= 6 && forall i :: 0 <= i < |r| ==> |r[i]| <= 24
  {
    var kept := if |choices| > 6 then choices[..6] else choices;
    seq(|kept|, i requires 0 <= i < |kept| => Truncate(kept[i], 24))
  }

  function Blank(kind: Kind, project: string, session: string): (env: Envelope)
    ensures env.id == "" && env.kind == kind
  {
    Envelope("", 0, kind, Truncate(project, 24), session, "", "", [], "", 0)
  }

  function PermEnvelope(project: string, ev: Event): (env: Envelope)
    requires ev.Permission?
    ensures env.id == "" && env.kind == Perm
  {
    var choices :=
      if ev.always == [] then ["Approve", "Reject"]
      else ["Approve", "Always: " + Truncate(ev.always[0], 24), "Reject"];
    Blank(Perm, project, ev.session).(
      title := Truncate(ev.action, 32),
      body := Truncate(if ev.resources == [] then "" else ev.resources[0], 256),
      choices := TruncateChoices(choices))
  }

  // ---- the ring

  function Stamp(h: Hub, env: Envelope): Envelope {
    env.(seqNo := h.seqNo + 1, id := if env.id == "" then EventId(h.seqNo + 1) else env.id)
  }

  /** publishLocked: append, evict the oldest with its pending prompt, wake every poller. */
  function Publish(h: Hub, env: Envelope): (h': Hub)
    ensures h' == h.(seqNo := h.seqNo + 1, ring := h'.ring, open := h'.open, byRequest := h'.byRequest,
                     tokens := h.tokens + h.subs)
  {
    var ring := h.ring + [Stamp(h, env)];
    var h := h.(seqNo := h.seqNo + 1, ring := ring, tokens := h.tokens + h.subs);
    if |ring| > h.size then
      var evicted := ring[0].id;
      var h := h.(ring := ring[1..]);
      if evicted in h.open
      then h.(open := h.open - {evicted}, byRequest := h.byRequest - {h.open[evicted].request})
      else h
    else h
  }

  datatype PollResult<T> = Refused | Answer(cursor: nat, items: seq<T>)

  const TWO64: nat := 0x1_0000_0000_0000_0000

  /** n + 1 on the source's 64-bit counters. */
  function Next64(n: nat): nat {
    if n + 1 == TWO64 then 0 else n + 1
  }

  /** pollOnce */
  function PollOnce(h: Hub, cursor: nat): PollResult<Envelope> {
    if |h.ring| > 0 && Next64(cursor) < h.ring[0].seqNo then Refused
    else if cursor > h.seqNo then Refused
    else Answer(h.seqNo, Newer(h.ring, cursor))
  }

  function Newer(s: seq<Envelope>, cursor: nat): seq<Envelope> {
    if s == [] then []
    else Newer(s[..|s| - 1], cursor) + (if s[|s| - 1].seqNo > cursor then [s[|s| - 1]] else [])
  }

  // ---- conversations

  function IndexOf(conv: seq<Envelope>, id: string): (i: int)
    ensures -1 <= i < |conv|
    ensures i >= 0 ==> conv[i].id == id && forall k :: 0 <= k < i ==> conv[k].id != id
    ensures i == -1 ==> forall k :: 0 <= k < |conv| ==> conv[k].id != id
  {
    if conv == [] then -1
    else
      var i := IndexOf(conv[..|conv| - 1], id);
      if i >= 0 then i else if conv[|conv| - 1].id == id then |conv| - 1 else -1
  }

  /** appendConv: replace the entry with this identifier in place, or append and drop the oldest. */
  function AppendConv(s: Sess, env: Envelope, convSize: nat): Sess {
    var env := env.(seqNo := s.convSeq + 1);
    var s := s.(convSeq := s.convSeq + 1);
    var at := if env.id == "" then -1 else IndexOf(s.conv, env.id);
    if at >= 0 then s.(conv := s.conv[at := env])
    else
      var conv := s.conv + [env];
      s.(conv := if |conv| > convSize then conv[|conv| - convSize..] else conv)
  }

  /** clearSessionPromptLocked, on the session: drop the badge, turn the prompt into a gone entry. */
  function Retract(s: Sess, id: string, session: string): Sess {
    var s := if s.pendingPrompt == id then s.(pendingPrompt := "") else s;
    var at := IndexOf(s.conv, id);
    if at < 0 then s
    else
      var was := s.conv[at];
      var gone := Envelope(id, s.convSeq + 1, Gone, was.project, session, was.title, was.body, [], "", 0);
      s.(convSeq := s.convSeq + 1, conv := s.conv[at := gone])
  }

  function ClearPrompt(h: Hub, session: string, id: string): (h': Hub)
    ensures h' == h.(sessions := h'.sessions, tokens := h'.tokens)
  {
    if session !in h.sessions then h
    else h.(sessions := h.sessions[session := Retract(h.sessions[session], id, session)],
            tokens := h.tokens + h.sessions[session].wakers)
  }

  /** conversationOnce */
  function ConversationOnce(h: Hub, session: string, cursor: nat): PollResult<Envelope> {
    if session !in h.sessions then Refused
    else Answer(h.sessions[session].convSeq, Newer(h.sessions[session].conv, cursor))
  }

  // ---- the session registry

  /** The window that reports a session owns it. */
  function Claim(s: Sess, upstream: string, project: string): Sess {
    s.(upstream := if upstream != "" then upstream else s.upstream,
       project := if project != "" then project else s.project)
  }

  /** getOrCreateSessionLocked on the registry. `evicted` is what the eviction loop removed; see
      `HubImpl.LiveHub.EvictSessions`. */
  function Known(sessions: map<string, Sess>, upstream: string, project: string, session: string, now: int,
                 evicted: set<string>): (m: map<string, Sess>)
    ensures session in m
  {
    if session in sessions then sessions[session := Claim(sessions[session], upstream, project)]
    else (sessions - evicted)[session := Sess(upstream, project, now, 0, [], "", {})]
  }

  function GetOrCreate(h: Hub, upstream: string, project: string, session: string, now: int,
                       evicted: set<string>): (h': Hub)
    ensures session in h'.sessions && h' == h.(sessions := h'.sessions)
  {
    h.(sessions := Known(h.sessions, upstream, project, session, now, evicted))
  }

  function Touch(s: Sess, ms: int): Sess {
    if ms > s.updated then s.(updated := ms) else s
  }

  /** Replace a session and wake its pollers. */
  function Put(h: Hub, session: string, s: Sess): Hub {
    h.(sessions := h.sessions[session := s], tokens := h.tokens + s.wakers)
  }

  // ---- plugin events

  /** handleMessageLocked on the session: the part is the entry's identity; one without is given its own. */
  function Hear(s: Sess, env: Envelope, part: string, ms: int, convSize: nat): Sess {
    var s := if part == "" then s.(convSeq := s.convSeq + 1) else s;
    var id := if part == "" then PartId(s.convSeq) else part;
    Touch(AppendConv(s, env.(id := id), convSize), ms)
  }

  function OnMessage(h: Hub, upstream: string, project: string, ev: Event, now: int, evicted: set<string>): (h': Hub)
    requires ev.Message?
    ensures h' == h.(sessions := h'.sessions, tokens := h'.tokens)
  {
    if ev.session == "" then h
    else
      var h := GetOrCreate(h, upstream, project, ev.session, now, evicted);
      var env := Blank(Msg, project, ev.session).(text := Truncate(ev.text, 4096));
      Put(h, ev.session, Hear(h.sessions[ev.session], env, ev.part, ev.time, h.convSize))
  }

  /** handleRepliedLocked */
  function OnReplied(h: Hub, request: string): (h': Hub)
    ensures h.seqNo <= h'.seqNo <= h.seqNo + 1
    ensures h' == h.(seqNo := h'.seqNo, ring := h'.ring, open := h'.open, byRequest := h'.byRequest,
                     sessions := h'.sessions, tokens := h'.tokens)
  {
    if request !in h.byRequest then h
    else
      var id := h.byRequest[request];
      if id !in h.open then h.(byRequest := h.byRequest - {request})
      else
        var p := h.open[id];
        var h := ClearPrompt(h.(open := h.open - {id}, byRequest := h.byRequest - {request}), p.session, id);
        Publish(h, Envelope(id, 0, Gone, p.env.project, p.env.session, "", "", [], "", 0))
  }

  function Ask(s: Sess, env: Envelope, ms: int, convSize: nat): Sess {
    Touch(AppendConv(s.(pendingPrompt := env.id), env, convSize), ms)
  }

  /** trackSessionPromptLocked: badge the session and put the prompt into its conversation. */
  function TrackPrompt(h: Hub, upstream: string, project: string, session: string, env: Envelope, now: int,
                       evicted: set<string>): (h': Hub)
    ensures h' == h.(sessions := h'.sessions, tokens := h'.tokens)
  {
    if session == "" then h
    else
      var h := GetOrCreate(h, upstream, project, session, now, evicted);
      Put(h, session, Ask(h.sessions[session], env, now, h.convSize))
  }

  /** A prompt published and put on the books. */
  function Opened(h: Hub, upstream: string, project: string, ev: Event): (h': Hub)
    requires ev.Permission?
    ensures h'.seqNo == h.seqNo + 1
    ensures h' == h.(seqNo := h'.seqNo, ring := h'.ring, open := h'.open, byRequest := h'.byRequest,
                     sessions := h'.sessions, tokens := h'.tokens)
  {
    var env := Stamp(h, PermEnvelope(project, ev));
    var h := Publish(h, PermEnvelope(project, ev));
    h.(open := h.open[env.id := Pending(env, upstream, ev.request, ev.session)],
       byRequest := h.byRequest[ev.request := env.id])
  }

  /** The permission branch of IngestPluginEvents. */
  function OnPermission(h: Hub, upstream: string, project: string, ev: Event, now: int, evicted: set<string>): (h': Hub)
    requires ev.Permission?
    ensures h'.seqNo == h.seqNo + 1
    ensures h' == h.(seqNo := h'.seqNo, ring := h'.ring, open := h'.open, byRequest := h'.byRequest,
                     sessions := h'.sessions, tokens := h'.tokens)
  {
    TrackPrompt(Opened(h, upstream, project, ev), upstream, project, ev.session,
                Stamp(h, PermEnvelope(project, ev)), now, evicted)
  }

  function OnStatus(h: Hub, upstream: string, project: string, session: string, time: int, now: int,
                    evicted: set<string>): (h': Hub)
    ensures h' == h.(sessions := h'.sessions, tokens := h'.tokens)
  {
    var h := GetOrCreate(h, upstream, project, session, now, evicted);
    Put(h, session, Touch(h.sessions[session], time))
  }

  /** session.created and session.updated: the clock moves and nobody is woken. */
  function OnSeen(h: Hub, upstream: string, project: string, session: string, time: int, now: int,
                  evicted: set<string>): (h': Hub)
    ensures h' == h.(sessions := h'.sessions)
  {
    var h := GetOrCreate(h, upstream, project, session, now, evicted);
    h.(sessions := h.sessions[session := Touch(h.sessions[session], time)])
  }

  function OnDeleted(h: Hub, session: string): (h': Hub)
    ensures h' == h.(sessions := h.sessions - {session}, tokens := h'.tokens)
  {
    if session in h.sessions
    then h.(sessions := h.sessions - {session}, tokens := h.tokens + h.sessions[session].wakers)
    else h
  }

  /** One event of IngestPluginEvents. */
  function Ingest(h: Hub, upstream: string, project: string, ev: Event, now: int, evicted: set<string>): (h': Hub)
    ensures h.seqNo <= h'.seqNo <= h.seqNo + 1
    ensures h' == h.(seqNo := h'.seqNo, ring := h'.ring, open := h'.open, byRequest := h'.byRequest,
                     sessions := h'.sessions, tokens := h'.tokens)
  {
    match ev
    case Permission(_, _, _, _, _) => OnPermission(h, upstream, project, ev, now, evicted)
    case Replied(request) => OnReplied(h, request)
    case Message(_, _, _, _) => OnMessage(h, upstream, project, ev, now, evicted)
    case IdleEvent(session, time) =>
      var h := OnStatus(h, upstream, project, session, time, now, evicted);
      Publish(h, Blank(Idle, project, session).(title := "idle"))
    case ErrorEvent(session, description) =>
      Publish(h, Blank(Err, project, session).(title := "error", body := Truncate(description, 256)))
    case SessionSeen(session, time) => OnSeen(h, upstream, project, session, time, now, evicted)
    case SessionDeleted(session) => OnDeleted(h, session)
    case SessionStatus(session, time) => OnStatus(h, upstream, project, session, time, now, evicted)
    case Other => h
  }

  // ---- decisions

  function KindName(k: Kind): string {
    match k
    case Perm => "perm"
    case Ques => "ques"
    case Idle => "idle"
    case Err => "err"
    case Msg => "msg"
    case Gone => "gone"
  }

  /** queueDecisionLocked, on the upstream. */
  function Enqueue(up: Upstream, dec: Decision, number: nat): Upstream {
    var q := up.decisions + [dec];
    up.(decisions := if |q| > MAX_QUEUED_DECISIONS then q[|q| - MAX_QUEUED_DECISIONS..] else q, decCursor := number)
  }

  function QueueDecision(h: Hub, upstream: string, dec: Decision, nonce: string): (h': Hub)
    requires upstream in h.upstreams
    ensures h' == h.(decSeq := h.decSeq + 1, upstreams := h'.upstreams, tokens := h'.tokens)
  {
    var n := h.decSeq + 1;
    var up := h.upstreams[upstream];
    h.(decSeq := n,
       upstreams := h.upstreams[upstream := Enqueue(up, dec.(id := DecisionId(n), nonce := nonce), n)],
       tokens := h.tokens + up.wakers)
  }

  datatype ReplyOutcome = Queued | AlreadyAnswered | UpstreamGone

  function DecisionFor(p: Pending, req: ReplyRequest): Decision {
    Decision("", "", p.request, p.session, KindName(p.env.kind), req.action, req.choice, req.text, p.env.expires)
  }

  function ReplyResult(h: Hub, req: ReplyRequest): ReplyOutcome {
    if req.event !in h.open then AlreadyAnswered
    else if h.open[req.event].upstream !in h.upstreams then UpstreamGone
    else Queued
  }

  /** The hub once a prompt has been taken off the books, whatever became of the answer. */
  function Settle(h: Hub, id: string): (h': Hub)
    requires id in h.open
    ensures h' == h.(open := h.open - {id}, byRequest := h.byRequest - {h.open[id].request},
                     sessions := h'.sessions, tokens := h'.tokens)
  {
    var p := h.open[id];
    ClearPrompt(h.(open := h.open - {id}, byRequest := h.byRequest - {p.request}), p.session, id)
  }

  /** Reply: the first answer to an open prompt settles it and is queued for the window that asked. */
  function Reply(h: Hub, req: ReplyRequest, nonce: string): (h': Hub)
    ensures h' == h.(open := h'.open, byRequest := h'.byRequest, sessions := h'.sessions, decSeq := h'.decSeq,
                     upstreams := h'.upstreams, tokens := h'.tokens)
  {
    if req.event !in h.open then h
    else
      var p := h.open[req.event];
      var h := Settle(h, req.event);
      if p.upstream in h.upstreams then QueueDecision(h, p.upstream, DecisionFor(p, req), nonce) else h
  }

  /** Prompt: dictated text for a session. */
  function Prompt(h: Hub, session: string, text: string, nonce: string, now: int): (h': Hub)
    ensures h' == h.(sessions := h'.sessions, decSeq := h'.decSeq, upstreams := h'.upstreams, tokens := h'.tokens)
  {
    var text := Truncate(text, 4096);
    if text == "" || session !in h.sessions || h.sessions[session].upstream !in h.upstreams then h
    else
      var h := QueueDecision(h, h.sessions[session].upstream,
                             Decision("", "", "", session, "prompt", "text", 0, text, 0), nonce);
      h.(sessions := h.sessions[session := Touch(h.sessions[session], now)])
  }

  function NewerDecisions(s: seq<Decision>, cursor: nat): seq<Decision> {
    if s == [] then []
    else NewerDecisions(s[..|s| - 1], cursor) + (if DecisionNumber(s[|s| - 1].id) > cursor then [s[|s| - 1]] else [])
  }

  /** pollDecisionsOnce */
  function PollDecisionsOnce(h: Hub, upstream: string, cursor: nat): PollResult<Decision> {
    if upstream !in h.upstreams then Refused
    else Answer(h.upstreams[upstream].decCursor, NewerDecisions(h.upstreams[upstream].decisions, cursor))
  }

  // ---- upstreams and subscriptions

  function UpstreamId(n: nat): string {
    "up_" + Decimal(n)
  }

  /** RegisterUpstream: always a new entry. */
  function Register(h: Hub, project: string): Hub {
    h.(upSeq := h.upSeq + 1, upstreams := h.upstreams[UpstreamId(h.upSeq + 1) := Upstream(project, [], 0, {})])
  }

  function OwnedBy(h: Hub, upstream: string): set<string> {
    set s | s in h.sessions && h.sessions[s].upstream == upstream
  }

  /** RemoveUpstream: the window and its sessions go, without waking anyone. */
  function Remove(h: Hub, upstream: string): Hub {
    h.(sessions := h.sessions - OwnedBy(h, upstream), upstreams := h.upstreams - {upstream})
  }

  datatype Topic = RingTopic | DecisionTopic(upstream: string) | ConvTopic(session: string)

  /** Register a channel with a topic's wakers. */
  function Subscribe(h: Hub, t: Topic, ch: Chan): (h': Hub)
    ensures h' == h.(subs := h'.subs, upstreams := h'.upstreams, sessions := h'.sessions)
  {
    match t
    case RingTopic => h.(subs := h.subs + {ch})
    case DecisionTopic(u) =>
      if u in h.upstreams
      then h.(upstreams := h.upstreams[u := h.upstreams[u].(wakers := h.upstreams[u].wakers + {ch})]) else h
    case ConvTopic(s) =>
      if s in h.sessions
      then h.(sessions := h.sessions[s := h.sessions[s].(wakers := h.sessions[s].wakers + {ch})]) else h
  }

  function Unsubscribe(h: Hub, t: Topic, ch: Chan): (h': Hub)
    ensures h' == h.(subs := h'.subs, upstreams := h'.upstreams, sessions := h'.sessions)
  {
    match t
    case RingTopic => h.(subs := h.subs - {ch})
    case DecisionTopic(u) =>
      if u in h.upstreams
      then h.(upstreams := h.upstreams[u := h.upstreams[u].(wakers := h.upstreams[u].wakers - {ch})]) else h
    case ConvTopic(s) =>
      if s in h.sessions
      then h.(sessions := h.sessions[s := h.sessions[s].(wakers := h.sessions[s].wakers - {ch})]) else h
  }

  function TakeToken(h: Hub, ch: Chan): Hub {
    h.(tokens := h.tokens - {ch})
  }

  // ---- steps

  /** Everything that changes a hub. */
  datatype Op =
    | OpPublish(env: Envelope)
    | OpIngest(upstream: string, project: string, ev: Event, now: int, evicted: set<string>)
    | OpReply(req: ReplyRequest, nonce: string)
    | OpPrompt(session: string, text: string, nonce: string, now: int)
    | OpRegister(project: string)
    | OpRemove(upstream: string)
    | OpSubscribe(topic: Topic, ch: Chan)
    | OpUnsubscribe(topic: Topic, ch: Chan)
    | OpTake(ch: Chan)

  function Step(h: Hub, op: Op): (h': Hub)
    ensures h.seqNo <= h'.seqNo <= h.seqNo + 1 && h'.size == h.size
  {
    match op
    case OpPublish(env) => Publish(h, env)
    case OpIngest(upstream, project, ev, now, evicted) => Ingest(h, upstream, project, ev, now, evicted)
    case OpReply(req, nonce) => Reply(h, req, nonce)
    case OpPrompt(session, text, nonce, now) => Prompt(h, session, text, nonce, now)
    case OpRegister(project) => Register(h, project)
    case OpRemove(upstream) => Remove(h, upstream)
    case OpSubscribe(t, ch) => Subscribe(h, t, ch)
    case OpUnsubscribe(t, ch) => Unsubscribe(h, t, ch)
    case OpTake(ch) => TakeToken(h, ch)
  }
}

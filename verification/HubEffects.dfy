/** What an operation of api/internal/hub/hub.go leaves where a client will look, spelled out field by field: the
    conversation, the badge, the ring, the queue of decisions, the registry. */
module HubEffects {
  import opened HubConversation
  import opened HubPrompts
  import opened HubRing
  import opened HubSpec
  import opened Ids
  import opened Wrappers

  // ---- conversations

  /** `env` takes the place of the entry with its identifier; or it goes last, the oldest entry making room when there
      are `size` already. Nothing else moves or changes. */
  ghost predicate Upserted(before: seq<Envelope>, after: seq<Envelope>, env: Envelope, size: nat)
    requires size > 0
  {
    if exists k :: 0 <= k < |before| && before[k].id == env.id
    then
      && |after| == |before|
      && forall k :: 0 <= k < |before| ==> after[k] == if before[k].id == env.id then env else before[k]
    else
      var gone := if |before| < size then 0 else 1;
      && |after| == |before| - gone + 1 && after[|after| - 1] == env
      && forall k :: 0 <= k < |after| - 1 ==> after[k] == before[k + gone]
  }

  /** The conversation of a session, empty when there is none. */
  function ConvOf(h: Hub, session: string): seq<Envelope> {
    if session in h.sessions then h.sessions[session].conv else []
  }

  function NumberOf(h: Hub, session: string): nat {
    if session in h.sessions then h.sessions[session].convSeq else 0
  }

  lemma AppendUpserts(s: Sess, env: Envelope, size: nat)
    requires Conv(s, size) && env.id != "" && size > 0
    ensures var e := env.(seqNo := s.convSeq + 1); var s' := AppendConv(s, env, size);
      Upserted(s.conv, s'.conv, e, size) && s' == s.(convSeq := s.convSeq + 1, conv := s'.conv)
  {
    hide IndexOf, Upserted;
    var e := env.(seqNo := s.convSeq + 1);
    var at := IndexOf(s.conv, env.id);
    if at >= 0 {
      Replaced(s, at, e, size);
    } else {
      Appended(s.conv, e, size);
    }
  }

  lemma Replaced(s: Sess, at: nat, e: Envelope, size: nat)
    requires Conv(s, size) && at < |s.conv| && s.conv[at].id == e.id && size > 0
    ensures Upserted(s.conv, s.conv[at := e], e, size)
  {
  }

  lemma Appended(conv: seq<Envelope>, e: Envelope, size: nat)
    requires |conv| <= size && size > 0 && forall k :: 0 <= k < |conv| ==> conv[k].id != e.id
    ensures var all := conv + [e]; Upserted(conv, if |all| > size then all[|all| - size..] else all, e, size)
  {
  }

  /** Registering or claiming a session touches no conversation. */
  lemma SameTalk(h: Hub, up: string, project: string, session: string, now: int, evicted: set<string>)
    requires Talks(h)
    ensures var h' := GetOrCreate(h, up, project, session, now, evicted);
      && Conv(h'.sessions[session], h.convSize)
      && h'.sessions[session].conv == ConvOf(h, session) && h'.sessions[session].convSeq == NumberOf(h, session)
  {
  }

  /** A message is in its conversation under its part, or under an identifier of its own when it names none, with its
      own text and the newest number; an earlier update of the part is replaced where it stood. */
  lemma MessageRecorded(h: Hub, up: string, project: string, ev: Event, now: int, evicted: set<string>)
    requires Talks(h) && h.convSize > 0 && ev.Message? && ev.session != ""
    ensures var h' := OnMessage(h, up, project, ev, now, evicted);
      var n := NumberOf(h, ev.session) + (if ev.part == "" then 2 else 1);
      var id := if ev.part == "" then "part_" + Decimal(n - 1) else ev.part;
      && NumberOf(h', ev.session) == n
      && Upserted(ConvOf(h, ev.session), ConvOf(h', ev.session),
                  Envelope(id, n, Msg, Truncate(project, 24), ev.session, "", "", [], Truncate(ev.text, 4096), 0),
                  h.convSize)
      && OnlyEntry(ConvOf(h', ev.session),
                   Envelope(id, n, Msg, Truncate(project, 24), ev.session, "", "", [], Truncate(ev.text, 4096), 0))
  {
    hide Conv, AppendConv, Upserted, OnlyEntry, Truncate, Decimal, GetOrCreate;
    SameTalk(h, up, project, ev.session, now, evicted);
    var s := GetOrCreate(h, up, project, ev.session, now, evicted).sessions[ev.session];
    var t := if ev.part == "" then s.(convSeq := s.convSeq + 1) else s;
    var env := Blank(Msg, project, ev.session).(text := Truncate(ev.text, 4096),
                                                id := if ev.part == "" then PartId(t.convSeq) else ev.part);
    MoreNumbers(s, t, h.convSize);
    AppendUpserts(t, env, h.convSize);
    UpsertedOnce(t, AppendConv(t, env, h.convSize).conv, env.(seqNo := t.convSeq + 1), h.convSize);
  }

  /** It is there, and nothing else has its identifier. */
  ghost predicate OnlyEntry(conv: seq<Envelope>, env: Envelope) {
    exists k :: 0 <= k < |conv| && conv[k] == env && forall j :: 0 <= j < |conv| && j != k ==> conv[j].id != env.id
  }

  lemma UpsertedOnce(s: Sess, after: seq<Envelope>, env: Envelope, size: nat)
    requires Conv(s, size) && size > 0 && Upserted(s.conv, after, env, size)
    ensures OnlyEntry(after, env)
  {
    if k :| 0 <= k < |s.conv| && s.conv[k].id == env.id {
      assert after[k] == env;
    } else {
      assert after[|after| - 1] == env;
    }
  }

  lemma MoreNumbers(s: Sess, t: Sess, size: nat)
    requires Conv(s, size) && t.conv == s.conv && t.convSeq >= s.convSeq
    ensures Conv(t, size)
  {
  }

  // ---- prompts

  /** The envelope of a permission, as the companion has to receive it. */
  function PromptEnvelope(n: nat, project: string, ev: Event): Envelope
    requires ev.Permission?
  {
    Envelope("evt_" + Decimal(n), n, Perm, Truncate(project, 24), ev.session, Truncate(ev.action, 32),
             if ev.resources == [] then "" else Truncate(ev.resources[0], 256),
             if ev.always == [] then ["Approve", "Reject"]
             else ["Approve", "Always: " + Truncate(ev.always[0], 16), "Reject"], "", 0)
  }

  lemma PromptWording(h: Hub, project: string, ev: Event)
    requires ev.Permission?
    ensures Stamp(h, PermEnvelope(project, ev)) == PromptEnvelope(h.seqNo + 1, project, ev)
  {
    hide Decimal, TruncateChoices;
    assert |"Approve"| == 7 && |"Reject"| == 6 && |"Always: "| == 8;
    if ev.always == [] {
      ClippedTwo("Approve", "Reject");
    } else {
      var always := "Always: " + Truncate(ev.always[0], 24);
      assert Truncate(always, 24) == "Always: " + Truncate(ev.always[0], 16);
      ClippedThree("Approve", always, "Reject");
      assert ["Approve", "Always: " + Truncate(ev.always[0], 24), "Reject"] == ["Approve", always, "Reject"];
    }
  }

  lemma ClippedTwo(a: string, b: string)
    ensures TruncateChoices([a, b]) == [Truncate(a, 24), Truncate(b, 24)]
  {
    var list := [a, b];
    var r := TruncateChoices(list);
    assert |r| == 2;
    assert r[0] == Truncate(list[0], 24) && r[1] == Truncate(list[1], 24);
  }

  lemma ClippedThree(a: string, b: string, c: string)
    ensures TruncateChoices([a, b, c]) == [Truncate(a, 24), Truncate(b, 24), Truncate(c, 24)]
  {
    var list := [a, b, c];
    var r := TruncateChoices(list);
    assert |r| == 3;
    assert r[0] == Truncate(list[0], 24) && r[1] == Truncate(list[1], 24) && r[2] == Truncate(list[2], 24);
  }

  /** A permission is published last, and open and indexed under its identifier. */
  lemma PermissionOpens(h: Hub, up: string, project: string, ev: Event, now: int, evicted: set<string>)
    requires Sound(h) && ev.Permission?
    ensures var h' := OnPermission(h, up, project, ev, now, evicted);
      var env := PromptEnvelope(h.seqNo + 1, project, ev);
      && h'.ring != [] && h'.ring[|h'.ring| - 1] == env
      && env.id in h'.open && h'.open[env.id] == Pending(env, up, ev.request, ev.session)
      && ev.request in h'.byRequest && h'.byRequest[ev.request] == env.id
  {
    hide TrackPrompt, PermEnvelope, PromptEnvelope, Publish, Stamp, Sound;
    PromptWording(h, project, ev);
    PublishOpen(h, PermEnvelope(project, ev));
  }

  /** It badges its session and stands in its conversation. */
  lemma PermissionTalks(h: Hub, up: string, project: string, ev: Event, now: int, evicted: set<string>)
    requires Talks(h) && h.convSize > 0 && ev.Permission? && ev.session != ""
    ensures var h' := OnPermission(h, up, project, ev, now, evicted);
      var env := PromptEnvelope(h.seqNo + 1, project, ev);
      && ev.session in h'.sessions && h'.sessions[ev.session].pendingPrompt == env.id
      && NumberOf(h', ev.session) == NumberOf(h, ev.session) + 1
      && Upserted(ConvOf(h, ev.session), ConvOf(h', ev.session), env.(seqNo := NumberOf(h', ev.session)), h.convSize)
  {
    hide Publish, PermEnvelope, PromptEnvelope, Stamp, Upserted, Talks, TrackPrompt;
    PromptWording(h, project, ev);
    var h1 := Opened(h, up, project, ev);
    SameTalks(h, h1);
    PromptId(h.seqNo + 1, project, ev);
    TrackTalks(h1, up, project, ev.session, PromptEnvelope(h.seqNo + 1, project, ev), now, evicted);
  }

  lemma PromptId(n: nat, project: string, ev: Event)
    requires ev.Permission?
    ensures PromptEnvelope(n, project, ev).id == "evt_" + Decimal(n) != ""
  {
    hide Truncate;
  }

  lemma TrackTalks(h: Hub, up: string, project: string, session: string, env: Envelope, now: int, evicted: set<string>)
    requires Talks(h) && h.convSize > 0 && session != "" && env.id != ""
    ensures var h' := TrackPrompt(h, up, project, session, env, now, evicted);
      && session in h'.sessions && h'.sessions[session].pendingPrompt == env.id
      && NumberOf(h', session) == NumberOf(h, session) + 1
      && Upserted(ConvOf(h, session), ConvOf(h', session), env.(seqNo := NumberOf(h', session)), h.convSize)
  {
    hide Conv, AppendConv, Upserted, GetOrCreate, Talks;
    SameTalk(h, up, project, session, now, evicted);
    var s := GetOrCreate(h, up, project, session, now, evicted).sessions[session];
    MoreNumbers(s, s.(pendingPrompt := env.id), h.convSize);
    AppendUpserts(s.(pendingPrompt := env.id), env, h.convSize);
  }

  lemma SameTalks(h: Hub, h': Hub)
    requires Talks(h) && h'.sessions == h.sessions && h'.convSize == h.convSize
    ensures Talks(h')
  {
  }

  /** Retracted: the entry with this identifier says the prompt is gone, with what it asked still shown, and takes the
      newest number; the others stay. */
  ghost predicate SaidGone(before: seq<Envelope>, after: seq<Envelope>, id: string, session: string, n: nat) {
    && |after| == |before|
    && forall k :: 0 <= k < |before| ==>
         var was := before[k];
         after[k] == if was.id != id then was
                     else Envelope(id, n, Gone, was.project, session, was.title, was.body, [], "", 0)
  }

  lemma RetractSays(s: Sess, id: string, session: string, size: nat)
    requires Conv(s, size)
    ensures var s' := Retract(s, id, session);
      && SaidGone(s.conv, s'.conv, id, session, s'.convSeq)
      && s'.convSeq == s.convSeq + (if exists k :: 0 <= k < |s.conv| && s.conv[k].id == id then 1 else 0)
      && s'.pendingPrompt == (if s.pendingPrompt == id then "" else s.pendingPrompt)
      && s' == s.(conv := s'.conv, convSeq := s'.convSeq, pendingPrompt := s'.pendingPrompt)
  {
    hide IndexOf;
    var at := IndexOf(s.conv, id);
    if at >= 0 {
      assert s.conv[at].id == id;
    }
  }

  /** Taken off the books in its session: the entry says so, the badge goes, and whoever polls the session is woken. */
  ghost predicate Cleared(h: Hub, h': Hub, id: string, session: string) {
    && h'.sessions.Keys == h.sessions.Keys
    && (forall s :: s in h.sessions && s != session ==> h'.sessions[s] == h.sessions[s])
    && (session in h.sessions ==>
         && SaidGone(ConvOf(h, session), ConvOf(h', session), id, session, NumberOf(h', session))
         && h'.sessions[session].pendingPrompt != id
         && (h.sessions[session].pendingPrompt != id ==>
              h'.sessions[session].pendingPrompt == h.sessions[session].pendingPrompt)
         && h.sessions[session].wakers <= h'.tokens)
  }

  lemma ClearSays(h: Hub, session: string, id: string)
    requires Talks(h) && id != ""
    ensures Cleared(h, ClearPrompt(h, session, id), id, session)
  {
    hide Retract, SaidGone;
    if session in h.sessions {
      RetractSays(h.sessions[session], id, session, h.convSize);
    }
  }

  /** A request Kilo settled: its prompt is closed and off both indexes, its session says so, and a gone envelope under
      the prompt's own identifier is published last. */
  lemma RepliedRecorded(h: Hub, request: string)
    requires Sound(h) && Talks(h) && request in h.byRequest && h.byRequest[request] in h.open
    ensures var id := h.byRequest[request]; var p := h.open[id]; var h' := OnReplied(h, request);
      && id !in h'.open && request !in h'.byRequest
      && h'.ring != [] && h'.ring[|h'.ring| - 1]
           == Envelope(id, h.seqNo + 1, Gone, p.env.project, p.env.session, "", "", [], "", 0)
      && Cleared(h, h', id, p.session) && h.subs <= h'.tokens
  {
    var id := h.byRequest[request];
    var p := h.open[id];
    OpenNamed(h, id);
    hide Sound, Cleared, Talks, ClearPrompt, Stamp, Tracked, Window, Distinct;
    var h0 := h.(open := h.open - {id}, byRequest := h.byRequest - {request});
    Shrinks(h, h0);
    SameTalks(h, h0);
    ClearSays(h0, p.session, id);
    var h1 := ClearPrompt(h0, p.session, id);
    Shrinks(h0, h1);
    var gone := Envelope(id, 0, Gone, p.env.project, p.env.session, "", "", [], "", 0);
    PublishOpen(h1, gone);
    StampOf(h1, gone);
    Forwarded(h, h0, h1, Publish(h1, gone), id, p.session);
  }

  lemma OpenNamed(h: Hub, id: string)
    requires Sound(h) && id in h.open
    ensures id != ""
  {
    hide EventId, Issued;
  }

  lemma StampOf(h: Hub, env: Envelope)
    requires env.id != ""
    ensures Stamp(h, env) == env.(seqNo := h.seqNo + 1)
  {
  }

  lemma Forwarded(h: Hub, h0: Hub, h1: Hub, h2: Hub, id: string, session: string)
    requires h0.sessions == h.sessions && Cleared(h0, h1, id, session)
    requires h2.sessions == h1.sessions && h1.tokens <= h2.tokens
    ensures Cleared(h, h2, id, session)
  {
  }

  // ---- answers

  /** The last n of a queue. */
  function Newest<T>(q: seq<T>, n: nat): seq<T> {
    if |q| > n then q[|q| - n..] else q
  }

  /** An answer the hub accepts: the prompt is closed and its session says so; the last decision queued for the window
      that asked names the request and carries the answer as it was given, the newest 256 being kept; and the window's
      poller is woken. */
  lemma ReplyRecorded(h: Hub, req: ReplyRequest, nonce: string)
    requires Sound(h) && Talks(h) && ReplyResult(h, req) == Queued
    ensures var p := h.open[req.event]; var h' := Reply(h, req, nonce);
      && req.event !in h'.open && p.request !in h'.byRequest && Cleared(h, h', req.event, p.session)
      && p.upstream in h'.upstreams
      && h'.upstreams[p.upstream].decisions == Newest(h.upstreams[p.upstream].decisions +
           [Decision("dec_" + Decimal(h.decSeq + 1), nonce, p.request, p.session, "perm", req.action, req.choice,
                     req.text, p.env.expires)], 256)
      && h.upstreams[p.upstream].wakers <= h'.tokens
  {
    var p := h.open[req.event];
    OpenNamed(h, req.event);
    OpenKind(h, req.event);
    hide Sound, Cleared, Talks, ClearPrompt, Decimal;
    var h0 := h.(open := h.open - {req.event}, byRequest := h.byRequest - {p.request});
    SameTalks(h, h0);
    ClearSays(h0, p.session, req.event);
    Forwarded(h, h0, ClearPrompt(h0, p.session, req.event), Reply(h, req, nonce), req.event, p.session);
  }

  /** What a reply comes to: accepted exactly when its prompt is open and the window that asked is still there; and
      whatever it comes to, the prompt is not open afterwards. */
  lemma ReplyOutcomes(h: Hub, req: ReplyRequest, nonce: string)
    ensures ReplyResult(h, req) == Queued <==> req.event in h.open && h.open[req.event].upstream in h.upstreams
    ensures ReplyResult(h, req) == AlreadyAnswered <==> req.event !in h.open
    ensures req.event !in Reply(h, req, nonce).open
    ensures ReplyResult(h, req) != Queued ==> Reply(h, req, nonce).upstreams == h.upstreams
  {
    hide ClearPrompt, QueueDecision, DecisionFor;
  }

  lemma OpenKind(h: Hub, id: string)
    requires Sound(h) && id in h.open
    ensures KindName(h.open[id].env.kind) == "perm"
  {
    hide EventId, Issued;
  }

  /** Dictated text for a known session of a live window: the last decision queued for that window carries it. */
  lemma PromptRecorded(h: Hub, session: string, text: string, nonce: string, now: int)
    requires text != "" && session in h.sessions && h.sessions[session].upstream in h.upstreams
    ensures var u := h.sessions[session].upstream; var h' := Prompt(h, session, text, nonce, now);
      && u in h'.upstreams
      && h'.upstreams[u].decisions == Newest(h.upstreams[u].decisions +
           [Decision("dec_" + Decimal(h.decSeq + 1), nonce, "", session, "prompt", "text", 0, Truncate(text, 4096), 0)],
           256)
      && h.upstreams[u].wakers <= h'.tokens
      && session in h'.sessions && h'.sessions[session].updated >= now
  {
    hide Decimal;
  }

  // ---- the registry

  function Later(a: int, b: int): int {
    if a > b then a else b
  }

  /** A session's clock is the latest time anything reported of it, and the window that last reported it owns it. */
  lemma StatusRecorded(h: Hub, up: string, project: string, session: string, time: int, now: int, evicted: set<string>)
    requires up != "" && project != ""
    ensures var h' := OnStatus(h, up, project, session, time, now, evicted);
      && session in h'.sessions && h'.sessions[session].upstream == up && h'.sessions[session].project == project
      && h'.sessions[session].updated == Later(if session in h.sessions then h.sessions[session].updated else now, time)
      && h'.sessions[session].wakers <= h'.tokens
  {
  }

  /** A session that is merely seen moves its clock too, and wakes nobody. */
  lemma SeenRecorded(h: Hub, up: string, project: string, session: string, time: int, now: int, evicted: set<string>)
    requires up != "" && project != ""
    ensures var h' := OnSeen(h, up, project, session, time, now, evicted);
      && session in h'.sessions && h'.sessions[session].upstream == up && h'.sessions[session].project == project
      && h'.sessions[session].updated == Later(if session in h.sessions then h.sessions[session].updated else now, time)
      && h'.tokens == h.tokens
  {
  }

  /** The end of a turn and an error are published last. */
  lemma NoticesPublished(h: Hub, up: string, project: string, session: string, time: int, description: string, now: int,
                         evicted: set<string>)
    requires Sound(h)
    ensures var idle := Ingest(h, up, project, IdleEvent(session, time), now, evicted);
      && idle.ring != [] && idle.ring[|idle.ring| - 1] == Envelope("evt_" + Decimal(h.seqNo + 1), h.seqNo + 1, Idle,
           Truncate(project, 24), session, "idle", "", [], "", 0)
    ensures var err := Ingest(h, up, project, ErrorEvent(session, description), now, evicted);
      && err.ring != [] && err.ring[|err.ring| - 1] == Envelope("evt_" + Decimal(h.seqNo + 1), h.seqNo + 1, Err,
           Truncate(project, 24), session, "error", Truncate(description, 256), [], "", 0)
  {
    hide OnStatus, Sound, Publish, Truncate, Decimal;
    var h1 := OnStatus(h, up, project, session, time, now, evicted);
    Shrinks(h, h1);
    PublishOpen(h1, Blank(Idle, project, session).(title := "idle"));
    PublishOpen(h, Blank(Err, project, session).(title := "error", body := Truncate(description, 256)));
  }

  /** A window that is removed takes exactly its own sessions with it. */
  lemma RemoveDrops(h: Hub, upstream: string, session: string)
    ensures session in Remove(h, upstream).sessions <==>
      session in h.sessions && h.sessions[session].upstream != upstream
    ensures upstream !in Remove(h, upstream).upstreams
  {
  }

  /** A session that is deleted is gone, and its pollers are woken. */
  lemma DeleteDrops(h: Hub, session: string)
    ensures session !in OnDeleted(h, session).sessions
    ensures session in h.sessions ==> h.sessions[session].wakers <= OnDeleted(h, session).tokens
  {
  }

  /** The cursor a conversation poll hands out covers all it answered: polling with it at once brings nothing. */
  lemma NothingTwice(h: Hub, session: string, cursor: nat)
    requires Talks(h) && session in h.sessions
    ensures var first := ConversationOnce(h, session, cursor);
      first.Answer? && ConversationOnce(h, session, first.cursor) == Answer(first.cursor, [])
  {
    var s := h.sessions[session];
    NoneNewer(s.conv, s.convSeq);
  }

  lemma {:induction false} NoneNewer(s: seq<Envelope>, cursor: nat)
    requires forall i :: 0 <= i < |s| ==> s[i].seqNo <= cursor
    ensures Newer(s, cursor) == []
  {
    if s != [] {
      NoneNewer(s[..|s| - 1], cursor);
    }
  }

  /** A window that registers is there under the next identifier, with its project and nothing queued; the others are as
      they were. */
  lemma RegisterRecorded(h: Hub, project: string, u: string)
    ensures var h' := Register(h, project); var id := "up_" + Decimal(h.upSeq + 1);
      && id in h'.upstreams && h'.upstreams[id] == Upstream(project, [], 0, {}) && h'.upSeq == h.upSeq + 1
      && (u != id ==> (u in h'.upstreams <==> u in h.upstreams))
      && (u != id && u in h.upstreams ==> h'.upstreams[u] == h.upstreams[u])
  {
    hide Decimal;
  }
}

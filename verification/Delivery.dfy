/** An answer gets through, end to end: from the permission Kilo asked for, over the prompt the daemon opened and the
    reply it accepted, to the call the plugin makes; and dictated text the same way. */
module Delivery {
  import opened HubAnswers
  import opened HubPrompts
  import opened HubSpec
  import opened Ids
  import opened Protocol
  import opened Wrappers
  import D = HubDecisions
  import E = HubEffects
  import P = Plugin

  /** This plugin is asked the same request once more. */
  predicate AsksAgain(m: Move, p: int, request: string) {
    (m.KiloAsks? || m.KiloQuestions?) && m.p == p && m.request == request
  }

  predicate AskedOnce(moves: seq<Move>, p: int, request: string) {
    forall i :: 0 <= i < |moves| ==> !AsksAgain(moves[i], p, request)
  }

  /** As long as it is pending, the request is kept with the session Kilo named. */
  ghost predicate KeptFor(w: System, p: int, request: string, session: string) {
    && p in w.plugs
    && var pending := w.plugs[p].history.guard.pending;
      request in pending ==> pending[request] == session
  }

  lemma NextKeeps(w: System, m: Move, p: int, request: string, session: string)
    requires KeptFor(w, p, request, session) && !AsksAgain(m, p, request)
    ensures KeptFor(Next(w, m), p, request, session)
  {
    hide StepDaemon, UpstreamId, P.Remember;
  }

  lemma {:induction false} RunKeeps(w: System, moves: seq<Move>, p: int, request: string, session: string)
    requires KeptFor(w, p, request, session) && AskedOnce(moves, p, request)
    ensures KeptFor(Run(w, moves), p, request, session)
    decreases |moves|
  {
    hide KeptFor, Next;
    if moves != [] {
      NextKeeps(w, moves[0], p, request, session);
      RunKeeps(Next(w, moves[0]), moves[1..], p, request, session);
    }
  }

  /** What was queued stays on record, and plugins stay. */
  ghost predicate Onward(w: System, w': System) {
    w.daemon.all <= w'.daemon.all && w.plugs.Keys <= w'.plugs.Keys
  }

  lemma NextOnward(w: System, m: Move)
    ensures Onward(w, Next(w, m))
  {
    hide Step, D.SentBy, AskedAt, AcceptedAt, UpstreamId, P.StepGuard;
  }

  lemma {:induction false} RunOnward(w: System, moves: seq<Move>)
    ensures Onward(w, Run(w, moves))
    decreases |moves|
  {
    hide Next;
    if moves != [] {
      NextOnward(w, moves[0]);
      RunOnward(Next(w, moves[0]), moves[1..]);
    }
  }

  lemma Recorded(w: System, w': System, s: D.Sent)
    requires Onward(w, w') && s in w.daemon.all
    ensures s in w'.daemon.all
  {
    var i :| 0 <= i < |w.daemon.all| && w.daemon.all[i] == s;
    assert w'.daemon.all[i] == s;
  }

  /** The decision an accepted reply queues. */
  function Answer(h: Hub, req: ReplyRequest, nonce: string): Decision
    requires req.event in h.open
  {
    var p := h.open[req.event];
    Decision("dec_" + Decimal(h.decSeq + 1), nonce, p.request, p.session, "perm", req.action, req.choice, req.text,
             p.env.expires)
  }

  lemma OnlyTheDaemon(w: System, op: Op)
    requires op.OpReply? || op.OpPrompt?
    ensures Next(w, Elsewhere(op)) == w.(daemon := StepDaemon(w.daemon, op))
  {
    hide StepDaemon;
  }

  lemma ReplySends(w: System, req: ReplyRequest, nonce: string)
    requires Safe(w) && ReplyResult(w.daemon.hub, req) == Queued
    ensures var h := w.daemon.hub; var w' := Next(w, Elsewhere(OpReply(req, nonce)));
      && D.Sent(h.open[req.event].upstream, Answer(h, req, nonce)) in w'.daemon.all && w'.plugs == w.plugs
  {
    hide Step, Decimal, AskedAt, AcceptedAt, KindName, Safe, Next;
    SafeSound(w);
    E.OpenKind(w.daemon.hub, req.event);
    OnlyTheDaemon(w, OpReply(req, nonce));
    var h := w.daemon.hub;
    var w' := Next(w, Elsewhere(OpReply(req, nonce)));
    var sent := D.Sent(h.open[req.event].upstream, Answer(h, req, nonce));
    assert D.SentBy(h, OpReply(req, nonce)) == [sent];
    assert w'.daemon.all == w.daemon.all + [sent];
  }

  lemma SafeSound(w: System)
    requires Safe(w)
    ensures Sound(w.daemon.hub)
  {
    hide Sound, D.Ledger, Settled, Backed, Windows, Forwarded, Called;
  }

  /** A decision that answers a pending request, in time and for the first time, makes the call. */
  lemma DecisionCalls(w: System, p: int, dec: Decision, nowMs: int)
    requires p in w.plugs && w.plugs[p].upstream != "" && D.Sent(w.plugs[p].upstream, dec) in w.daemon.all
    requires dec.kind == "perm" && dec.action in {"once", "always", "reject"}
    requires dec.request in w.plugs[p].history.guard.pending && dec.nonce !in w.plugs[p].history.guard.seen
    requires dec.expires == 0 || nowMs <= dec.expires * 1000
    ensures Enabled(w, Downlinked(p, dec, nowMs))
    ensures var h, h' := w.plugs[p].history, Next(w, Downlinked(p, dec, nowMs)).plugs[p].history;
      && h'.calls == h.calls + [P.PermissionCall(h.guard.pending[dec.request], dec.request, dec.action)]
      && dec.request !in h'.guard.pending
  {
    hide P.Remember, StepDaemon;
  }

  /** From the start: Kilo asks a plugin for a permission; the daemon has a prompt open for it from one of the plugin's
      windows and accepts a reply; then, as long as the plugin still waits and polls as that window, the first delivery
      of the decision in time calls Kilo with the session that asked, the request and the answer as given. */
  lemma AnswerGetsThrough(w: System, before: seq<Move>, p: int, request: string, session: string, action: string,
                          resources: seq<string>, always: seq<string>, mid: seq<Move>, req: ReplyRequest, nonce: string,
                          late: seq<Move>, nowMs: int)
    requires Start(w) && AskedOnce(mid, p, request) && AskedOnce(late, p, request)
    requires var asks := KiloAsks(p, request, session, action, resources, always); var w1 := Run(w, before);
      var w2 := Run(Next(w1, asks), mid); var w3 := Run(Next(w2, Elsewhere(OpReply(req, nonce))), late);
      && Enabled(w1, asks) && ReplyResult(w2.daemon.hub, req) == Queued && req.action in {"once", "always", "reject"}
      && w2.daemon.hub.open[req.event].request == request
      && p in w3.plugs && w3.plugs[p].upstream == w2.daemon.hub.open[req.event].upstream != ""
      && request in w3.plugs[p].history.guard.pending && nonce !in w3.plugs[p].history.guard.seen
      && (w2.daemon.hub.open[req.event].env.expires == 0 || nowMs <= w2.daemon.hub.open[req.event].env.expires * 1000)
    ensures var asks := KiloAsks(p, request, session, action, resources, always); var w1 := Run(w, before);
      var w2 := Run(Next(w1, asks), mid); var w3 := Run(Next(w2, Elsewhere(OpReply(req, nonce))), late);
      var delivery := Downlinked(p, Answer(w2.daemon.hub, req, nonce), nowMs);
      && Enabled(w3, delivery)
      && Next(w3, delivery).plugs[p].history.calls
           == w3.plugs[p].history.calls + [P.PermissionCall(session, request, req.action)]
  {
    hide Start, Run, Next, Safe, KeptFor, Onward, Answer;
    var asks := KiloAsks(p, request, session, action, resources, always);
    var w1 := Run(w, before);
    var w1' := Next(w1, asks);
    var w2 := Run(w1', mid);
    var w2' := Next(w2, Elsewhere(OpReply(req, nonce)));
    var w3 := Run(w2', late);
    StartSafe(w);
    RunSafe(w, before);
    NextSafe(w1, asks);
    RunSafe(w1', mid);
    AsksKept(w1, asks);
    RunKeeps(w1', mid, p, request, session);
    NextKeeps(w2, Elsewhere(OpReply(req, nonce)), p, request, session);
    RunKeeps(w2', late, p, request, session);
    ReplySends(w2, req, nonce);
    RunOnward(w2', late);
    var dec := Answer(w2.daemon.hub, req, nonce);
    Recorded(w2', w3, D.Sent(w2.daemon.hub.open[req.event].upstream, dec));
    AnswerFields(w2.daemon.hub, req, nonce);
    DecisionCalls(w3, p, dec, nowMs);
    KeptSession(w3, p, request, session);
  }

  lemma AsksKept(w: System, m: Move)
    requires m.KiloAsks? && Enabled(w, m)
    ensures KeptFor(Next(w, m), m.p, m.request, m.session)
  {
  }

  lemma KeptSession(w: System, p: int, request: string, session: string)
    requires KeptFor(w, p, request, session) && request in w.plugs[p].history.guard.pending
    ensures w.plugs[p].history.guard.pending[request] == session
  {
  }

  lemma AnswerFields(h: Hub, req: ReplyRequest, nonce: string)
    requires req.event in h.open
    ensures var dec := Answer(h, req, nonce);
      && dec.kind == "perm" && dec.action == req.action && dec.request == h.open[req.event].request
      && dec.nonce == nonce && dec.expires == h.open[req.event].env.expires
  {
    hide Decimal;
  }

  /** Text dictated for a session the daemon knows reaches Kilo as a prompt in that session, clipped to 4096 bytes, with
      the first delivery to the plugin that polls as the session's window. */
  lemma DictationGetsThrough(w: System, before: seq<Move>, session: string, text: string, nonce: string, now: int,
                             late: seq<Move>, p: int, nowMs: int)
    requires Start(w) && session != "" && text != ""
    requires var w1 := Run(w, before); var w2 := Run(Next(w1, Elsewhere(OpPrompt(session, text, nonce, now))), late);
      && session in w1.daemon.hub.sessions && w1.daemon.hub.sessions[session].upstream in w1.daemon.hub.upstreams
      && p in w2.plugs && w2.plugs[p].upstream == w1.daemon.hub.sessions[session].upstream != ""
      && nonce !in w2.plugs[p].history.guard.seen
    ensures var w1 := Run(w, before); var w2 := Run(Next(w1, Elsewhere(OpPrompt(session, text, nonce, now))), late);
      var delivery := Downlinked(p, Dictated(w1.daemon.hub, session, text, nonce), nowMs);
      && Enabled(w2, delivery)
      && Next(w2, delivery).plugs[p].history.calls
           == w2.plugs[p].history.calls + [P.PromptCall(session, Truncate(text, 4096))]
  {
    hide Start, Run, Next, Onward, Dictated;
    var w1 := Run(w, before);
    var w1' := Next(w1, Elsewhere(OpPrompt(session, text, nonce, now)));
    PromptSends(w1, session, text, nonce, now);
    RunOnward(w1', late);
    Recorded(w1', Run(w1', late), D.Sent(w1.daemon.hub.sessions[session].upstream,
                                       Dictated(w1.daemon.hub, session, text, nonce)));
    DictationCalls(Run(w1', late), p, w1.daemon.hub, session, text, nonce, nowMs);
  }

  /** The decision dictated text is queued as. */
  function Dictated(h: Hub, session: string, text: string, nonce: string): Decision {
    Decision("dec_" + Decimal(h.decSeq + 1), nonce, "", session, "prompt", "text", 0, Truncate(text, 4096), 0)
  }

  lemma PromptSends(w: System, session: string, text: string, nonce: string, now: int)
    requires session in w.daemon.hub.sessions && text != ""
    requires w.daemon.hub.sessions[session].upstream in w.daemon.hub.upstreams
    ensures D.Sent(w.daemon.hub.sessions[session].upstream, Dictated(w.daemon.hub, session, text, nonce))
         in Next(w, Elsewhere(OpPrompt(session, text, nonce, now))).daemon.all
  {
    hide Step, Decimal, AskedAt, AcceptedAt, Next;
    OnlyTheDaemon(w, OpPrompt(session, text, nonce, now));
    var h, op := w.daemon.hub, OpPrompt(session, text, nonce, now);
    var sent := D.Sent(h.sessions[session].upstream, Dictated(h, session, text, nonce));
    assert D.SentBy(h, op) == [sent];
    assert Next(w, Elsewhere(op)).daemon.all == w.daemon.all + [sent];
  }

  lemma DictationCalls(w: System, p: int, h: Hub, session: string, text: string, nonce: string, nowMs: int)
    requires session != "" && text != "" && p in w.plugs && w.plugs[p].upstream != ""
    requires D.Sent(w.plugs[p].upstream, Dictated(h, session, text, nonce)) in w.daemon.all
    requires nonce !in w.plugs[p].history.guard.seen
    ensures var delivery := Downlinked(p, Dictated(h, session, text, nonce), nowMs);
      && Enabled(w, delivery)
      && Next(w, delivery).plugs[p].history.calls
           == w.plugs[p].history.calls + [P.PromptCall(session, Truncate(text, 4096))]
  {
    hide P.Remember, StepDaemon, Decimal;
  }
}

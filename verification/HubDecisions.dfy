/** Delivery of decisions to the windows of api/internal/hub/hub.go and plugin/src/index.js: one counter
    numbers every window's decisions, each window sees its own, once and in order. */
module HubDecisions {
  import opened Ids
  import opened HubSpec
  import opened Wrappers

  /** A decision and the window it was queued for. */
  datatype Sent = Sent(to: string, dec: Decision)

  /** What a step queues. */
  function SentBy(h: Hub, op: Op): seq<Sent> {
    match op
    case OpReply(req, nonce) =>
      if ReplyResult(h, req) == Queued
      then [Sent(h.open[req.event].upstream,
                 DecisionFor(h.open[req.event], req).(id := DecisionId(h.decSeq + 1), nonce := nonce))]
      else []
    case OpPrompt(session, text, nonce, _) =>
      if Truncate(text, 4096) != "" && session in h.sessions && h.sessions[session].upstream in h.upstreams
      then [Sent(h.sessions[session].upstream,
                 Decision(DecisionId(h.decSeq + 1), nonce, "", session, "prompt", "text", 0, Truncate(text, 4096), 0))]
      else []
    case _ => []
  }

  /** One window's share of everything sent. */
  function For(all: seq<Sent>, u: string): seq<Decision> {
    if all == [] then []
    else For(all[..|all| - 1], u) + (if all[|all| - 1].to == u then [all[|all| - 1].dec] else [])
  }

  function Last(log: seq<Decision>): seq<Decision> {
    if |log| > MAX_QUEUED_DECISIONS then log[|log| - MAX_QUEUED_DECISIONS..] else log
  }

  /** The number of the newest decision, 0 when there is none. */
  function Newest(log: seq<Decision>): nat {
    if log == [] then 0 else DecisionNumber(log[|log| - 1].id)
  }

  /** Decision N is the N-th ever sent. */
  ghost predicate Numbered(all: seq<Sent>) {
    forall i :: 0 <= i < |all| ==> all[i].dec.id == DecisionId(i + 1)
  }

  ghost predicate Registered(u: string, n: nat) {
    exists k: nat :: k <= n && u == UpstreamId(k)
  }

  /** A window holds the newest 256 of its own decisions and the number of the newest. */
  ghost predicate Queue(up: Upstream, log: seq<Decision>) {
    up.decisions == Last(log) && up.decCursor == Newest(log)
  }

  ghost predicate Ledger(h: Hub, all: seq<Sent>) {
    && |all| == h.decSeq && Numbered(all)
    && (forall i :: 0 <= i < |all| ==> Registered(all[i].to, h.upSeq))
    && (forall u :: u in h.upstreams ==> Registered(u, h.upSeq) && Queue(h.upstreams[u], For(all, u)))
  }

  lemma NewLedger(ringSize: int)
    ensures Ledger(New(ringSize), [])
  {
  }

  lemma {:induction false} ForSkips(all: seq<Sent>, u: string)
    requires forall i :: 0 <= i < |all| ==> all[i].to != u
    ensures For(all, u) == []
  {
    if all != [] {
      ForSkips(all[..|all| - 1], u);
    }
  }

  /** A window's numbers strictly increase and never exceed the counter. */
  lemma {:induction false} ForIncreases(all: seq<Sent>, u: string)
    requires Numbered(all)
    ensures forall i :: 0 <= i < |For(all, u)| ==> 0 < DecisionNumber(For(all, u)[i].id) <= |all|
    ensures forall i, j :: 0 <= i < j < |For(all, u)| ==>
      DecisionNumber(For(all, u)[i].id) < DecisionNumber(For(all, u)[j].id)
  {
    hide DecisionNumber, DecisionId;
    if all != [] {
      ForIncreases(all[..|all| - 1], u);
      DecisionNumberOf(|all|);
    }
  }

  /** No number is ever queued for two windows. */
  lemma {:induction false} ForDisjoint(all: seq<Sent>, u: string, v: string, i: int, j: int)
    requires Numbered(all) && u != v && 0 <= i < |For(all, u)| && 0 <= j < |For(all, v)|
    ensures DecisionNumber(For(all, u)[i].id) != DecisionNumber(For(all, v)[j].id)
  {
    hide DecisionNumber, DecisionId;
    var most := all[..|all| - 1];
    ForIncreases(most, u);
    ForIncreases(most, v);
    DecisionNumberOf(|all|);
    if i < |For(most, u)| && j < |For(most, v)| {
      ForDisjoint(most, u, v, i, j);
    }
  }

  lemma NewWindow(h: Hub, all: seq<Sent>)
    requires Ledger(h, all)
    ensures For(all, UpstreamId(h.upSeq + 1)) == []
    ensures forall u :: Registered(u, h.upSeq) ==> Registered(u, h.upSeq + 1) && u != UpstreamId(h.upSeq + 1)
    ensures Registered(UpstreamId(h.upSeq + 1), h.upSeq + 1)
  {
    hide UpstreamId, Queue;
    forall u | Registered(u, h.upSeq) ensures Registered(u, h.upSeq + 1) && u != UpstreamId(h.upSeq + 1) {
      var k: nat :| k <= h.upSeq && u == UpstreamId(k);
      UpstreamIdInjective(k, h.upSeq + 1);
    }
    ForSkips(all, UpstreamId(h.upSeq + 1));
  }

  lemma UpstreamIdInjective(m: nat, n: nat)
    ensures UpstreamId(m) == UpstreamId(n) ==> m == n
  {
    ScanDecimal(m);
    ScanDecimal(n);
    assert UpstreamId(m)[3..] == Decimal(m) && UpstreamId(n)[3..] == Decimal(n);
  }

  ghost predicate SameQueue(up: Upstream, up': Upstream) {
    up'.decisions == up.decisions && up'.decCursor == up.decCursor
  }

  lemma SameLedger(h: Hub, h': Hub, all: seq<Sent>)
    requires Ledger(h, all) && h'.decSeq == h.decSeq && h'.upSeq == h.upSeq
    requires forall u :: u in h'.upstreams ==> u in h.upstreams && SameQueue(h.upstreams[u], h'.upstreams[u])
    ensures Ledger(h', all)
  {
    hide Registered, Last, Newest, Numbered;
  }

  lemma LastSnoc(log: seq<Decision>, dec: Decision)
    ensures var q := Last(log) + [dec];
      Last(log + [dec]) == if |q| > MAX_QUEUED_DECISIONS then q[|q| - MAX_QUEUED_DECISIONS..] else q
  {
    if |log| > MAX_QUEUED_DECISIONS {
      assert (Last(log) + [dec])[1..] == log[|log| - MAX_QUEUED_DECISIONS + 1..] + [dec];
    }
  }

  lemma EnqueueQueue(up: Upstream, log: seq<Decision>, dec: Decision, n: nat)
    requires Queue(up, log) && dec.id == DecisionId(n)
    ensures Queue(Enqueue(up, dec, n), log + [dec])
  {
    hide Last, DecisionNumber, DecisionId;
    LastSnoc(log, dec);
    DecisionNumberOf(n);
  }

  lemma QueueSends(h: Hub, all: seq<Sent>, u: string, dec: Decision, nonce: string)
    requires Ledger(h, all) && u in h.upstreams
    ensures Ledger(QueueDecision(h, u, dec, nonce),
                   all + [Sent(u, dec.(id := DecisionId(h.decSeq + 1), nonce := nonce))])
  {
    hide Registered, Queue, Enqueue, DecisionId, For;
    var sent := dec.(id := DecisionId(h.decSeq + 1), nonce := nonce);
    EnqueueQueue(h.upstreams[u], For(all, u), sent, h.decSeq + 1);
    forall v | v in h.upstreams
      ensures For(all + [Sent(u, sent)], v) == if v == u then For(all, v) + [sent] else For(all, v) {
      ForSnoc(all, Sent(u, sent), v);
    }
  }

  lemma ForSnoc(all: seq<Sent>, s: Sent, u: string)
    ensures For(all + [s], u) == if s.to == u then For(all, u) + [s.dec] else For(all, u)
  {
    assert (all + [s])[..|all|] == all;
    assert For(all, u) + [] == For(all, u);
  }

  /** Every step keeps the ledger: the counter numbers what it sends, and each window holds its newest 256. */
  lemma StepLedger(h: Hub, op: Op, all: seq<Sent>)
    requires Ledger(h, all)
    ensures Ledger(Step(h, op), all + SentBy(h, op))
  {
    hide Ledger, Registered, Queue, ClearPrompt, Ingest, QueueDecision, Publish, DecisionFor, Truncate;
    assert all + [] == all;
    match op
    case OpReply(req, nonce) =>
      if req.event in h.open {
        SameLedger(h, Settle(h, req.event), all);
        if ReplyResult(h, req) == Queued {
          QueueSends(Settle(h, req.event), all, h.open[req.event].upstream, DecisionFor(h.open[req.event], req), nonce);
        }
      }
    case OpPrompt(session, text, nonce, now) => PromptLedger(h, session, text, nonce, now, all);
    case OpRegister(project) => RegisterLedger(h, project, all);
    case OpIngest(up, project, ev, now, evicted) => SameLedger(h, Step(h, op), all);
    case _ => SameLedger(h, Step(h, op), all);
  }

  lemma RegisterLedger(h: Hub, project: string, all: seq<Sent>)
    requires Ledger(h, all)
    ensures Ledger(Register(h, project), all)
  {
    hide UpstreamId, Registered;
    NewWindow(h, all);
  }

  lemma PromptLedger(h: Hub, session: string, text: string, nonce: string, now: int, all: seq<Sent>)
    requires Ledger(h, all)
    ensures Ledger(Prompt(h, session, text, nonce, now), all + SentBy(h, OpPrompt(session, text, nonce, now)))
  {
    hide Ledger, QueueDecision, Truncate;
    assert all + [] == all;
    if SentBy(h, OpPrompt(session, text, nonce, now)) == [] {
      SameLedger(h, h, all);
    } else {
      var u := h.sessions[session].upstream;
      var dec := Decision("", "", "", session, "prompt", "text", 0, Truncate(text, 4096), 0);
      var sent := all + [Sent(u, dec.(id := DecisionId(h.decSeq + 1), nonce := nonce))];
      QueueSends(h, all, u, dec, nonce);
      SameLedger(QueueDecision(h, u, dec, nonce), Prompt(h, session, text, nonce, now), sent);
    }
  }

  /** A window that is gone never comes back under the same identifier, and a new one gets an unused one. */
  lemma WindowsNeverReturn(h: Hub, op: Op, all: seq<Sent>, u: string)
    requires Ledger(h, all) && Registered(u, h.upSeq)
    ensures u !in h.upstreams ==> u !in Step(h, op).upstreams
    ensures UpstreamId(h.upSeq + 1) !in h.upstreams
  {
    hide UpstreamId, Registered, QueueDecision, Queue;
    NewWindow(h, all);
    match op
    case OpReply(req, nonce) => ReplyWindows(h, req, nonce);
    case OpPrompt(session, text, nonce, now) => PromptWindows(h, session, text, nonce, now);
    case _ =>
  }

  lemma ReplyWindows(h: Hub, req: ReplyRequest, nonce: string)
    ensures Reply(h, req, nonce).upstreams.Keys == h.upstreams.Keys
  {
    hide ClearPrompt, DecisionId, Enqueue;
  }

  lemma PromptWindows(h: Hub, session: string, text: string, nonce: string, now: int)
    ensures Prompt(h, session, text, nonce, now).upstreams.Keys == h.upstreams.Keys
  {
    hide DecisionId, Enqueue;
  }

  // ---- the downlink

  lemma {:induction false} NewerOfIncreasing(q: seq<Decision>, cursor: nat, k: nat)
    requires k <= |q|
    requires forall i :: 0 <= i < |q| ==> (DecisionNumber(q[i].id) > cursor <==> i >= k)
    ensures NewerDecisions(q, cursor) == q[k..]
  {
    hide DecisionNumber;
    if q != [] {
      var most := q[..|q| - 1];
      NewerOfIncreasing(most, cursor, if k < |q| then k else |q| - 1);
      assert k < |q| ==> q[k..] == most[k..] + [q[|q| - 1]];
    }
  }

  ghost predicate Increasing(log: seq<Decision>) {
    && (forall i :: 0 <= i < |log| ==> 0 < DecisionNumber(log[i].id))
    && (forall i, j :: 0 <= i < j < |log| ==> DecisionNumber(log[i].id) < DecisionNumber(log[j].id))
  }

  /** Position k is where the numbers pass the newest of the first k. */
  lemma AfterNewest(log: seq<Decision>, k: nat, i: nat)
    requires Increasing(log) && k <= |log| && i < |log|
    ensures DecisionNumber(log[i].id) > Newest(log[..k]) <==> i >= k
  {
    hide DecisionNumber;
    if k > 0 {
      assert log[..k][k - 1] == log[k - 1];
    }
  }

  lemma NewerOfLast(log: seq<Decision>, k: nat)
    requires Increasing(log) && k <= |log|
    ensures var dropped := |log| - |Last(log)|;
      NewerDecisions(Last(log), Newest(log[..k])) == log[if k < dropped then dropped else k..]
  {
    hide DecisionNumber, NewerDecisions, Newest, Increasing;
    var q := Last(log);
    var dropped := |log| - |q|;
    var from := if k < dropped then 0 else k - dropped;
    forall i | 0 <= i < |q| ensures DecisionNumber(q[i].id) > Newest(log[..k]) <==> i >= from {
      assert q[i] == log[dropped + i];
      AfterNewest(log, k, dropped + i);
    }
    NewerOfIncreasing(q, Newest(log[..k]), from);
    assert q[from..] == log[dropped + from..];
  }

  /** A plugin that has taken its first k decisions and echoes the cursor it was given is answered with the
      rest of them, short only of those pushed out by the 256 newest. */
  lemma PollExact(h: Hub, all: seq<Sent>, u: string, k: nat)
    requires Ledger(h, all) && u in h.upstreams && k <= |For(all, u)|
    ensures var log := For(all, u); var dropped := |log| - |Last(log)|;
      PollDecisionsOnce(h, u, Newest(log[..k])) == Answer(Newest(log), log[if k < dropped then dropped else k..])
  {
    hide DecisionNumber, NewerDecisions, Registered, Newest, For, Last;
    ForIncreases(all, u);
    NewerOfLast(For(all, u), k);
  }

  /** The polling side of a plugin: a cursor of 0 in the answer leaves its own. */
  datatype Applier = Applier(cursor: nat, got: seq<Decision>, gone: bool)

  function PollOf(r: Applier, h: Hub, u: string): Applier {
    match PollDecisionsOnce(h, u, r.cursor)
    case Refused => r.(gone := true)
    case Answer(cursor, items) => Applier(if cursor == 0 then r.cursor else cursor, r.got + items, r.gone)
  }

  /** Steps of the hub interleaved with polls of the plugin of one window; a lost answer changes nothing. */
  datatype Move = Hubs(op: Op) | PollDelivered | PollLost

  datatype World = World(hub: Hub, all: seq<Sent>, plugin: Applier)

  function Deliver(w: World, u: string, moves: seq<Move>): World
    decreases |moves|
  {
    if moves == [] || w.plugin.gone then w
    else Deliver(DeliverOne(w, u, moves[0]), u, moves[1..])
  }

  function DeliverOne(w: World, u: string, m: Move): World {
    match m
    case Hubs(op) => World(Step(w.hub, op), w.all + SentBy(w.hub, op), w.plugin)
    case PollDelivered => w.(plugin := PollOf(w.plugin, w.hub, u))
    case PollLost => w
  }

  /** Never more than 256 of this window's decisions wait between two delivered polls. */
  ghost predicate KeptUp(w: World, u: string, moves: seq<Move>)
    decreases |moves|
  {
    moves == [] || w.plugin.gone ||
    ((moves[0].PollDelivered? ==> |For(w.all, u)| <= |w.plugin.got| + MAX_QUEUED_DECISIONS)
     && KeptUp(DeliverOne(w, u, moves[0]), u, moves[1..]))
  }

  /** The plugin holds exactly the first decisions sent to its window, and the number of the last of them. */
  ghost predicate InStep(w: World, u: string) {
    && Ledger(w.hub, w.all)
    && |w.plugin.got| <= |For(w.all, u)| && w.plugin.got == For(w.all, u)[..|w.plugin.got|]
    && w.plugin.cursor == Newest(w.plugin.got)
  }

  lemma {:induction false} ForGrows(all: seq<Sent>, more: seq<Sent>, u: string)
    ensures For(all, u) <= For(all + more, u)
  {
    if more == [] {
      assert all + more == all;
    } else {
      ForGrows(all, more[..|more| - 1], u);
      assert (all + more)[..|all + more| - 1] == all + more[..|more| - 1];
    }
  }

  /** A delivered poll keeps the plugin in step if and only if at most 256 decisions were waiting. */
  lemma DeliveredInStep(w: World, u: string)
    requires InStep(w, u) && u in w.hub.upstreams
    ensures var w' := DeliverOne(w, u, PollDelivered);
      && (InStep(w', u) <==> |For(w.all, u)| <= |w.plugin.got| + MAX_QUEUED_DECISIONS)
      && (InStep(w', u) ==> w'.plugin.got == For(w.all, u))
  {
    hide Ledger, PollDecisionsOnce, DecisionNumber, For, Newest;
    var log := For(w.all, u);
    var k := |w.plugin.got|;
    PollExact(w.hub, w.all, u, k);
    NewestZero(w.hub, w.all, u);
    assert log[..|log|] == log;
    Spliced(log, k);
  }

  lemma DistinctEntries(log: seq<Decision>, i: nat, j: nat)
    requires Increasing(log) && i < j < |log|
    ensures log[i] != log[j]
  {
    hide DecisionNumber;
    assert DecisionNumber(log[i].id) < DecisionNumber(log[j].id);
  }

  /** A prefix followed by what the poll returns is a prefix again exactly when nothing between was dropped. */
  lemma Spliced(log: seq<Decision>, k: nat)
    requires Increasing(log) && k <= |log|
    ensures var dropped := |log| - |Last(log)|; var got := log[..k] + log[if k < dropped then dropped else k..];
      && (|log| <= k + MAX_QUEUED_DECISIONS ==> got == log)
      && (got <= log ==> |log| <= k + MAX_QUEUED_DECISIONS)
  {
    hide DecisionNumber, Increasing;
    var dropped := |log| - |Last(log)|;
    var got := log[..k] + log[if k < dropped then dropped else k..];
    if k < dropped {
      DistinctEntries(log, k, dropped);
      assert got[k] == log[dropped];
    } else {
      assert got == log;
    }
  }

  lemma NewestZero(h: Hub, all: seq<Sent>, u: string)
    requires Ledger(h, all)
    ensures Increasing(For(all, u)) && (Newest(For(all, u)) == 0 <==> For(all, u) == [])
  {
    hide DecisionNumber;
    ForIncreases(all, u);
  }

  /** Exactly once and in order, and never another window's: however sends, lost answers and other windows'
      traffic interleave, what a plugin that keeps up has received is a prefix of what was sent to it. */
  lemma {:induction false} DeliveredOnce(w: World, u: string, moves: seq<Move>)
    requires InStep(w, u) && KeptUp(w, u, moves)
    ensures InStep(Deliver(w, u, moves), u)
    decreases |moves|
  {
    hide Ledger, Last, Newest, SentBy, Step, PollDecisionsOnce;
    if moves != [] && !w.plugin.gone {
      match moves[0] {
        case Hubs(op) =>
          StepLedger(w.hub, op, w.all);
          ForGrows(w.all, SentBy(w.hub, op), u);
        case PollDelivered =>
          if u in w.hub.upstreams {
            DeliveredInStep(w, u);
          } else {
            RefusedGone(w, u);
          }
        case PollLost =>
      }
      DeliveredOnce(DeliverOne(w, u, moves[0]), u, moves[1..]);
    }
  }

  lemma RefusedGone(w: World, u: string)
    requires u !in w.hub.upstreams
    ensures DeliverOne(w, u, PollDelivered) == w.(plugin := w.plugin.(gone := true))
  {
  }
}

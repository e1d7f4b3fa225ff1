/** The prompt and decision protocol end to end: the hub of api/internal/hub/hub.go, any number of plugins
    (plugin/src/index.js) and replies from anywhere, over a network that loses and repeats messages. */
module Protocol {
  import opened Ids
  import opened HubSpec
  import opened Wrappers
  import opened HubPrompts
  import opened HubAnswers
  import opened HubDecisions
  import P = Plugin

  /** The hub with everything it ever queued, every prompt it was asked and every answer it accepted. */
  datatype Daemon = Daemon(hub: Hub, all: seq<Sent>, asks: seq<Ask>, accepted: seq<Accepted>)

  function StepDaemon(d: Daemon, op: Op): Daemon {
    Daemon(Step(d.hub, op), d.all + SentBy(d.hub, op), d.asks + AskedAt(d.hub, op), d.accepted + AcceptedAt(d.hub, op))
  }

  /** An accepted answer stands behind a decision: same window, same request, same action. */
  ghost predicate Behind(a: Accepted, s: Sent) {
    a.ask.upstream == s.to && a.ask.request == s.dec.request && a.action == s.dec.action
  }

  /** Every decision that is not dictated text has an accepted answer behind it. */
  ghost predicate Backed(d: Daemon) {
    forall i :: 0 <= i < |d.all| && d.all[i].dec.kind != "prompt" ==>
      exists k :: 0 <= k < |d.accepted| && Behind(d.accepted[k], d.all[i])
  }

  /** What was answered is closed for good, and what is open was asked. */
  ghost predicate Settled(d: Daemon) {
    && Once(d.accepted, d.asks)
    && (forall k :: 0 <= k < |d.accepted| ==> Closed(d.hub, d.accepted[k].ask.event))
    && (forall id :: id in d.hub.open ==> AskOf(d.hub, id) in d.asks)
  }

  ghost predicate Closed(h: Hub, id: string) {
    id !in h.open && Issued(id, h.seqNo)
  }

  ghost predicate DaemonSafe(d: Daemon) {
    Sound(d.hub) && Ledger(d.hub, d.all) && Settled(d) && Backed(d)
  }

  lemma StaysClosed(h: Hub, op: Op, id: string)
    requires Sound(h) && Closed(h, id)
    ensures Closed(Step(h, op), id)
  {
    hide Sound, Issued, Step, AskedAt;
    IssuedKept(h, op, id);
    if id in Step(h, op).open {
      StepOpens(h, op, id);
    }
  }

  lemma OnceSnoc(acc: seq<Accepted>, asks: seq<Ask>, more: seq<Ask>, a: Accepted)
    requires Once(acc, asks) && a.ask in asks && forall k :: 0 <= k < |acc| ==> acc[k].ask.event != a.ask.event
    ensures Once(acc + [a], asks + more)
  {
  }

  lemma OnceMore(acc: seq<Accepted>, asks: seq<Ask>, more: seq<Ask>)
    requires Once(acc, asks)
    ensures Once(acc, asks + more)
  {
  }

  lemma StepSettled(d: Daemon, op: Op)
    requires Sound(d.hub) && Numbers(op) && Settled(d)
    ensures Settled(StepDaemon(d, op))
  {
    hide Sound, Step, AskedAt, Once, Closed;
    var d' := StepDaemon(d, op);
    forall id | id in d'.hub.open ensures AskOf(d'.hub, id) in d'.asks {
      StepOpens(d.hub, op, id);
    }
    forall k | 0 <= k < |d.accepted| ensures Closed(d'.hub, d.accepted[k].ask.event) {
      StaysClosed(d.hub, op, d.accepted[k].ask.event);
    }
    if AcceptedAt(d.hub, op) == [] {
      assert d'.accepted == d.accepted;
      OnceMore(d.accepted, d.asks, AskedAt(d.hub, op));
    } else {
      var a := AcceptedAt(d.hub, op)[0];
      AcceptedGone(d.hub, op);
      AcceptedCloses(d.hub, op);
      forall k | 0 <= k < |d.accepted| ensures d.accepted[k].ask.event != a.ask.event {
        ClosedNotOpen(d.hub, d.accepted[k].ask.event);
      }
      OnceSnoc(d.accepted, d.asks, AskedAt(d.hub, op), a);
    }
  }

  lemma ClosedNotOpen(h: Hub, id: string)
    requires Closed(h, id)
    ensures id !in h.open
  {
  }

  lemma AcceptedCloses(h: Hub, op: Op)
    requires Sound(h) && AcceptedAt(h, op) != []
    ensures var a := AcceptedAt(h, op)[0];
      AcceptedAt(h, op) == [a] && a.ask.event in h.open && a.ask == AskOf(h, a.ask.event) &&
      Closed(Step(h, op), a.ask.event)
  {
    hide Sound, Issued, Step;
    AcceptedGone(h, op);
  }

  /** The one decision a step queues for an accepted answer has that answer behind it. */
  lemma StepBacked(d: Daemon, op: Op)
    requires Backed(d)
    ensures Backed(StepDaemon(d, op))
  {
    hide Step, DecisionId, Truncate, AskedAt;
    var d' := StepDaemon(d, op);
    forall i | 0 <= i < |d'.all| && d'.all[i].dec.kind != "prompt"
      ensures exists k :: 0 <= k < |d'.accepted| && Behind(d'.accepted[k], d'.all[i])
    {
      if i < |d.all| {
        var k :| 0 <= k < |d.accepted| && Behind(d.accepted[k], d.all[i]);
        assert Behind(d'.accepted[k], d'.all[i]);
      } else {
        assert Behind(d'.accepted[|d.accepted|], d'.all[i]);
      }
    }
  }

  lemma StepDaemonSafe(d: Daemon, op: Op)
    requires DaemonSafe(d) && Numbers(op)
    ensures DaemonSafe(StepDaemon(d, op))
  {
    hide Sound, Ledger, Settled, Backed, Step, SentBy, AskedAt, AcceptedAt;
    StepSound(d.hub, op);
    StepLedger(d.hub, op, d.all);
    StepSettled(d, op);
    StepBacked(d, op);
  }

  lemma NewDaemonSafe(ringSize: int)
    ensures DaemonSafe(Daemon(New(ringSize), [], [], []))
  {
    NewSound(ringSize);
    NewLedger(ringSize);
  }

  // ---- with its plugins

  datatype Plug = Plug(upstream: string, history: P.History)

  /** An event a plugin has put on its uplink; it may be posted never, once or again. */
  datatype Forward = Forward(from: int, ev: Event)

  datatype System = System(daemon: Daemon, plugs: map<int, Plug>, owner: map<string, int>, forwarded: set<Forward>)

  /** `KiloAsks` is a permission and `KiloQuestions` a question, which the plugin guards and reports all the same.
      `Uplinked` is the delivery of one forwarded event under a window of its plugin, `Downlinked` of one decision
      ever queued for the window the plugin polls as; both may happen again and in any order. `Elsewhere` is
      everything else that happens to the daemon: replies, dictated text, windows dropping, polls. */
  datatype Move =
    | Hello(p: int, project: string)
    | Forget(p: int)
    | KiloAsks(p: int, request: string, session: string, action: string, resources: seq<string>, always: seq<string>)
    | KiloQuestions(p: int, request: string, session: string)
    | KiloAnswered(p: int, request: string)
    | Reports(p: int, ev: Event)
    | Uplinked(window: string, project: string, ev: Event, now: int, evicted: set<string>)
    | Downlinked(p: int, dec: Decision, nowMs: int)
    | Elsewhere(op: Op)

  predicate Enabled(w: System, m: Move) {
    match m
    case Hello(p, _) => p in w.plugs
    case Forget(p) => p in w.plugs
    case KiloAsks(p, _, _, _, _, _) => p in w.plugs && w.plugs[p].upstream != ""
    case KiloQuestions(p, _, _) => p in w.plugs && w.plugs[p].upstream != ""
    case KiloAnswered(p, _) => p in w.plugs && w.plugs[p].upstream != ""
    case Reports(p, ev) => p in w.plugs && w.plugs[p].upstream != "" && !ev.Permission?
    case Uplinked(window, _, ev, _, _) => window in w.owner && Forward(w.owner[window], ev) in w.forwarded
    case Downlinked(p, dec, _) =>
      p in w.plugs && w.plugs[p].upstream != "" && Sent(w.plugs[p].upstream, dec) in w.daemon.all
    case Elsewhere(op) => !op.OpIngest? && !op.OpRegister? && Numbers(op)
  }

  function Guarded(w: System, p: int, s: P.Step): map<int, Plug>
    requires p in w.plugs
  {
    w.plugs[p := w.plugs[p].(history := P.StepGuard(w.plugs[p].history, s))]
  }

  function Next(w: System, m: Move): System {
    if !Enabled(w, m) then w
    else
      match m
      case Hello(p, project) =>
        var id := UpstreamId(w.daemon.hub.upSeq + 1);
        System(StepDaemon(w.daemon, OpRegister(project)), w.plugs[p := w.plugs[p].(upstream := id)], w.owner[id := p],
               w.forwarded)
      case Forget(p) => w.(plugs := w.plugs[p := w.plugs[p].(upstream := "")])
      case KiloAsks(p, request, session, action, resources, always) =>
        w.(plugs := Guarded(w, p, P.Asked(request, session)),
           forwarded := w.forwarded + {Forward(p, Permission(request, session, action, resources, always))})
      case KiloQuestions(p, request, session) =>
        w.(plugs := Guarded(w, p, P.Asked(request, session)), forwarded := w.forwarded + {Forward(p, Other)})
      case KiloAnswered(p, request) =>
        w.(plugs := Guarded(w, p, P.Answered(request)), forwarded := w.forwarded + {Forward(p, Replied(request))})
      case Reports(p, ev) => w.(forwarded := w.forwarded + {Forward(p, ev)})
      case Uplinked(window, project, ev, now, evicted) =>
        w.(daemon := StepDaemon(w.daemon, OpIngest(window, project, ev, now, evicted)))
      case Downlinked(p, dec, nowMs) => w.(plugs := Guarded(w, p, P.Decided(dec, nowMs)))
      case Elsewhere(op) => w.(daemon := StepDaemon(w.daemon, op))
  }

  /** A window belongs to the one plugin that registered it. */
  ghost predicate Windows(w: System) {
    && (forall p :: p in w.plugs && w.plugs[p].upstream != "" ==>
          w.plugs[p].upstream in w.owner && w.owner[w.plugs[p].upstream] == p)
    && (forall u :: u in w.owner ==> w.owner[u] in w.plugs && Registered(u, w.daemon.hub.upSeq))
  }

  /** This plugin was asked the permission and forwarded it. */
  ghost predicate AskedBy(w: System, p: int, request: string) {
    && p in w.plugs && request in w.plugs[p].history.asked
    && exists f :: f in w.forwarded && f.from == p && f.ev.Permission? && f.ev.request == request
  }

  /** Every prompt comes from a plugin that was asked. */
  ghost predicate Forwarded(w: System) {
    && (forall f :: f in w.forwarded && f.ev.Permission? ==> AskedBy(w, f.from, f.ev.request))
    && (forall a :: a in w.daemon.asks ==> a.upstream in w.owner && AskedBy(w, w.owner[a.upstream], a.request))
  }

  /** An answer the daemon accepted, to a prompt of one of this plugin's windows, for this request. */
  ghost predicate AnswerTo(w: System, p: int, request: string, a: Accepted) {
    a in w.daemon.accepted && a.ask.upstream in w.owner && w.owner[a.ask.upstream] == p && a.ask.request == request
  }

  /** A call carries out an accepted answer. */
  ghost predicate CarriesOut(w: System, p: int, c: P.Call) {
    c.PermissionCall? ==> exists a :: AnswerTo(w, p, c.request, a) && a.action == c.action
  }

  ghost predicate Called(w: System) {
    forall p :: p in w.plugs ==>
      && (forall i :: 0 <= i < |w.plugs[p].history.calls| ==> CarriesOut(w, p, w.plugs[p].history.calls[i]))
      && (forall r :: P.Paid(w.plugs[p].history, r))
  }

  ghost predicate Safe(w: System) {
    DaemonSafe(w.daemon) && Windows(w) && Forwarded(w) && Called(w)
  }

  /** The daemon only ever accepts more, and windows keep their owner. */
  ghost predicate Grows(w: System, w': System) {
    && w.daemon.accepted <= w'.daemon.accepted
    && (forall u :: u in w.owner ==> u in w'.owner && w'.owner[u] == w.owner[u])
  }

  lemma StillCarriesOut(w: System, w': System, p: int, c: P.Call)
    requires CarriesOut(w, p, c) && Grows(w, w')
    ensures CarriesOut(w', p, c)
  {
    if c.PermissionCall? {
      var a :| AnswerTo(w, p, c.request, a) && a.action == c.action;
      assert AnswerTo(w', p, c.request, a);
    }
  }

  lemma SameCalls(w: System, w': System)
    requires Called(w) && Grows(w, w') && w'.plugs.Keys == w.plugs.Keys
    requires forall p :: p in w.plugs ==> w'.plugs[p].history == w.plugs[p].history
    ensures Called(w')
  {
    hide CarriesOut, Grows, P.Paid;
    forall p, i | p in w'.plugs && 0 <= i < |w'.plugs[p].history.calls|
      ensures CarriesOut(w', p, w'.plugs[p].history.calls[i])
    {
      StillCarriesOut(w, w', p, w.plugs[p].history.calls[i]);
    }
  }

  /** A step of one guard that makes no call. */
  lemma GuardedCalls(w: System, w': System, p: int, s: P.Step)
    requires Called(w) && Grows(w, w') && p in w.plugs && w'.plugs == Guarded(w, p, s)
    requires forall i :: 0 <= i < |w'.plugs[p].history.calls| ==> CarriesOut(w', p, w'.plugs[p].history.calls[i])
    ensures Called(w')
  {
    hide CarriesOut, Grows, P.Paid, P.StepGuard;
    forall r ensures P.Paid(w'.plugs[p].history, r) {
      P.StepPaid(w.plugs[p].history, s, r);
    }
    forall q, i | q in w'.plugs && q != p && 0 <= i < |w'.plugs[q].history.calls|
      ensures CarriesOut(w', q, w'.plugs[q].history.calls[i])
    {
      StillCarriesOut(w, w', q, w.plugs[q].history.calls[i]);
    }
  }

  lemma SameUpSeq(h: Hub, op: Op)
    requires !op.OpRegister?
    ensures Step(h, op).upSeq == h.upSeq
  {
    hide Ingest, Reply, Prompt, Publish, Subscribe, Unsubscribe;
  }

  /** A step of the daemon that registers no window. */
  lemma DaemonMoves(w: System, op: Op)
    requires Safe(w) && Numbers(op) && !op.OpRegister?
    requires forall a :: a in AskedAt(w.daemon.hub, op) ==>
      a.upstream in w.owner && AskedBy(w, w.owner[a.upstream], a.request)
    ensures Safe(w.(daemon := StepDaemon(w.daemon, op)))
  {
    hide DaemonSafe, Called, Step, SentBy, AskedAt, AcceptedAt, Registered;
    var w' := w.(daemon := StepDaemon(w.daemon, op));
    StepDaemonSafe(w.daemon, op);
    SameUpSeq(w.daemon.hub, op);
    SameCalls(w, w');
    assert forall p, r :: AskedBy(w, p, r) ==> AskedBy(w', p, r);
  }

  lemma UplinkedSafe(w: System, m: Move)
    requires Safe(w) && Enabled(w, m) && m.Uplinked?
    ensures Safe(Next(w, m))
  {
    hide DaemonSafe, Called, Step, StepDaemon;
    var op := OpIngest(m.window, m.project, m.ev, m.now, m.evicted);
    if m.ev.Permission? {
      assert AskedBy(w, w.owner[m.window], m.ev.request);
    }
    DaemonMoves(w, op);
  }

  lemma ElsewhereSafe(w: System, m: Move)
    requires Safe(w) && Enabled(w, m) && m.Elsewhere?
    ensures Safe(Next(w, m))
  {
    hide Safe, StepDaemon;
    DaemonMoves(w, m.op);
  }

  lemma HelloWindows(w: System, m: Move)
    requires Safe(w) && Enabled(w, m) && m.Hello?
    ensures Windows(Next(w, m)) && Grows(w, Next(w, m))
  {
    hide DaemonSafe, Called, Ledger, Registered, UpstreamId, Forwarded;
    LedgerOf(w.daemon);
    NewWindow(w.daemon.hub, w.daemon.all);
    assert Next(w, m).daemon.accepted == w.daemon.accepted;
  }

  lemma HelloForwarded(w: System, m: Move)
    requires Forwarded(w) && Enabled(w, m) && m.Hello? && Grows(w, Next(w, m))
    ensures Forwarded(Next(w, m)) && Next(w, m).plugs.Keys == w.plugs.Keys
    ensures forall p :: p in w.plugs ==> Next(w, m).plugs[p].history == w.plugs[p].history
  {
    hide UpstreamId, Step, SentBy;
    var w' := Next(w, m);
    assert w'.daemon.asks == w.daemon.asks;
    assert forall p, r :: AskedBy(w, p, r) ==> AskedBy(w', p, r);
  }

  lemma HelloDaemon(w: System, m: Move)
    requires DaemonSafe(w.daemon) && Enabled(w, m) && m.Hello?
    ensures DaemonSafe(Next(w, m).daemon)
  {
    StepDaemonSafe(w.daemon, OpRegister(m.project));
    hide DaemonSafe, UpstreamId, StepDaemon;
  }

  lemma HelloSafe(w: System, m: Move)
    requires Safe(w) && Enabled(w, m) && m.Hello?
    ensures Safe(Next(w, m))
  {
    HelloWindows(w, m);
    HelloDaemon(w, m);
    HelloForwarded(w, m);
    hide DaemonSafe, Called, Windows, Forwarded, Next, Grows;
    SameCalls(w, Next(w, m));
  }

  lemma LedgerOf(d: Daemon)
    requires DaemonSafe(d)
    ensures Ledger(d.hub, d.all) && Backed(d)
  {
  }

  lemma ForgetSafe(w: System, m: Move)
    requires Safe(w) && Enabled(w, m) && (m.Forget? || m.Reports?)
    ensures Safe(Next(w, m))
  {
    hide DaemonSafe, Called, Registered;
    var w' := Next(w, m);
    SameCalls(w, w');
    assert forall p, r :: AskedBy(w, p, r) ==> AskedBy(w', p, r);
  }

  lemma KiloSafe(w: System, m: Move)
    requires Safe(w) && Enabled(w, m) && (m.KiloAsks? || m.KiloQuestions? || m.KiloAnswered?)
    ensures Safe(Next(w, m))
  {
    hide DaemonSafe, Called, Registered, CarriesOut;
    var w' := Next(w, m);
    var s := if !m.KiloAnswered? then P.Asked(m.request, m.session) else P.Answered(m.request);
    assert w'.plugs == Guarded(w, m.p, s);
    assert forall p, r :: AskedBy(w, p, r) ==> AskedBy(w', p, r);
    StillCalled(w, w', m.p);
    GuardedCalls(w, w', m.p, s);
  }

  lemma StillCalled(w: System, w': System, p: int)
    requires Called(w) && Grows(w, w') && p in w.plugs && p in w'.plugs
    requires w'.plugs[p].history.calls == w.plugs[p].history.calls
    ensures forall i :: 0 <= i < |w'.plugs[p].history.calls| ==> CarriesOut(w', p, w'.plugs[p].history.calls[i])
  {
    hide CarriesOut, Grows, P.Paid;
    forall i | 0 <= i < |w'.plugs[p].history.calls| ensures CarriesOut(w', p, w'.plugs[p].history.calls[i]) {
      StillCarriesOut(w, w', p, w.plugs[p].history.calls[i]);
    }
  }

  /** The call a decision leads to carries out the answer behind that decision. */
  lemma DownlinkedCarriesOut(w: System, p: int, dec: Decision, nowMs: int)
    requires Safe(w) && p in w.plugs && w.plugs[p].upstream != "" && Sent(w.plugs[p].upstream, dec) in w.daemon.all
    ensures var v := P.Decide(w.plugs[p].history.guard, dec, nowMs).1;
      v.Calls? ==> CarriesOut(w, p, v.call)
  {
    hide P.Remember, Settled, Sound, Ledger, Forwarded, Called;
    var v := P.Decide(w.plugs[p].history.guard, dec, nowMs).1;
    if v.Calls? && v.call.PermissionCall? {
      LedgerOf(w.daemon);
      var i :| 0 <= i < |w.daemon.all| && w.daemon.all[i] == Sent(w.plugs[p].upstream, dec);
      var k :| 0 <= k < |w.daemon.accepted| && Behind(w.daemon.accepted[k], w.daemon.all[i]);
      assert AnswerTo(w, p, v.call.request, w.daemon.accepted[k]);
    }
  }

  lemma DownlinkedSafe(w: System, m: Move)
    requires Safe(w) && Enabled(w, m) && m.Downlinked?
    ensures Safe(Next(w, m))
  {
    hide DaemonSafe, Called, Registered, CarriesOut, P.Decide;
    var w' := Next(w, m);
    var s := P.Decided(m.dec, m.nowMs);
    assert forall p, r :: AskedBy(w, p, r) ==> AskedBy(w', p, r);
    CallsOf(w, m.p);
    DownlinkedCarriesOut(w, m.p, m.dec, m.nowMs);
    forall i | 0 <= i < |w'.plugs[m.p].history.calls| ensures CarriesOut(w', m.p, w'.plugs[m.p].history.calls[i]) {
      StillCarriesOut(w, w', m.p, w'.plugs[m.p].history.calls[i]);
    }
    GuardedCalls(w, w', m.p, s);
  }

  lemma CallsOf(w: System, p: int)
    requires Called(w) && p in w.plugs
    ensures forall i :: 0 <= i < |w.plugs[p].history.calls| ==> CarriesOut(w, p, w.plugs[p].history.calls[i])
    ensures forall r :: P.Paid(w.plugs[p].history, r)
  {
  }

  lemma NextSafe(w: System, m: Move)
    requires Safe(w)
    ensures Safe(Next(w, m))
  {
    hide Safe;
    if Enabled(w, m) {
      match m
      case Hello(_, _) => HelloSafe(w, m);
      case Forget(_) => ForgetSafe(w, m);
      case KiloAsks(_, _, _, _, _, _) => KiloSafe(w, m);
      case KiloQuestions(_, _, _) => KiloSafe(w, m);
      case KiloAnswered(_, _) => KiloSafe(w, m);
      case Reports(_, _) => ForgetSafe(w, m);
      case Uplinked(_, _, _, _, _) => UplinkedSafe(w, m);
      case Downlinked(_, _, _) => DownlinkedSafe(w, m);
      case Elsewhere(_) => ElsewhereSafe(w, m);
    }
  }

  function Run(w: System, moves: seq<Move>): System
    decreases |moves|
  {
    if moves == [] then w else Run(Next(w, moves[0]), moves[1..])
  }

  lemma {:induction false} RunSafe(w: System, moves: seq<Move>)
    requires Safe(w)
    ensures Safe(Run(w, moves))
    decreases |moves|
  {
    hide Safe, Next;
    if moves != [] {
      NextSafe(w, moves[0]);
      RunSafe(Next(w, moves[0]), moves[1..]);
    }
  }

  /** A new daemon and plugins that have seen nothing. */
  ghost predicate Start(w: System) {
    && (exists size: int :: w.daemon == Daemon(New(size), [], [], []))
    && w.owner == map[] && w.forwarded == {}
    && forall p :: p in w.plugs ==> w.plugs[p] == Plug("", P.History(P.Guard(map[], []), [], [], []))
  }

  lemma StartSafe(w: System)
    requires Start(w)
    ensures Safe(w)
  {
    var size: int :| w.daemon == Daemon(New(size), [], [], []);
    NewDaemonSafe(size);
    hide DaemonSafe;
  }

  /** At most one answer, end to end. In every run, whatever is lost or repeated: Kilo's permission call is made at
      most as often as the plugin was asked the request, so at most once when requests are distinct; only for a
      request this plugin was asked and forwarded; and with the action of a reply the daemon accepted for a prompt of
      one of this plugin's windows. */
  lemma AtMostOneAnswer(w: System, moves: seq<Move>, p: int, i: nat)
    requires Start(w)
    requires p in Run(w, moves).plugs && i < |Run(w, moves).plugs[p].history.calls|
    requires Run(w, moves).plugs[p].history.calls[i].PermissionCall?
    ensures var w' := Run(w, moves); var h := w'.plugs[p].history; var c := h.calls[i];
      && P.CalledTimes(h.calls, c.request) <= P.AskedTimes(h.asked, c.request)
      && AskedBy(w', p, c.request)
      && exists a :: AnswerTo(w', p, c.request, a) && a.action == c.action
  {
    hide Run, Start, P.Paid, P.CalledTimes, P.AskedTimes, CarriesOut, DaemonSafe;
    StartSafe(w);
    RunSafe(w, moves);
    var w' := Run(w, moves);
    var h := w'.plugs[p].history;
    var c := h.calls[i];
    CallsOf(w', p);
    PaidFor(h, c.request);
    assert CarriesOut(w', p, c);
    Carried(w', p, c);
  }

  lemma PaidFor(h: P.History, request: string)
    requires P.Paid(h, request)
    ensures P.CalledTimes(h.calls, request) <= P.AskedTimes(h.asked, request)
  {
  }

  lemma Carried(w: System, p: int, c: P.Call)
    requires Safe(w) && CarriesOut(w, p, c) && c.PermissionCall?
    ensures AskedBy(w, p, c.request) && exists a :: AnswerTo(w, p, c.request, a) && a.action == c.action
  {
    hide Sound, Ledger, Backed, Closed, Called;
    var a :| AnswerTo(w, p, c.request, a) && a.action == c.action;
    var k :| 0 <= k < |w.daemon.accepted| && w.daemon.accepted[k] == a;
    assert a.ask in w.daemon.asks;
  }

  /** No request reached the daemon twice from the same plugin: distinct requests, and no post was repeated. */
  ghost predicate NoRepeats(w: System) {
    forall a, b :: a in w.daemon.asks && b in w.daemon.asks && SameRequest(w, a, b) ==> a == b
  }

  ghost predicate SameRequest(w: System, a: Ask, b: Ask) {
    && a.upstream in w.owner && b.upstream in w.owner && w.owner[a.upstream] == w.owner[b.upstream]
    && a.request == b.request
  }

  /** Then the daemon accepts one answer per request, so the call carries out *the* answer. */
  lemma OneAnswer(w: System, moves: seq<Move>, p: int, request: string, a: Accepted, b: Accepted)
    requires Start(w) && NoRepeats(Run(w, moves))
    requires AnswerTo(Run(w, moves), p, request, a) && AnswerTo(Run(w, moves), p, request, b)
    ensures a == b
  {
    hide Run, Start, Sound, Ledger, Backed, Closed, Called, Windows, Forwarded;
    StartSafe(w);
    RunSafe(w, moves);
    var acc := Run(w, moves).daemon.accepted;
    var i :| 0 <= i < |acc| && acc[i] == a;
    var j :| 0 <= j < |acc| && acc[j] == b;
    assert SameRequest(Run(w, moves), a.ask, b.ask);
  }
}

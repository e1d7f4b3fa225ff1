/** The replay ring refines the unbounded log of everything ever published, and the companion's poll loop
    reads that log. */
module HubRing {
  import opened HubSpec
  import opened Wrappers

  /** The ring is exactly the last min(size, seq) envelopes of the log, numbered from 1. */
  ghost predicate RingOf(h: Hub, log: seq<Envelope>) {
    && h.size > 0 && |log| == h.seqNo && |h.ring| == (if |log| < h.size then |log| else h.size)
    && h.ring == log[|log| - |h.ring|..]
    && forall i :: 0 <= i < |log| ==> log[i].seqNo == i + 1
  }

  lemma NewRing(ringSize: int)
    ensures RingOf(New(ringSize), [])
  {
  }

  lemma PublishExtends(h: Hub, env: Envelope, log: seq<Envelope>)
    requires RingOf(h, log)
    ensures RingOf(Publish(h, env), log + [Stamp(h, env)])
  {
    var ring := h.ring + [Stamp(h, env)];
    var log' := log + [Stamp(h, env)];
    assert ring == log'[|log'| - |ring|..];
  }

  /** What one step publishes. */
  function Published(h: Hub, op: Op): seq<Envelope> {
    match op
    case OpPublish(env) => [Stamp(h, env)]
    case OpIngest(_, project, ev, _, _) =>
      (match ev
       case Permission(_, _, _, _, _) => [Stamp(h, PermEnvelope(project, ev))]
       case Replied(request) =>
         if request in h.byRequest && h.byRequest[request] in h.open
         then
           var p := h.open[h.byRequest[request]];
           [Stamp(h, Envelope(h.byRequest[request], 0, Gone, p.env.project, p.env.session, "", "", [], "", 0))]
         else []
       case IdleEvent(session, _) => [Stamp(h, Blank(Idle, project, session).(title := "idle"))]
       case ErrorEvent(session, description) =>
         [Stamp(h, Blank(Err, project, session).(title := "error", body := Truncate(description, 256)))]
       case _ => [])
    case _ => []
  }

  lemma SameRing(h: Hub, h': Hub, log: seq<Envelope>)
    ensures h'.ring == h.ring && h'.seqNo == h.seqNo && h'.size == h.size ==> RingOf(h', log) == RingOf(h, log)
  {
  }

  lemma PermissionExtends(h: Hub, up: string, project: string, ev: Event, now: int, evicted: set<string>,
                          log: seq<Envelope>)
    requires RingOf(h, log) && ev.Permission?
    ensures RingOf(OnPermission(h, up, project, ev, now, evicted), log + [Stamp(h, PermEnvelope(project, ev))])
    ensures OnPermission(h, up, project, ev, now, evicted).size == h.size
  {
    hide PermEnvelope, RingOf, Publish, TrackPrompt, Stamp;
    var log' := log + [Stamp(h, PermEnvelope(project, ev))];
    PublishExtends(h, PermEnvelope(project, ev), log);
    SameRing(Publish(h, PermEnvelope(project, ev)), OnPermission(h, up, project, ev, now, evicted), log');
  }

  lemma RepliedExtends(h: Hub, request: string, log: seq<Envelope>)
    requires RingOf(h, log) && request in h.byRequest && h.byRequest[request] in h.open
    ensures var id := h.byRequest[request]; var env := h.open[id].env;
      RingOf(OnReplied(h, request),
             log + [Stamp(h, Envelope(id, 0, Gone, env.project, env.session, "", "", [], "", 0))])
    ensures OnReplied(h, request).size == h.size
  {
    hide RingOf, Publish, ClearPrompt;
    var id := h.byRequest[request];
    var p := h.open[id];
    var h1 := ClearPrompt(h.(open := h.open - {id}, byRequest := h.byRequest - {request}), p.session, id);
    SameRing(h, h1, log);
    PublishExtends(h1, Envelope(id, 0, Gone, p.env.project, p.env.session, "", "", [], "", 0), log);
  }

  lemma IngestExtends(h: Hub, up: string, project: string, ev: Event, now: int, evicted: set<string>,
                      log: seq<Envelope>)
    requires RingOf(h, log)
    ensures RingOf(Ingest(h, up, project, ev, now, evicted),
                   log + Published(h, OpIngest(up, project, ev, now, evicted)))
    ensures Ingest(h, up, project, ev, now, evicted).size == h.size
  {
    hide Truncate, PermEnvelope, Blank, RingOf, Publish, OnStatus, GetOrCreate, OnMessage, OnPermission,
      Touch, Stamp, ClearPrompt;
    SameRing(h, Ingest(h, up, project, ev, now, evicted), log);
    assert log + [] == log;
    match ev
    case Permission(_, _, _, _, _) => PermissionExtends(h, up, project, ev, now, evicted, log);
    case Replied(request) =>
      if request in h.byRequest && h.byRequest[request] in h.open {
        RepliedExtends(h, request, log);
      }
    case IdleEvent(session, time) =>
      var h1 := OnStatus(h, up, project, session, time, now, evicted);
      SameRing(h, h1, log);
      SameStamp(h, h1, Blank(Idle, project, session).(title := "idle"));
      PublishExtends(h1, Blank(Idle, project, session).(title := "idle"), log);
    case ErrorEvent(session, description) =>
      PublishExtends(h, Blank(Err, project, session).(title := "error", body := Truncate(description, 256)), log);
    case _ =>
  }

  lemma SameStamp(h: Hub, h': Hub, env: Envelope)
    requires h'.seqNo == h.seqNo
    ensures Stamp(h', env) == Stamp(h, env)
  {
  }

  /** Every step of the hub extends the log by what it publishes and keeps the ring its suffix. */
  lemma StepExtends(h: Hub, op: Op, log: seq<Envelope>)
    requires RingOf(h, log)
    ensures RingOf(Step(h, op), log + Published(h, op))
    ensures Step(h, op).size == h.size
  {
    match op
    case OpPublish(env) => PublishExtends(h, env, log);
    case OpIngest(up, project, ev, now, evicted) => IngestExtends(h, up, project, ev, now, evicted, log);
    case _ =>
      hide RingOf, Reply, Prompt, Subscribe, Unsubscribe;
      SameRing(h, Step(h, op), log);
      assert log + [] == log;
  }

  function Run(h: Hub, ops: seq<Op>): Hub
    decreases |ops|
  {
    if ops == [] then h else Run(Step(h, ops[0]), ops[1..])
  }

  lemma {:induction false} RunConcat(h: Hub, a: seq<Op>, b: seq<Op>)
    ensures Run(h, a + b) == Run(Run(h, a), b)
    decreases |a|
  {
    hide Step;
    if a == [] {
      assert a + b == b;
    } else {
      RunConcat(Step(h, a[0]), a[1..], b);
      assert (a + b)[1..] == a[1..] + b;
    }
  }

  lemma RunOne(h: Hub, op: Op)
    ensures Run(h, [op]) == Step(h, op)
  {
    hide Step;
    assert Run(Step(h, op), []) == Step(h, op);
  }

  function LogOf(h: Hub, ops: seq<Op>): seq<Envelope>
    decreases |ops|
  {
    if ops == [] then [] else Published(h, ops[0]) + LogOf(Step(h, ops[0]), ops[1..])
  }

  /** In every reachable state the ring is the tail of everything published so far. */
  lemma {:induction false} RunRefinesLog(h: Hub, ops: seq<Op>, log: seq<Envelope>)
    requires RingOf(h, log)
    ensures RingOf(Run(h, ops), log + LogOf(h, ops))
    ensures Run(h, ops).size == h.size
    decreases |ops|
  {
    hide RingOf, Step, Published;
    if ops == [] {
      assert log + [] == log;
    } else {
      StepExtends(h, ops[0], log);
      RunRefinesLog(Step(h, ops[0]), ops[1..], log + Published(h, ops[0]));
      assert log + Published(h, ops[0]) + LogOf(Step(h, ops[0]), ops[1..]) == log + LogOf(h, ops);
    }
  }

  /** From a new hub, the ring is the tail of everything it ever published, after any run. */
  lemma RingIsTail(ringSize: int, ops: seq<Op>)
    ensures RingOf(Run(New(ringSize), ops), LogOf(New(ringSize), ops))
  {
    hide RingOf, LogOf, Run, New;
    NewRing(ringSize);
    RunRefinesLog(New(ringSize), ops, []);
    EmptyFirst(LogOf(New(ringSize), ops));
  }

  lemma EmptyFirst<T>(s: seq<T>)
    ensures [] + s == s
  {
  }

  // ---- polling

  lemma {:induction false} NewerOfNumbered(s: seq<Envelope>, first: nat, cursor: nat)
    requires forall i :: 0 <= i < |s| ==> s[i].seqNo == first + i + 1
    ensures Newer(s, cursor) == if cursor <= first then s else if cursor >= first + |s| then [] else s[cursor - first..]
  {
    if s != [] {
      NewerOfNumbered(s[..|s| - 1], first, cursor);
      assert s == s[..|s| - 1] + [s[|s| - 1]];
    }
  }

  /** pollOnce refuses exactly the cursors ahead of the log or older than what is retained, and answers the
      others with precisely the log after the cursor. */
  lemma PollOnceExact(h: Hub, log: seq<Envelope>, cursor: nat)
    requires RingOf(h, log) && |log| + 1 < TWO64 && cursor < TWO64
    ensures PollOnce(h, cursor) ==
      if cursor > |log| || cursor < |log| - |h.ring| then Refused else Answer(|log|, log[cursor..])
  {
    hide Newer;
    var gone := |log| - |h.ring|;
    NewerOfNumbered(h.ring, gone, cursor);
    assert |h.ring| > 0 ==> h.ring[0] == log[gone] && log[gone].seqNo == gone + 1;
    if gone <= cursor <= |log| {
      assert h.ring[cursor - gone..] == log[cursor..];
    }
  }

  /** Steps of the hub interleaved with polls of one companion. A poll whose response is lost changes
      nothing; a refused poll ends the run. */
  datatype Move = Hubs(op: Op) | PollDelivered | PollLost

  datatype Reader = Reader(cursor: nat, got: seq<Envelope>, refused: bool)

  function PollLoop(r: Reader, h: Hub): Reader {
    match PollOnce(h, r.cursor)
    case Refused => r.(refused := true)
    case Answer(cursor, items) => Reader(cursor, r.got + items, r.refused)
  }

  function ReadRun(h: Hub, r: Reader, moves: seq<Move>): (Hub, Reader)
    decreases |moves|
  {
    if moves == [] || r.refused then (h, r)
    else
      match moves[0]
      case Hubs(op) => ReadRun(Step(h, op), r, moves[1..])
      case PollDelivered => ReadRun(h, PollLoop(r, h), moves[1..])
      case PollLost => ReadRun(h, r, moves[1..])
  }

  /** A poll loop that is never refused sees every envelope after its first cursor exactly once and in
      order, however publishes, lost responses and long-polls interleave. */
  lemma {:induction false} PollLoopReadsLog(h: Hub, r: Reader, moves: seq<Move>, log: seq<Envelope>, start: nat)
      returns (log': seq<Envelope>)
    requires RingOf(h, log) && |log| + |moves| + 1 < TWO64 && !r.refused
    requires start <= r.cursor <= |log| && r.got == log[start..r.cursor]
    ensures log <= log' && |log'| <= |log| + |moves| && RingOf(ReadRun(h, r, moves).0, log')
    ensures var r' := ReadRun(h, r, moves).1;
      !r'.refused ==> r.cursor <= r'.cursor <= |log'| && r'.got == log'[start..r'.cursor]
    decreases |moves|
  {
    hide RingOf, Step, Published;
    log' := log;
    if moves != [] {
      match moves[0]
      case Hubs(op) =>
        StepExtends(h, op, log);
        PublishedOne(h, op);
        var longer := log + Published(h, op);
        assert longer[start..r.cursor] == log[start..r.cursor];
        log' := PollLoopReadsLog(Step(h, op), r, moves[1..], longer, start);
      case PollDelivered =>
        PollOnceExact(h, log, r.cursor);
        if !PollLoop(r, h).refused {
          assert log[start..r.cursor] + log[r.cursor..] == log[start..|log|];
          log' := PollLoopReadsLog(h, PollLoop(r, h), moves[1..], log, start);
        }
      case PollLost =>
        log' := PollLoopReadsLog(h, r, moves[1..], log, start);
    }
  }

  lemma PublishedOne(h: Hub, op: Op)
    ensures |Published(h, op)| <= 1
  {
    hide Truncate, PermEnvelope, Blank, Stamp;
  }

  // ---- the reset to zero

  /** The companion answers a refusal by polling from 0. That is accepted exactly while nothing has yet been
      dropped from the ring. */
  lemma ResetAcceptedIff(h: Hub, log: seq<Envelope>)
    requires RingOf(h, log) && |log| + 1 < TWO64
    ensures PollOnce(h, 0) == Refused <==> |log| > h.size
  {
    PollOnceExact(h, log, 0);
  }

  /** Once the ring has wrapped, every later poll from 0 is refused: a companion that was refused once keeps
      resetting and never receives another envelope. */
  lemma ResetNeverRecovers(h: Hub, ops: seq<Op>, log: seq<Envelope>)
    requires RingOf(h, log) && |log| > h.size && |log + LogOf(h, ops)| + 1 < TWO64
    ensures PollOnce(Run(h, ops), 0) == Refused
  {
    RunRefinesLog(h, ops, log);
    ResetAcceptedIff(Run(h, ops), log + LogOf(h, ops));
  }
}

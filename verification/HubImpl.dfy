/** The hub of api/internal/hub/hub.go as it runs: sessions and windows are objects, updated in place under
    one lock. Each method is one locked section and is proved to do to the state what `HubSpec` says. */
module HubImpl {
  import opened Ids
  import opened Wrappers
  import R = Registry
  import S = HubSpec

  type Chan = S.Chan
  type Envelope = S.Envelope
  type Decision = S.Decision

  class Session {
    const convSize: nat
    var upstream: string
    var project: string
    var updated: int
    var convSeq: nat
    var conv: seq<Envelope>
    var pendingPrompt: string
    var wakers: set<Chan>

    constructor (upstream: string, project: string, now: int, convSize: nat)
      ensures Value() == S.Sess(upstream, project, now, 0, [], "", {}) && this.convSize == convSize
    {
      this.upstream, this.project, this.updated, this.convSize := upstream, project, now, convSize;
      convSeq, conv, pendingPrompt, wakers := 0, [], "", {};
    }

    function Value(): S.Sess
      reads this
    {
      S.Sess(upstream, project, updated, convSeq, conv, pendingPrompt, wakers)
    }

    method Touch(ms: int)
      modifies this
      ensures Value() == S.Touch(old(Value()), ms)
    {
      if ms > updated {
        updated := ms;
      }
    }

    method Refresh(upstream: string, project: string)
      modifies this
      ensures Value() == S.Claim(old(Value()), upstream, project)
    {
      if upstream != "" {
        this.upstream := upstream;
      }
      if project != "" {
        this.project := project;
      }
    }

    method AppendConv(env: Envelope)
      modifies this
      ensures Value() == S.AppendConv(old(Value()), env, convSize) && wakers == old(wakers)
    {
      convSeq := convSeq + 1;
      var e := env.(seqNo := convSeq);
      if e.id != "" {
        for i := 0 to |conv|
          invariant conv == old(conv) && convSeq == old(convSeq) + 1
          invariant Value() == old(Value()).(convSeq := convSeq)
          invariant forall k :: 0 <= k < i ==> conv[k].id != e.id
        {
          if conv[i].id == e.id {
            conv := conv[i := e];
            return;
          }
        }
      }
      conv := conv + [e];
      if |conv| > convSize {
        conv := conv[|conv| - convSize..];
      }
    }

    /** trackSessionPromptLocked, on the session it found or made. */
    method Ask(env: Envelope, now: int)
      modifies this
      ensures Value() == S.Ask(old(Value()), env, now, convSize)
    {
      hide S.AppendConv;
      pendingPrompt := env.id;
      AppendConv(env);
      Touch(now);
    }

    /** handleMessageLocked, on the session it found or made. */
    method Hear(env: Envelope, part: string, ms: int)
      modifies this
      ensures Value() == S.Hear(old(Value()), env, part, ms, convSize)
    {
      hide S.AppendConv, PartId;
      var id := part;
      if id == "" {
        convSeq := convSeq + 1;
        id := PartId(convSeq);
      }
      AppendConv(env.(id := id));
      Touch(ms);
    }

    /** clearSessionPromptLocked, on the session it found. */
    method Retract(id: string, session: string)
      modifies this
      ensures Value() == S.Retract(old(Value()), id, session) && wakers == old(wakers)
    {
      if pendingPrompt == id {
        pendingPrompt := "";
      }
      label Cleared:
      for i := 0 to |conv|
        invariant Value() == old@Cleared(Value()) && forall k :: 0 <= k < i ==> conv[k].id != id
      {
        if conv[i].id == id {
          convSeq := convSeq + 1;
          var was := conv[i];
          conv := conv[i := S.Envelope(id, convSeq, S.Gone, was.project, session, was.title, was.body, [], "", 0)];
          break;
        }
      }
    }

    method After(cursor: nat) returns (events: seq<Envelope>)
      ensures events == S.Newer(conv, cursor)
    {
      events := Filter(conv, cursor);
    }
  }

  /** The loop of pollOnce and conversationOnce. */
  method Filter(s: seq<Envelope>, cursor: nat) returns (events: seq<Envelope>)
    ensures events == S.Newer(s, cursor)
  {
    events := [];
    for i := 0 to |s|
      invariant events == S.Newer(s[..i], cursor)
    {
      assert s[..i + 1][..i] == s[..i];
      if s[i].seqNo > cursor {
        events := events + [s[i]];
      }
    }
    assert s[..|s|] == s;
  }

  class Window {
    const project: string
    var decisions: seq<Decision>
    var decCursor: nat
    var wakers: set<Chan>

    constructor (project: string)
      ensures Value() == S.Upstream(project, [], 0, {})
    {
      this.project := project;
      decisions, decCursor, wakers := [], 0, {};
    }

    function Value(): S.Upstream
      reads this
    {
      S.Upstream(project, decisions, decCursor, wakers)
    }

    method Enqueue(dec: Decision, number: nat)
      modifies this
      ensures Value() == S.Enqueue(old(Value()), dec, number) && wakers == old(wakers)
    {
      decisions := decisions + [dec];
      if |decisions| > S.MAX_QUEUED_DECISIONS {
        decisions := decisions[|decisions| - S.MAX_QUEUED_DECISIONS..];
      }
      decCursor := number;
    }

    /** The loop of pollDecisionsOnce. */
    method After(cursor: nat) returns (items: seq<Decision>)
      ensures items == S.NewerDecisions(decisions, cursor)
    {
      items := [];
      for i := 0 to |decisions|
        invariant items == S.NewerDecisions(decisions[..i], cursor)
      {
        assert decisions[..i + 1][..i] == decisions[..i];
        if DecisionNumber(decisions[i].id) > cursor {
          items := items + [decisions[i]];
        }
      }
      assert decisions[..|decisions|] == decisions;
    }
  }

  /** No object sits under two keys. */
  ghost predicate Apart<T>(m: map<string, T>) {
    forall a, b :: a in m && b in m && a != b ==> m[a] != m[b]
  }

  lemma Alone<T>(m: map<string, T>, id: string)
    requires Apart(m) && id in m
    ensures forall k :: k in m && k != id ==> m[k] != m[id]
  {
  }

  ghost predicate SessionsViewed(m: map<string, Session>, view: map<string, S.Sess>, convSize: nat)
    reads m.Values
  {
    && view.Keys == m.Keys && Apart(m)
    && (forall k :: k in m ==> m[k].Value() == view[k] && m[k].convSize == convSize)
  }

  /** All of that but for what the session under `id` holds now. */
  ghost predicate OthersViewed(m: map<string, Session>, view: map<string, S.Sess>, convSize: nat, id: string)
    reads set k | k in m && k != id :: m[k]
  {
    && view.Keys == m.Keys && Apart(m)
    && (forall k :: k in m ==> m[k].convSize == convSize)
    && (forall k :: k in m && k != id ==> m[k].Value() == view[k])
  }

  /** Before one session changes ... */
  lemma Focus(m: map<string, Session>, view: map<string, S.Sess>, convSize: nat, id: string)
    requires SessionsViewed(m, view, convSize) && id in m
    ensures OthersViewed(m, view, convSize, id) && forall k :: k in m && k != id ==> m[k] != m[id]
    ensures id in view && m[id].Value() == view[id] && m[id].convSize == convSize
  {
  }

  /** ... and after. */
  lemma Refocus(m: map<string, Session>, view: map<string, S.Sess>, convSize: nat, id: string)
    requires OthersViewed(m, view, convSize, id) && id in m
    ensures SessionsViewed(m, view[id := m[id].Value()], convSize)
  {
  }

  ghost predicate WindowsViewed(m: map<string, Window>, view: map<string, S.Upstream>)
    reads m.Values
  {
    && view.Keys == m.Keys && Apart(m)
    && (forall k :: k in m ==> m[k].Value() == view[k])
  }

  lemma SameKeys(m: map<string, Window>, view: map<string, S.Upstream>)
    requires WindowsViewed(m, view)
    ensures view.Keys == m.Keys
  {
  }

  lemma Viewed(m: map<string, Session>, view: map<string, S.Sess>, convSize: nat, id: string)
    requires SessionsViewed(m, view, convSize) && id in m
    ensures id in view && m[id].Value() == view[id]
  {
  }

  lemma SessionKeys(m: map<string, Session>, view: map<string, S.Sess>, convSize: nat)
    requires SessionsViewed(m, view, convSize)
    ensures view.Keys == m.Keys && |view| == |m|
  {
    assert |view| == |view.Keys| && |m| == |m.Keys|;
  }

  lemma OneFewer(m: map<string, Session>, id: string)
    requires id in m
    ensures (m - {id}).Keys == m.Keys - {id} && |m - {id}| == |m| - 1
  {
    assert |m - {id}| == |(m - {id}).Keys| && |m| == |m.Keys|;
  }

  class LiveHub {
    const size: nat
    const convSize: nat
    const maxSessions: nat
    var seqNo: nat
    var ring: seq<Envelope>
    var open: map<string, S.Pending>
    var byRequest: map<string, string>
    var subs: set<Chan>
    var upstreams: map<string, Window>
    var upSeq: nat
    var decSeq: nat
    var sessions: map<string, Session>
    var tokens: set<Chan>
    /** What the windows and the sessions hold. */
    ghost var windowView: map<string, S.Upstream>
    ghost var sessionView: map<string, S.Sess>

    constructor (ringSize: int)
      ensures Valid() && State() == S.New(ringSize) && sessions == map[] && upstreams == map[] && maxSessions == 64
    {
      size := if ringSize <= 0 then 200 else ringSize;
      convSize, maxSessions := 50, 64;
      seqNo, ring, open, byRequest, subs := 0, [], map[], map[], {};
      upstreams, upSeq, decSeq, sessions, tokens := map[], 0, 0, map[], {};
      windowView, sessionView := map[], map[];
    }

    /** The views are current, and no object sits under two keys. */
    ghost predicate Valid()
      reads this, sessions.Values, upstreams.Values
    {
      SessionsViewed(sessions, sessionView, convSize) && WindowsViewed(upstreams, windowView)
    }

    ghost function State(): S.Hub
      reads this
    {
      S.Hub(seqNo, size, ring, open, byRequest, subs, windowView, upSeq, decSeq, sessionView, convSize, tokens)
    }

    method PublishLocked(env: Envelope) returns (stamped: Envelope)
      modifies this`seqNo, this`ring, this`open, this`byRequest, this`tokens
      ensures State() == S.Publish(old(State()), env) && stamped == S.Stamp(old(State()), env)
    {
      hide EventId;
      seqNo := seqNo + 1;
      stamped := env.(seqNo := seqNo);
      if stamped.id == "" {
        stamped := stamped.(id := EventId(seqNo));
      }
      ring := ring + [stamped];
      if |ring| > size {
        var evicted := ring[0];
        ring := ring[1..];
        if evicted.id in open {
          var p := open[evicted.id];
          open := open - {evicted.id};
          byRequest := byRequest - {p.request};
        }
      }
      tokens := tokens + subs;
    }

    method ClearSessionPrompt(session: string, id: string)
      requires SessionsViewed(sessions, sessionView, convSize)
      modifies this`tokens, this`sessionView, sessions.Values
      ensures SessionsViewed(sessions, sessionView, convSize) && State() == S.ClearPrompt(old(State()), session, id)
      ensures sessionView.Keys == old(sessionView.Keys)
    {
      hide S.Retract, SessionsViewed, OthersViewed;
      SessionKeys(sessions, sessionView, convSize);
      if session !in sessions {
        return;
      }
      Focus(sessions, sessionView, convSize, session);
      var s := sessions[session];
      s.Retract(id, session);
      Refocus(sessions, sessionView, convSize, session);
      sessionView := sessionView[session := s.Value()];
      tokens := tokens + s.wakers;
    }

    method HandleReplied(request: string)
      requires SessionsViewed(sessions, sessionView, convSize)
      modifies this`seqNo, this`ring, this`open, this`byRequest, this`tokens, this`sessionView, sessions.Values
      ensures SessionsViewed(sessions, sessionView, convSize) && State() == S.OnReplied(old(State()), request)
      ensures sessionView.Keys == old(sessionView.Keys)
    {
      hide S.Publish, S.ClearPrompt, SessionsViewed;
      if request !in byRequest {
        return;
      }
      var id := byRequest[request];
      if id !in open {
        byRequest := byRequest - {request};
        return;
      }
      var p := open[id];
      open := open - {id};
      byRequest := byRequest - {request};
      ClearSessionPrompt(p.session, id);
      var _ := PublishLocked(S.Envelope(id, 0, S.Gone, p.env.project, p.env.session, "", "", [], "", 0));
    }

    method EnqueueAt(upstream: string, dec: Decision)
      requires WindowsViewed(upstreams, windowView) && upstream in upstreams
      modifies this`windowView, upstreams[upstream]
      ensures WindowsViewed(upstreams, windowView)
      ensures windowView == old(windowView)[upstream := S.Enqueue(old(windowView[upstream]), dec, decSeq)]
      ensures upstreams[upstream].wakers == old(windowView[upstream].wakers)
    {
      Alone(upstreams, upstream);
      hide S.Enqueue, Apart;
      var up := upstreams[upstream];
      up.Enqueue(dec, decSeq);
      windowView := windowView[upstream := up.Value()];
    }

    method QueueDecision(upstream: string, dec: Decision, nonce: string)
      requires WindowsViewed(upstreams, windowView) && upstream in upstreams
      modifies this`decSeq, this`tokens, this`windowView, upstreams[upstream]
      ensures WindowsViewed(upstreams, windowView) && State() == S.QueueDecision(old(State()), upstream, dec, nonce)
    {
      hide DecisionId, S.Enqueue, WindowsViewed;
      decSeq := decSeq + 1;
      EnqueueAt(upstream, dec.(id := DecisionId(decSeq), nonce := nonce));
      tokens := tokens + upstreams[upstream].wakers;
    }

    /** The inner loop: one pass over the registry, in whatever order the map is walked. */
    method PickOldest() returns (oldest: string, ghost order: seq<string>)
      requires SessionsViewed(sessions, sessionView, convSize)
      ensures R.Walks(sessionView, order) && oldest == R.Pass(sessionView, order)
    {
      hide R.Pass, R.Lists, SessionsViewed;
      oldest, order := "", [];
      var least := 0;
      var rest := sessions.Keys;
      R.PassNone(sessionView);
      R.ListsNone();
      SessionKeys(sessions, sessionView, convSize);
      assert sessions.Keys - rest == {};
      while rest != {}
        invariant rest <= sessions.Keys && R.Lists(sessions.Keys - rest, order)
        invariant oldest == R.Pass(sessionView, order) && (oldest != "" ==> sessionView[oldest].updated == least)
        decreases |rest|
      {
        var id :| id in rest;
        R.ListsMore(sessions.Keys - rest, order, id);
        R.PassMore(sessionView, order, id);
        assert sessions.Keys - rest + {id} == sessions.Keys - (rest - {id});
        rest := rest - {id};
        order := order + [id];
        Viewed(sessions, sessionView, convSize, id);
        var s := sessions[id];
        if s.pendingPrompt == "" && (oldest == "" || s.updated < least) {
          oldest, least := id, s.updated;
        }
      }
      assert sessions.Keys - rest == sessionView.Keys;
    }

    method Delete(id: string)
      requires SessionsViewed(sessions, sessionView, convSize) && id in sessions
      modifies this`sessions, this`sessionView
      ensures SessionsViewed(sessions, sessionView, convSize) && |sessions| == old(|sessions|) - 1
      ensures sessions.Keys == old(sessions.Keys) - {id} && sessions.Values <= old(sessions.Values)
      ensures sessionView == old(sessionView) - {id}
    {
      OneFewer(sessions, id);
      sessions := sessions - {id};
      sessionView := sessionView - {id};
    }

    method EvictSessions() returns (ghost evicted: set<string>)
      requires SessionsViewed(sessions, sessionView, convSize)
      modifies this`sessions, this`sessionView
      ensures SessionsViewed(sessions, sessionView, convSize)
      ensures sessions.Keys <= old(sessions.Keys) && sessions.Values <= old(sessions.Values)
      ensures R.Evicted(old(sessionView), evicted, sessionView)
      ensures evicted == {} || |sessionView| + 1 >= maxSessions
      ensures |sessionView| < maxSessions || R.Hidden(sessionView)
        || forall id :: id != "" ==> !R.Evictable(sessionView, id)
      ensures R.Drains(old(sessionView), sessionView, maxSessions)
      ensures R.Roomy(old(sessionView), maxSessions) ==> R.Ranked(old(sessionView), sessionView)
      ensures R.Roomy(old(sessionView), maxSessions) ==>
        |sessionView| < maxSessions || |sessionView| <= |R.Prompted(old(sessionView))|
    {
      hide R.Evictable, R.Evicted, R.Hidden, R.LeastRecent, R.Walks, R.Pass, R.Draining, R.Drained, R.Roomy, R.Ranked,
        SessionsViewed;
      evicted := {};
      ghost var view, walks: seq<seq<string>> := sessionView, [];
      R.NoneYet(view);
      R.DrainsNone(view, maxSessions);
      while |sessions| >= maxSessions
        invariant SessionsViewed(sessions, sessionView, convSize)
        invariant sessions.Keys <= old(sessions.Keys) && sessions.Values <= old(sessions.Values)
        invariant R.Evicted(old(sessionView), evicted, sessionView)
        invariant evicted == {} || |sessions| + 1 >= maxSessions
        invariant R.Draining(view, sessionView, maxSessions, walks)
        decreases |sessions|
      {
        ghost var order;
        var oldest;
        oldest, order := PickOldest();
        R.PassFindsIff(sessionView, order);
        SessionKeys(sessions, sessionView, convSize);
        if oldest == "" {
          R.DrainStops(view, sessionView, maxSessions, walks, order);
          R.DrainsRoomy(view, sessionView, maxSessions, walks + [order]);
          return;
        }
        R.EvictOne(view, evicted, sessionView, order);
        R.DrainMore(view, sessionView, maxSessions, walks, order);
        R.EvictableIn(sessionView, oldest);
        walks := walks + [order];
        Delete(oldest);
        evicted := evicted + {oldest};
      }
      SessionKeys(sessions, sessionView, convSize);
      R.DrainRoom(view, sessionView, maxSessions, walks);
      R.DrainsRoomy(view, sessionView, maxSessions, walks);
    }

    /** Keep the owner of a known session current. */
    method Refresh(upstream: string, project: string, id: string)
      requires SessionsViewed(sessions, sessionView, convSize) && id in sessions
      modifies this`sessionView, sessions[id]
      ensures SessionsViewed(sessions, sessionView, convSize)
      ensures sessionView == S.Known(old(sessionView), upstream, project, id, 0, {})
    {
      Focus(sessions, sessionView, convSize, id);
      hide S.Claim, SessionsViewed, OthersViewed;
      var s := sessions[id];
      s.Refresh(upstream, project);
      Refocus(sessions, sessionView, convSize, id);
      sessionView := sessionView[id := s.Value()];
    }

    method Create(upstream: string, project: string, id: string, now: int)
      requires SessionsViewed(sessions, sessionView, convSize) && id !in sessions
      modifies this`sessions, this`sessionView
      ensures SessionsViewed(sessions, sessionView, convSize)
      ensures id in sessions && sessions.Values <= old(sessions.Values) + {sessions[id]} && fresh(sessions[id])
      ensures sessionView == old(sessionView)[id := S.Sess(upstream, project, now, 0, [], "", {})]
    {
      var s := new Session(upstream, project, now, convSize);
      sessions := sessions[id := s];
      sessionView := sessionView[id := s.Value()];
    }

    /** Make room and register. */
    method EvictAndCreate(upstream: string, project: string, id: string, now: int) returns (ghost evicted: set<string>)
      requires SessionsViewed(sessions, sessionView, convSize) && id !in sessions
      modifies this`sessions, this`sessionView
      ensures SessionsViewed(sessions, sessionView, convSize) && id in sessions
      ensures sessions.Values <= old(sessions.Values) + {sessions[id]} && fresh(sessions[id])
      ensures sessionView == (old(sessionView) - evicted)[id := S.Sess(upstream, project, now, 0, [], "", {})]
      ensures R.Kept(old(sessionView), evicted, sessionView, maxSessions)
      ensures R.Roomy(old(sessionView), maxSessions) ==>
        |sessionView| <= maxSessions || |sessionView| <= |R.Prompted(old(sessionView))| + 1
    {
      hide SessionsViewed, R.Evicted, R.Evictable, R.Hidden, R.Kept, R.Drains, R.Roomy, R.Ranked, R.Prompted;
      ghost var view := sessionView;
      SessionKeys(sessions, view, convSize);
      evicted := EvictSessions();
      R.CreateBounded(view, evicted, sessionView, maxSessions, id, S.Sess(upstream, project, now, 0, [], "", {}));
      Create(upstream, project, id, now);
    }

    method GetOrCreateSession(upstream: string, project: string, id: string, now: int)
          returns (ghost evicted: set<string>)
      requires SessionsViewed(sessions, sessionView, convSize)
      modifies this`sessions, this`sessionView, if id in sessions then {sessions[id]} else {}
      ensures SessionsViewed(sessions, sessionView, convSize) && id in sessions
      ensures sessions.Values <= old(sessions.Values) + {sessions[id]} && fresh({sessions[id]} - old(sessions.Values))
      ensures sessionView == S.Known(old(sessionView), upstream, project, id, now, evicted)
      ensures R.Kept(old(sessionView), evicted, sessionView, maxSessions)
    {
      hide SessionsViewed, R.Evicted, R.Evictable, R.Hidden, R.Kept;
      SessionKeys(sessions, sessionView, convSize);
      if id in sessions {
        evicted := {};
        Refresh(upstream, project, id);
        R.NothingEvicted(old(sessionView), sessionView, maxSessions);
      } else {
        evicted := EvictAndCreate(upstream, project, id, now);
      }
    }

    /** trackSessionPromptLocked */
    method TrackPrompt(upstream: string, project: string, session: string, env: Envelope, now: int)
      returns (ghost evicted: set<string>)
      requires SessionsViewed(sessions, sessionView, convSize)
      modifies this`sessions, this`sessionView, this`tokens, sessions.Values
      ensures SessionsViewed(sessions, sessionView, convSize) && fresh(sessions.Values - old(sessions.Values))
      ensures State() == S.TrackPrompt(old(State()), upstream, project, session, env, now, evicted)
      ensures R.Kept(old(sessionView), evicted, sessionView, maxSessions)
    {
      hide S.Ask, S.Known, SessionsViewed, R.Kept;
      evicted := {};
      if session == "" {
        R.NothingEvicted(sessionView, sessionView, maxSessions);
        return;
      }
      evicted := GetOrCreateSession(upstream, project, session, now);
      ghost var known := sessionView;
      AskAt(session, env, now);
      R.SameSize(old(sessionView), evicted, known, sessionView, maxSessions);
      tokens := tokens + sessions[session].wakers;
    }

    method AskAt(session: string, env: Envelope, now: int)
      requires SessionsViewed(sessions, sessionView, convSize) && session in sessions
      modifies this`sessionView, sessions[session]
      ensures SessionsViewed(sessions, sessionView, convSize) && session in old(sessionView)
      ensures sessionView == old(sessionView)[session := S.Ask(old(sessionView[session]), env, now, convSize)]
      ensures sessionView.Keys == old(sessionView.Keys)
      ensures sessions[session].wakers == sessionView[session].wakers
    {
      Focus(sessions, sessionView, convSize, session);
      hide S.Ask, SessionsViewed, OthersViewed;
      var s := sessions[session];
      s.Ask(env, now);
      Refocus(sessions, sessionView, convSize, session);
      sessionView := sessionView[session := s.Value()];
    }

    method HandleMessage(upstream: string, project: string, ev: S.Event, now: int) returns (ghost evicted: set<string>)
      requires SessionsViewed(sessions, sessionView, convSize) && ev.Message?
      modifies this`sessions, this`sessionView, this`tokens, sessions.Values
      ensures SessionsViewed(sessions, sessionView, convSize) && fresh(sessions.Values - old(sessions.Values))
      ensures State() == S.OnMessage(old(State()), upstream, project, ev, now, evicted)
      ensures R.Kept(old(sessionView), evicted, sessionView, maxSessions)
    {
      hide S.Hear, S.Known, SessionsViewed, Truncate, S.Blank, R.Kept;
      evicted := {};
      if ev.session == "" {
        R.NothingEvicted(sessionView, sessionView, maxSessions);
        return;
      }
      evicted := GetOrCreateSession(upstream, project, ev.session, now);
      ghost var known := sessionView;
      HearAt(ev.session, S.Blank(S.Msg, project, ev.session).(text := Truncate(ev.text, 4096)), ev.part, ev.time);
      R.SameSize(old(sessionView), evicted, known, sessionView, maxSessions);
      tokens := tokens + sessions[ev.session].wakers;
    }

    method HearAt(session: string, env: Envelope, part: string, ms: int)
      requires SessionsViewed(sessions, sessionView, convSize) && session in sessions
      modifies this`sessionView, sessions[session]
      ensures SessionsViewed(sessions, sessionView, convSize) && session in old(sessionView)
      ensures sessionView == old(sessionView)[session := S.Hear(old(sessionView[session]), env, part, ms, convSize)]
      ensures sessionView.Keys == old(sessionView.Keys)
      ensures sessions[session].wakers == sessionView[session].wakers
    {
      Focus(sessions, sessionView, convSize, session);
      hide S.Hear, SessionsViewed, OthersViewed;
      var s := sessions[session];
      s.Hear(env, part, ms);
      Refocus(sessions, sessionView, convSize, session);
      sessionView := sessionView[session := s.Value()];
    }

    method HandleStatus(upstream: string, project: string, session: string, ms: int, now: int)
      returns (ghost evicted: set<string>)
      requires SessionsViewed(sessions, sessionView, convSize)
      modifies this`sessions, this`sessionView, this`tokens, sessions.Values
      ensures SessionsViewed(sessions, sessionView, convSize) && fresh(sessions.Values - old(sessions.Values))
      ensures State() == S.OnStatus(old(State()), upstream, project, session, ms, now, evicted)
      ensures R.Kept(old(sessionView), evicted, sessionView, maxSessions)
    {
      hide S.Known, SessionsViewed, S.Touch, R.Kept;
      evicted := GetOrCreateSession(upstream, project, session, now);
      ghost var known := sessionView;
      TouchAt(session, ms);
      R.SameSize(old(sessionView), evicted, known, sessionView, maxSessions);
      tokens := tokens + sessions[session].wakers;
    }

    method TouchAt(session: string, ms: int)
      requires SessionsViewed(sessions, sessionView, convSize) && session in sessions
      modifies this`sessionView, sessions[session]
      ensures SessionsViewed(sessions, sessionView, convSize) && session in old(sessionView)
      ensures sessionView == old(sessionView)[session := S.Touch(old(sessionView[session]), ms)]
      ensures sessionView.Keys == old(sessionView.Keys)
      ensures sessions[session].wakers == sessionView[session].wakers
    {
      Focus(sessions, sessionView, convSize, session);
      hide S.Touch, SessionsViewed, OthersViewed;
      var s := sessions[session];
      s.Touch(ms);
      Refocus(sessions, sessionView, convSize, session);
      sessionView := sessionView[session := s.Value()];
    }

    method HandleSeen(upstream: string, project: string, session: string, ms: int, now: int)
      returns (ghost evicted: set<string>)
      requires SessionsViewed(sessions, sessionView, convSize)
      modifies this`sessions, this`sessionView, sessions.Values
      ensures SessionsViewed(sessions, sessionView, convSize) && fresh(sessions.Values - old(sessions.Values))
      ensures State() == S.OnSeen(old(State()), upstream, project, session, ms, now, evicted)
      ensures R.Kept(old(sessionView), evicted, sessionView, maxSessions)
    {
      hide S.Known, SessionsViewed, S.Touch, R.Kept;
      evicted := GetOrCreateSession(upstream, project, session, now);
      ghost var known := sessionView;
      TouchAt(session, ms);
      R.SameSize(old(sessionView), evicted, known, sessionView, maxSessions);
    }

    method HandleDeleted(session: string)
      requires SessionsViewed(sessions, sessionView, convSize)
      modifies this`sessions, this`sessionView, this`tokens
      ensures SessionsViewed(sessions, sessionView, convSize) && sessions.Values <= old(sessions.Values)
      ensures State() == S.OnDeleted(old(State()), session)
    {
      hide SessionsViewed;
      SessionKeys(sessions, sessionView, convSize);
      if session in sessions {
        Viewed(sessions, sessionView, convSize, session);
        tokens := tokens + sessions[session].wakers;
        Delete(session);
      }
    }

    method HandlePermission(upstream: string, project: string, ev: S.Event, now: int)
          returns (ghost evicted: set<string>)
      requires SessionsViewed(sessions, sessionView, convSize) && ev.Permission?
      modifies this`seqNo, this`ring, this`open, this`byRequest, this`sessions, this`sessionView, this`tokens
      modifies sessions.Values
      ensures SessionsViewed(sessions, sessionView, convSize) && fresh(sessions.Values - old(sessions.Values))
      ensures State() == S.OnPermission(old(State()), upstream, project, ev, now, evicted)
      ensures R.Kept(old(sessionView), evicted, sessionView, maxSessions)
    {
      hide SessionsViewed, S.Publish, S.PermEnvelope, S.TrackPrompt, S.Stamp, R.Kept;
      var env := PublishLocked(S.PermEnvelope(project, ev));
      open := open[env.id := S.Pending(env, upstream, ev.request, ev.session)];
      byRequest := byRequest[ev.request := env.id];
      evicted := TrackPrompt(upstream, project, ev.session, env, now);
    }

    /** One event of a batch. */
    method Ingest(upstream: string, project: string, ev: S.Event, now: int) returns (ghost evicted: set<string>)
      requires SessionsViewed(sessions, sessionView, convSize)
      modifies this`seqNo, this`ring, this`open, this`byRequest, this`sessions, this`sessionView, this`tokens
      modifies sessions.Values
      ensures SessionsViewed(sessions, sessionView, convSize) && fresh(sessions.Values - old(sessions.Values))
      ensures State() == S.Ingest(old(State()), upstream, project, ev, now, evicted)
      ensures R.Kept(old(sessionView), evicted, sessionView, maxSessions)
    {
      hide SessionsViewed, S.Publish, S.OnPermission, S.OnReplied, S.OnMessage, S.OnStatus, S.OnSeen, S.OnDeleted,
        S.Blank,
        Truncate, R.Kept;
      evicted := {};
      match ev
      case Permission(_, _, _, _, _) => evicted := HandlePermission(upstream, project, ev, now);
      case Replied(request) =>
        HandleReplied(request);
        R.NothingEvicted(old(sessionView), sessionView, maxSessions);
      case Message(_, _, _, _) => evicted := HandleMessage(upstream, project, ev, now);
      case IdleEvent(session, ms) =>
        evicted := HandleStatus(upstream, project, session, ms, now);
        var _ := PublishLocked(S.Blank(S.Idle, project, session).(title := "idle"));
      case ErrorEvent(session, description) =>
        var _ := PublishLocked(S.Blank(S.Err, project, session).(title := "error", body := Truncate(description, 256)));
        R.NothingEvicted(old(sessionView), sessionView, maxSessions);
      case SessionSeen(session, ms) => evicted := HandleSeen(upstream, project, session, ms, now);
      case SessionDeleted(session) =>
        HandleDeleted(session);
        R.NothingEvicted(old(sessionView), sessionView, maxSessions);
      case SessionStatus(session, ms) => evicted := HandleStatus(upstream, project, session, ms, now);
      case Other => R.NothingEvicted(sessionView, sessionView, maxSessions);
    }

    /** A batch, under one lock. */
    method IngestPluginEvents(upstream: string, project: string, events: seq<S.Event>, now: int)
      returns (ghost evicted: seq<set<string>>)
      requires Valid()
      modifies this`seqNo, this`ring, this`open, this`byRequest, this`sessions, this`sessionView, this`tokens
      modifies sessions.Values
      ensures Valid() && fresh(sessions.Values - old(sessions.Values))
      ensures |evicted| == |events| && State() == IngestAll(old(State()), upstream, project, events, now, evicted)
      ensures AllKept(old(State()), upstream, project, events, now, evicted, maxSessions)
    {
      hide SessionsViewed, WindowsViewed, S.Ingest, R.Kept;
      evicted := [];
      for i := 0 to |events|
        invariant |evicted| == i && Valid()
        invariant fresh(sessions.Values - old(sessions.Values))
        invariant State() == IngestAll(old(State()), upstream, project, events[..i], now, evicted)
        invariant AllKept(old(State()), upstream, project, events[..i], now, evicted, maxSessions)
      {
        ghost var gone := Ingest(upstream, project, events[i], now);
        assert events[..i + 1][..i] == events[..i] && (evicted + [gone])[..i] == evicted;
        evicted := evicted + [gone];
      }
      assert events[..|events|] == events;
    }

    /** Take an open prompt off the books. */
    method Settle(id: string)
      requires id in open && SessionsViewed(sessions, sessionView, convSize)
      modifies this`open, this`byRequest, this`tokens, this`sessionView, sessions.Values
      ensures SessionsViewed(sessions, sessionView, convSize) && State() == S.Settle(old(State()), id)
    {
      hide S.ClearPrompt, SessionsViewed;
      var p := open[id];
      open := open - {id};
      byRequest := byRequest - {p.request};
      ClearSessionPrompt(p.session, id);
    }

    method Reply(req: S.ReplyRequest, nonce: string) returns (outcome: S.ReplyOutcome)
      requires Valid()
      modifies this`open, this`byRequest, this`decSeq, this`tokens, this`sessionView, this`windowView
      modifies sessions.Values, upstreams.Values
      ensures Valid() && State() == S.Reply(old(State()), req, nonce) && outcome == S.ReplyResult(old(State()), req)
    {
      hide S.QueueDecision, S.Settle, SessionsViewed, WindowsViewed;
      if req.event !in open {
        return S.AlreadyAnswered;
      }
      var p := open[req.event];
      Settle(req.event);
      SameKeys(upstreams, windowView);
      if p.upstream !in upstreams {
        return S.UpstreamGone;
      }
      QueueDecision(p.upstream, S.Decision("", "", p.request, p.session, S.KindName(p.env.kind), req.action, req.choice,
                                           req.text, p.env.expires), nonce);
      outcome := S.Queued;
    }

    method Prompt(session: string, text: string, nonce: string, now: int)
      requires Valid()
      modifies this`decSeq, this`tokens, this`windowView, this`sessionView, sessions.Values, upstreams.Values
      ensures Valid() && State() == S.Prompt(old(State()), session, text, nonce, now)
    {
      hide SessionsViewed, WindowsViewed, Truncate, S.QueueDecision;
      var clipped := Truncate(text, 4096);
      SessionKeys(sessions, sessionView, convSize);
      SameKeys(upstreams, windowView);
      if clipped == "" || session !in sessions {
        return;
      }
      Viewed(sessions, sessionView, convSize, session);
      var owner := sessions[session].upstream;
      if owner !in upstreams {
        return;
      }
      QueueDecision(owner, S.Decision("", "", "", session, "prompt", "text", 0, clipped, 0), nonce);
      TouchAt(session, now);
    }

    method PollOnce(cursor: nat) returns (r: S.PollResult<Envelope>)
      ensures r == S.PollOnce(State(), cursor)
    {
      if |ring| > 0 && S.Next64(cursor) < ring[0].seqNo {
        return S.Refused;
      }
      if cursor > seqNo {
        return S.Refused;
      }
      var events := Filter(ring, cursor);
      r := S.Answer(seqNo, events);
    }

    method PollDecisionsOnce(upstream: string, cursor: nat) returns (r: S.PollResult<Decision>)
      requires Valid()
      ensures r == S.PollDecisionsOnce(State(), upstream, cursor)
    {
      if upstream !in upstreams {
        return S.Refused;
      }
      var up := upstreams[upstream];
      assert up.Value() == windowView[upstream];
      var items := up.After(cursor);
      r := S.Answer(up.decCursor, items);
    }

    method ConversationOnce(session: string, cursor: nat) returns (r: S.PollResult<Envelope>)
      requires Valid()
      ensures r == S.ConversationOnce(State(), session, cursor)
    {
      if session !in sessions {
        return S.Refused;
      }
      Viewed(sessions, sessionView, convSize, session);
      var events := sessions[session].After(cursor);
      r := S.Answer(sessions[session].convSeq, events);
    }

    method RegisterUpstream(project: string) returns (id: string)
      requires Valid()
      modifies this`upSeq, this`upstreams, this`windowView
      ensures Valid() && fresh(upstreams.Values - old(upstreams.Values))
      ensures State() == S.Register(old(State()), project) && id == S.UpstreamId(upSeq)
    {
      hide S.UpstreamId, SessionsViewed, WindowsViewed;
      upSeq := upSeq + 1;
      id := S.UpstreamId(upSeq);
      AddWindow(id, project);
    }

    method AddWindow(id: string, project: string)
      requires WindowsViewed(upstreams, windowView)
      modifies this`upstreams, this`windowView
      ensures WindowsViewed(upstreams, windowView) && fresh(upstreams.Values - old(upstreams.Values))
      ensures windowView == old(windowView)[id := S.Upstream(project, [], 0, {})]
    {
      var up := new Window(project);
      upstreams := upstreams[id := up];
      windowView := windowView[id := up.Value()];
    }

    /** The registry is walked in any order. */
    method DropSessions(owner: string)
      requires SessionsViewed(sessions, sessionView, convSize)
      modifies this`sessions, this`sessionView
      ensures SessionsViewed(sessions, sessionView, convSize) && sessions.Values <= old(sessions.Values)
      ensures sessionView == old(sessionView) - S.OwnedBy(old(State()), owner)
    {
      hide SessionsViewed;
      ghost var view := sessionView;
      var rest := sessions.Keys;
      SessionKeys(sessions, sessionView, convSize);
      while rest != {}
        invariant SessionsViewed(sessions, sessionView, convSize) && rest <= sessions.Keys == sessionView.Keys
        invariant sessions.Values <= old(sessions.Values)
        invariant sessionView == Kept(view, rest, owner)
        decreases |rest|
      {
        hide Kept;
        var id :| id in rest;
        KeptOne(view, rest, owner, id);
        rest := rest - {id};
        Viewed(sessions, sessionView, convSize, id);
        if sessions[id].upstream == owner {
          Delete(id);
          SessionKeys(sessions, sessionView, convSize);
        }
      }
    }

    /** The window and its sessions go, and nobody is woken. */
    method RemoveUpstream(id: string)
      requires Valid()
      modifies this`sessions, this`sessionView, this`upstreams, this`windowView
      ensures Valid() && State() == S.Remove(old(State()), id)
    {
      hide SessionsViewed, WindowsViewed, S.OwnedBy;
      DropSessions(id);
      WithoutWindow(upstreams, windowView, id);
      upstreams := upstreams - {id};
      windowView := windowView - {id};
    }
  }

  /** The registry with the sessions of `owner` gone, but for those not visited yet. */
  ghost function Kept(view: map<string, S.Sess>, rest: set<string>, owner: string): map<string, S.Sess> {
    map k | k in view && (k in rest || view[k].upstream != owner) :: view[k]
  }

  lemma KeptOne(view: map<string, S.Sess>, rest: set<string>, owner: string, id: string)
    requires id in rest && id in Kept(view, rest, owner)
    ensures id in view && Kept(view, rest, owner)[id] == view[id]
    ensures Kept(view, rest - {id}, owner)
         == if view[id].upstream == owner then Kept(view, rest, owner) - {id} else Kept(view, rest, owner)
  {
  }

  lemma WithoutWindow(m: map<string, Window>, view: map<string, S.Upstream>, id: string)
    requires WindowsViewed(m, view)
    ensures WindowsViewed(m - {id}, view - {id})
  {
  }

  /** A batch of events, each with what its session creation evicted. */
  ghost function IngestAll(h: S.Hub, upstream: string, project: string, events: seq<S.Event>, now: int,
                           evicted: seq<set<string>>): S.Hub
    requires |evicted| == |events|
  {
    if events == [] then h
    else
      var last := |events| - 1;
      S.Ingest(IngestAll(h, upstream, project, events[..last], now, evicted[..last]),
               upstream, project, events[last], now,
               evicted[last])
  }

  /** What each event of a batch evicts is what the registry's rule allows in the state it meets. */
  ghost predicate AllKept(h: S.Hub, upstream: string, project: string, events: seq<S.Event>, now: int,
                          evicted: seq<set<string>>, max: nat)
    requires |evicted| == |events|
  {
    events == [] ||
    (var last := |events| - 1;
     && AllKept(h, upstream, project, events[..last], now, evicted[..last], max)
     && R.Kept(IngestAll(h, upstream, project, events[..last], now, evicted[..last]).sessions, evicted[last],
               IngestAll(h, upstream, project, events, now, evicted).sessions, max))
  }
}

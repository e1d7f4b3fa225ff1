/** The plugin of plugin/src/index.js: a bounded uplink that never lets conversation push out a prompt, and the
    two guards that keep a decision from being applied twice. */
module Plugin {
  import opened HubSpec

  const QUEUE_MAX := 64
  const REQUEUE_MAX := 8
  const MAX_SEEN_NONCES := 512

  // ---- the uplink queue

  predicate IsChatter(e: Event) {
    e.Message?
  }

  /** The first conversation event, -1 when there is none. */
  function FirstChatter(q: seq<Event>): (i: int)
    ensures -1 <= i < |q|
    ensures i >= 0 ==> IsChatter(q[i])
    ensures forall k :: 0 <= k < (if i < 0 then |q| else i) ==> !IsChatter(q[k])
  {
    if q == [] then -1
    else
      var i := FirstChatter(q[..|q| - 1]);
      if i >= 0 then i else if IsChatter(q[|q| - 1]) then |q| - 1 else -1
  }

  /** The queued update of this part, -1 when there is none. */
  function FirstOfPart(q: seq<Event>, part: string): (i: int)
    ensures -1 <= i < |q|
    ensures i >= 0 ==> IsChatter(q[i]) && q[i].part == part
    ensures forall k :: 0 <= k < (if i < 0 then |q| else i) ==> !(IsChatter(q[k]) && q[k].part == part)
  {
    if q == [] then -1
    else
      var i := FirstOfPart(q[..|q| - 1], part);
      if i >= 0 then i else if IsChatter(q[|q| - 1]) && q[|q| - 1].part == part then |q| - 1 else -1
  }

  function Remove(q: seq<Event>, i: nat): seq<Event>
    requires i < |q|
  {
    q[..i] + q[i + 1..]
  }

  /** report, up to its flush. */
  function Enqueue(q: seq<Event>, e: Event): seq<Event> {
    if IsChatter(e) && e.part != "" && FirstOfPart(q, e.part) >= 0 then q[FirstOfPart(q, e.part) := e]
    else if |q| < QUEUE_MAX then q + [e]
    else Remove(q, if FirstChatter(q) >= 0 then FirstChatter(q) else 0) + [e]
  }

  function Filter(s: seq<Event>, chatter: bool): (r: seq<Event>)
    ensures forall i :: 0 <= i < |r| ==> IsChatter(r[i]) == chatter
    ensures |r| <= |s|
  {
    if s == [] then []
    else Filter(s[..|s| - 1], chatter) + (if IsChatter(s[|s| - 1]) == chatter then [s[|s| - 1]] else [])
  }

  /** The events somebody waits for. */
  function Prompts(s: seq<Event>): seq<Event> {
    Filter(s, false)
  }

  /** What a failed batch puts back in front of what was queued meanwhile. */
  function Requeue(batch: seq<Event>, q: seq<Event>): seq<Event> {
    var kept := Prompts(batch) + Filter(batch, true);
    if |q| >= REQUEUE_MAX then q
    else if |kept| > REQUEUE_MAX - |q| then kept[..REQUEUE_MAX - |q|] + q
    else kept + q
  }

  /** The queue and the batch on its way; `flushing` is the flag, true exactly while a post is outstanding. */
  datatype Uplink = Uplink(queue: seq<Event>, inflight: seq<Event>, flushing: bool)

  function Flush(u: Uplink): Uplink {
    if u.flushing || u.queue == [] then u else Uplink([], u.queue, true)
  }

  function Report(u: Uplink, e: Event): Uplink {
    Flush(u.(queue := Enqueue(u.queue, e)))
  }

  /** The post resolved: then the finally callback. */
  function Resolved(u: Uplink): Uplink {
    Flush(Uplink(u.queue, [], false))
  }

  /** The post rejected: the catch and the finally callback, as one step. */
  function Rejected(u: Uplink): Uplink {
    Flush(Uplink(Requeue(u.inflight, u.queue), [], false))
  }

  // ---- filters

  lemma {:induction false} FilterConcat(a: seq<Event>, b: seq<Event>, chatter: bool)
    ensures Filter(a + b, chatter) == Filter(a, chatter) + Filter(b, chatter)
  {
    if b == [] {
      assert a + b == a;
    } else {
      FilterConcat(a, b[..|b| - 1], chatter);
      assert (a + b)[..|a + b| - 1] == a + b[..|b| - 1];
    }
  }

  lemma {:induction false} FilterAll(s: seq<Event>, chatter: bool)
    requires forall i :: 0 <= i < |s| ==> IsChatter(s[i]) == chatter
    ensures Filter(s, chatter) == s
  {
    if s != [] {
      FilterAll(s[..|s| - 1], chatter);
      assert s == s[..|s| - 1] + [s[|s| - 1]];
    }
  }

  lemma {:induction false} FilterNone(s: seq<Event>, chatter: bool)
    requires forall i :: 0 <= i < |s| ==> IsChatter(s[i]) != chatter
    ensures Filter(s, chatter) == []
  {
    if s != [] {
      FilterNone(s[..|s| - 1], chatter);
    }
  }

  lemma PromptsOfOne(e: Event)
    ensures Prompts([e]) == if IsChatter(e) then [] else [e]
  {
    if IsChatter(e) {
      FilterNone([e], false);
    } else {
      FilterAll([e], false);
    }
  }

  lemma PromptsWithout(q: seq<Event>, i: nat)
    requires i < |q|
    ensures Prompts(Remove(q, i)) == Prompts(q[..i]) + Prompts(q[i + 1..])
    ensures Prompts(q) == Prompts(q[..i]) + Prompts([q[i]]) + Prompts(q[i + 1..])
  {
    FilterConcat(q[..i], q[i + 1..], false);
    FilterConcat(q[..i], [q[i]], false);
    FilterConcat(q[..i] + [q[i]], q[i + 1..], false);
    assert q[..i] + [q[i]] + q[i + 1..] == q;
  }

  lemma Supersedes(q: seq<Event>, i: nat, e: Event)
    requires i < |q| && IsChatter(q[i]) && IsChatter(e)
    ensures Prompts(q[i := e]) == Prompts(q)
  {
    hide Prompts;
    PromptsWithout(q, i);
    PromptsWithout(q[i := e], i);
    PromptsOfOne(q[i]);
    PromptsOfOne(e);
    assert q[i := e][i + 1..] == q[i + 1..] && q[i := e][..i] == q[..i];
  }

  lemma DropsChatter(q: seq<Event>, i: nat, e: Event)
    requires i < |q| && IsChatter(q[i])
    ensures Prompts(Remove(q, i) + [e]) == Prompts(q) + Prompts([e])
  {
    PromptsWithout(q, i);
    PromptsOfOne(q[i]);
    FilterConcat(Remove(q, i), [e], false);
    hide Filter;
  }

  lemma DropsPrompt(q: seq<Event>, e: Event)
    requires q != [] && FirstChatter(q) < 0
    ensures Remove(q, 0) == q[1..] && Prompts(Remove(q, 0) + [e]) == q[1..] + Prompts([e]) && Prompts(q) == q
  {
    hide Filter;
    FilterAll(q, false);
    FilterAll(q[1..], false);
    FilterConcat(q[1..], [e], false);
    assert Remove(q, 0) == q[1..];
  }

  /** Reporting loses an event somebody waits for if and only if the queue is full of nothing but such events;
      then it loses the oldest. */
  lemma EnqueueKeepsPrompts(q: seq<Event>, e: Event)
    ensures Prompts(Enqueue(q, e)) == Prompts(q) + Prompts([e]) <==> |q| < QUEUE_MAX || FirstChatter(q) >= 0
    ensures |q| >= QUEUE_MAX && FirstChatter(q) < 0 ==>
      Prompts(q) == q && Prompts(Enqueue(q, e)) == q[1..] + Prompts([e])
  {
    hide Prompts, Remove, FirstChatter, FirstOfPart;
    if IsChatter(e) && e.part != "" && FirstOfPart(q, e.part) >= 0 {
      Supersedes(q, FirstOfPart(q, e.part), e);
      PromptsOfOne(e);
      assert Prompts(q) + [] == Prompts(q);
    } else if |q| < QUEUE_MAX {
      EnqueueAppends(q, e);
    } else if FirstChatter(q) >= 0 {
      DropsChatter(q, FirstChatter(q), e);
    } else {
      DropsPrompt(q, e);
    }
  }

  lemma EnqueueAppends(q: seq<Event>, e: Event)
    ensures Prompts(q + [e]) == Prompts(q) + Prompts([e])
  {
    FilterConcat(q, [e], false);
  }

  // ---- what reaches the daemon

  /** `at` says where each element of `a` stands in `b`, in order. */
  ghost predicate Embeds<T>(a: seq<T>, b: seq<T>, at: seq<nat>) {
    && |at| == |a| && (forall i :: 0 <= i < |a| ==> at[i] < |b| && b[at[i]] == a[i])
    && (forall i, j :: 0 <= i < j < |a| ==> at[i] < at[j])
  }

  /** `a` is a subsequence of `b`. */
  ghost predicate Within<T>(a: seq<T>, b: seq<T>) {
    exists at :: Embeds(a, b, at)
  }

  lemma WithinCut<T>(a: seq<T>, cut: seq<T>, c: seq<T>, b: seq<T>)
    requires Within(a + cut + c, b)
    ensures Within(a + c, b)
  {
    var at :| Embeds(a + cut + c, b, at);
    var at' := at[..|a|] + at[|a| + |cut|..];
    assert forall i :: 0 <= i < |a| ==> (a + cut + c)[i] == a[i];
    assert forall i :: 0 <= i < |c| ==> (a + cut + c)[|a| + |cut| + i] == c[i];
    assert Embeds(a + c, b, at');
  }

  lemma WithinMore<T>(a: seq<T>, b: seq<T>, more: seq<T>)
    requires Within(a, b)
    ensures Within(a + more, b + more)
  {
    var at :| Embeds(a, b, at);
    assert Embeds(a + more, b + more, at + seq(|more|, i => |b| + i));
  }

  lemma WithinNone<T>(b: seq<T>)
    ensures Within([], b)
  {
    assert Embeds([], b, []);
  }

  /** A run of the uplink: events are reported, posts resolve or reject. */
  datatype Turn = Reported(e: Event) | PostResolved | PostRejected

  /** The uplink with what has been reported and what has been in an acknowledged batch. */
  datatype World = World(uplink: Uplink, reported: seq<Event>, acked: seq<Event>)

  function Next(w: World, t: Turn): World {
    match t
    case Reported(e) => World(Report(w.uplink, e), w.reported + [e], w.acked)
    case PostResolved =>
      if w.uplink.flushing then World(Resolved(w.uplink), w.reported, w.acked + w.uplink.inflight) else w
    case PostRejected => if w.uplink.flushing then w.(uplink := Rejected(w.uplink)) else w
  }

  function Run(w: World, turns: seq<Turn>): World
    decreases |turns|
  {
    if turns == [] then w else Run(Next(w, turns[0]), turns[1..])
  }

  ghost predicate InOrder(w: World) {
    && |w.uplink.queue| <= QUEUE_MAX && |w.uplink.inflight| <= QUEUE_MAX
    && (!w.uplink.flushing ==> w.uplink.queue == [] && w.uplink.inflight == [])
    && Within(Prompts(w.acked) + Prompts(w.uplink.inflight) + Prompts(w.uplink.queue), Prompts(w.reported))
  }

  lemma FlushInOrder(w: World)
    requires |w.uplink.queue| <= QUEUE_MAX && |w.uplink.inflight| <= QUEUE_MAX
    requires !w.uplink.flushing ==> w.uplink.inflight == []
    requires Within(Prompts(w.acked) + Prompts(w.uplink.inflight) + Prompts(w.uplink.queue), Prompts(w.reported))
    ensures InOrder(w.(uplink := Flush(w.uplink)))
  {
    var a, q := Prompts(w.acked), Prompts(w.uplink.queue);
    assert Prompts([]) == [];
    assert a + [] + q == a + q + [];
    hide Filter, Within;
  }

  lemma ReportInOrder(w: World, e: Event)
    requires InOrder(w)
    ensures InOrder(Next(w, Reported(e)))
  {
    hide Prompts, Within, Embeds, FirstChatter, FirstOfPart;
    var sent := Prompts(w.acked) + Prompts(w.uplink.inflight);
    var q := w.uplink.queue;
    EnqueueKeepsPrompts(q, e);
    EnqueueAppends(w.reported, e);
    WithinMore(sent + Prompts(q), Prompts(w.reported), Prompts([e]));
    if |q| < QUEUE_MAX || FirstChatter(q) >= 0 {
      assert sent + Prompts(q) + Prompts([e]) == sent + (Prompts(q) + Prompts([e]));
    } else {
      assert sent + Prompts(q) + Prompts([e]) == sent + [q[0]] + (q[1..] + Prompts([e]));
      WithinCut(sent, [q[0]], q[1..] + Prompts([e]), Prompts(w.reported + [e]));
    }
    FlushInOrder(World(w.uplink.(queue := Enqueue(q, e)), w.reported + [e], w.acked));
  }

  lemma ResolvedInOrder(w: World)
    requires InOrder(w)
    ensures InOrder(Next(w, PostResolved))
  {
    var u := w.uplink;
    FilterConcat(w.acked, u.inflight, false);
    assert Prompts([]) == [];
    hide Filter, Within;
    if u.flushing {
      var sent := Prompts(w.acked) + Prompts(u.inflight);
      assert sent + [] + Prompts(u.queue) == sent + Prompts(u.queue);
      FlushInOrder(World(Uplink(u.queue, [], false), w.reported, w.acked + u.inflight));
    }
  }

  lemma TakePrompts(prompts: seq<Event>, chatter: seq<Event>, k: nat)
    requires forall i :: 0 <= i < |prompts| ==> !IsChatter(prompts[i])
    requires forall i :: 0 <= i < |chatter| ==> IsChatter(chatter[i])
    requires k <= |prompts| + |chatter|
    ensures Prompts((prompts + chatter)[..k]) == prompts[..if k < |prompts| then k else |prompts|]
  {
    hide Filter;
    var n := if k < |prompts| then k else |prompts|;
    FilterAll(prompts[..n], false);
    FilterNone(chatter[..k - n], false);
    FilterConcat(prompts[..n], chatter[..k - n], false);
    assert (prompts + chatter)[..k] == prompts[..n] + chatter[..k - n];
  }

  /** A failed batch keeps as many of its prompts, the oldest, as fit in front of what was queued meanwhile: eight in
      all. */
  lemma RequeuePrompts(batch: seq<Event>, q: seq<Event>) returns (n: nat)
    requires |q| <= QUEUE_MAX && |batch| <= QUEUE_MAX
    ensures |Requeue(batch, q)| <= QUEUE_MAX
    ensures var room := if |q| < 8 then 8 - |q| else 0; n == if |Prompts(batch)| < room then |Prompts(batch)| else room
    ensures n <= |Prompts(batch)| && Prompts(Requeue(batch, q)) == Prompts(batch)[..n] + Prompts(q)
  {
    hide Filter;
    var prompts, chatter := Prompts(batch), Filter(batch, true);
    var kept := prompts + chatter;
    n := 0;
    if |q| < REQUEUE_MAX {
      var k := if |kept| > REQUEUE_MAX - |q| then REQUEUE_MAX - |q| else |kept|;
      n := if k < |prompts| then k else |prompts|;
      TakePrompts(prompts, chatter, k);
      FilterConcat(kept[..k], q, false);
      assert kept[..|kept|] == kept;
    }
  }

  lemma CutMiddle(a: seq<Event>, b: seq<Event>, n: nat, q: seq<Event>, reported: seq<Event>)
    requires n <= |b| && Within(a + b + q, reported)
    ensures Within(a + [] + (b[..n] + q), reported)
  {
    hide Within;
    assert a + b + q == (a + b[..n]) + b[n..] + q;
    WithinCut(a + b[..n], b[n..], q, reported);
    assert (a + b[..n]) + q == a + [] + (b[..n] + q);
  }

  lemma RejectedInOrder(w: World)
    requires InOrder(w)
    ensures InOrder(Next(w, PostRejected))
  {
    var u := w.uplink;
    NoPrompts();
    hide Prompts, Requeue, Within;
    var n := RequeuePrompts(u.inflight, u.queue);
    CutMiddle(Prompts(w.acked), Prompts(u.inflight), n, Prompts(u.queue), Prompts(w.reported));
    if u.flushing {
      FlushInOrder(World(Uplink(Requeue(u.inflight, u.queue), [], false), w.reported, w.acked));
    }
  }

  lemma NoPrompts()
    ensures Prompts([]) == []
  {
  }

  /** Over any mix of reports and of posts that succeed or fail, the queue stays within 64, and the events
      somebody waits for that reach an acknowledged batch are a subsequence of those reported: in order, each
      at most once. */
  lemma {:induction false} UplinkInOrder(w: World, turns: seq<Turn>)
    requires InOrder(w)
    ensures InOrder(Run(w, turns)) && Within(Prompts(Run(w, turns).acked), Prompts(Run(w, turns).reported))
    decreases |turns|
  {
    hide InOrder, Prompts, Next, Within;
    if turns == [] {
      AckedWithin(w);
    } else {
      match turns[0] {
        case Reported(e) => ReportInOrder(w, e);
        case PostResolved => ResolvedInOrder(w);
        case PostRejected => RejectedInOrder(w);
      }
      UplinkInOrder(Next(w, turns[0]), turns[1..]);
    }
  }

  lemma AckedWithin(w: World)
    requires InOrder(w)
    ensures Within(Prompts(w.acked), Prompts(w.reported))
  {
    hide Prompts, Within;
    var a, rest := Prompts(w.acked), Prompts(w.uplink.inflight) + Prompts(w.uplink.queue);
    assert Prompts(w.acked) + Prompts(w.uplink.inflight) + Prompts(w.uplink.queue) == a + rest + [];
    WithinCut(a, rest, [], Prompts(w.reported));
    assert a + [] == a;
  }

  lemma StartsInOrder()
    ensures InOrder(World(Uplink([], [], false), [], []))
  {
    WithinNone<Event>([]);
    assert Prompts([]) + Prompts([]) + Prompts([]) == [];
  }

  /** From a plugin that has reported nothing. */
  lemma AcknowledgedInOrder(turns: seq<Turn>)
    ensures var w := Run(World(Uplink([], [], false), [], []), turns);
      |w.uplink.queue| <= QUEUE_MAX && Within(Prompts(w.acked), Prompts(w.reported))
  {
    hide Run, Prompts, Within;
    StartsInOrder();
    UplinkInOrder(World(Uplink([], [], false), [], []), turns);
  }

  // ---- nothing is lost

  /** The events that are not conversation, in order. */
  function Waited(s: seq<Event>): seq<Event> {
    if s == [] then []
    else Waited(s[..|s| - 1]) + (if s[|s| - 1].Message? then [] else [s[|s| - 1]])
  }

  lemma {:induction false} WaitedArePrompts(s: seq<Event>)
    ensures Waited(s) == Prompts(s)
  {
    if s != [] {
      WaitedArePrompts(s[..|s| - 1]);
    }
  }

  /** A queued update of a part gives way, in its place, to a newer one of the same part. */
  lemma NewerUpdateReplaces(q: seq<Event>, k: nat, e: Event)
    requires k < |q| && q[k].Message? && e.Message? && e.part != "" && q[k].part == e.part
    requires forall j :: 0 <= j < k && q[j].Message? ==> q[j].part != e.part
    ensures Enqueue(q, e) == q[k := e]
  {
    assert FirstOfPart(q, e.part) == k;
  }

  /** Event k is the oldest conversation event, or the oldest event when there is no conversation. */
  ghost predicate GoesFirst(q: seq<Event>, k: nat) {
    && k < |q| && (k > 0 ==> q[k].Message?)
    && forall j :: 0 <= j < |q| && q[j].Message? ==> k <= j && q[k].Message?
  }

  /** Any other event goes to the end, and when 64 are queued one goes for it. */
  lemma OthersQueueUp(q: seq<Event>, e: Event, k: nat)
    requires e.Message? && e.part != "" ==> forall j :: 0 <= j < |q| && q[j].Message? ==> q[j].part != e.part
    ensures |q| < 64 ==> Enqueue(q, e) == q + [e]
    ensures |q| >= 64 && GoesFirst(q, k) ==> Enqueue(q, e) == q[..k] + q[k + 1..] + [e]
  {
    if IsChatter(e) && e.part != "" {
      assert FirstOfPart(q, e.part) < 0;
    }
    if GoesFirst(q, k) {
      assert k == if FirstChatter(q) >= 0 then FirstChatter(q) else 0;
    }
  }

  /** No post fails, and no event is reported to a queue of 64 events that are all waited for. */
  predicate Calm(w: World, turns: seq<Turn>)
    decreases |turns|
  {
    turns == [] ||
    (&& turns[0] != PostRejected
     && (turns[0].Reported? ==>
           |w.uplink.queue| < 64 || exists k :: 0 <= k < |w.uplink.queue| && w.uplink.queue[k].Message?)
     && Calm(Next(w, turns[0]), turns[1..]))
  }

  /** Every event reported is acknowledged, on its way or queued, in that order; a post outstanding carries something,
      and without one nothing waits. */
  ghost predicate Whole(w: World) {
    && Waited(w.acked) + Waited(w.uplink.inflight) + Waited(w.uplink.queue) == Waited(w.reported)
    && (if w.uplink.flushing then w.uplink.inflight != [] else w.uplink.inflight == w.uplink.queue == [])
  }

  lemma {:induction false} WaitedConcat(a: seq<Event>, b: seq<Event>)
    ensures Waited(a + b) == Waited(a) + Waited(b)
  {
    WaitedArePrompts(a);
    WaitedArePrompts(b);
    WaitedArePrompts(a + b);
    FilterConcat(a, b, false);
  }

  lemma ReportWhole(w: World, e: Event)
    requires Whole(w)
    requires |w.uplink.queue| < 64 || exists k :: 0 <= k < |w.uplink.queue| && w.uplink.queue[k].Message?
    ensures Whole(Next(w, Reported(e)))
  {
    hide Waited, Prompts, Enqueue;
    var u, q' := w.uplink, Enqueue(w.uplink.queue, e);
    EnqueueKeepsPrompts(u.queue, e);
    EnqueueSome(u.queue, e);
    WaitedArePrompts(u.queue);
    WaitedArePrompts(q');
    WaitedArePrompts([e]);
    WaitedConcat(w.reported, [e]);
    NoneWaited();
    var sent := Waited(w.acked) + Waited(u.inflight);
    assert sent + (Waited(u.queue) + Waited([e])) == sent + Waited(u.queue) + Waited([e]);
    if !u.flushing {
      assert Waited(w.acked) + [] + Waited(q') == Waited(w.acked) + Waited(q') + [];
    }
  }

  lemma EnqueueSome(q: seq<Event>, e: Event)
    ensures Enqueue(q, e) != []
  {
  }

  lemma NoneWaited()
    ensures Waited([]) == []
  {
  }

  lemma ResolvedWhole(w: World)
    requires Whole(w)
    ensures Whole(Next(w, PostResolved))
  {
    hide Waited;
    var u := w.uplink;
    WaitedConcat(w.acked, u.inflight);
    NoneWaited();
    var sent := Waited(w.acked) + Waited(u.inflight);
    assert sent + [] + Waited(u.queue) == sent + Waited(u.queue) == sent + Waited(u.queue) + [];
  }

  /** Conservation: while no post fails and no report meets a queue full of events waited for, every such event reported
      is acknowledged, on its way or queued, in order and once. */
  lemma {:induction false} NothingLost(w: World, turns: seq<Turn>)
    requires Whole(w) && Calm(w, turns)
    ensures Whole(Run(w, turns))
    decreases |turns|
  {
    hide Whole, Next;
    if turns != [] {
      match turns[0] {
        case Reported(e) => ReportWhole(w, e);
        case PostResolved => ResolvedWhole(w);
        case PostRejected =>
      }
      NothingLost(Next(w, turns[0]), turns[1..]);
    }
  }

  /** From a plugin that has reported nothing. */
  lemma AllArrive(turns: seq<Turn>)
    requires Calm(World(Uplink([], [], false), [], []), turns)
    ensures Whole(Run(World(Uplink([], [], false), [], []), turns))
  {
    hide Run, Calm;
    NothingLost(World(Uplink([], [], false), [], []), turns);
  }

  // ---- applying decisions

  /** The requests forwarded and still open with the session of each, and the nonces applied, oldest first. */
  datatype Guard = Guard(pending: map<string, string>, seen: seq<string>)

  datatype Call = PermissionCall(session: string, request: string, action: string)
                  | PromptCall(session: string, text: string)

  /** What a decision comes to before Kilo answers. */
  datatype Verdict = UnknownRequest | Applied | Expired | Declined | Calls(call: Call)

  /** rememberNonce */
  function Remember(seen: seq<string>, nonce: string): seq<string> {
    var s := if nonce in seen then seen else seen + [nonce];
    if |s| > MAX_SEEN_NONCES then s[1..] else s
  }

  /** apply, with the clock in milliseconds. */
  function Apply(g: Guard, dec: Decision, nowMs: int): (Guard, Verdict) {
    if dec.request !in g.pending then (g, UnknownRequest)
    else if dec.nonce in g.seen then (g, Applied)
    else if dec.expires != 0 && nowMs > dec.expires * 1000 then (g, Expired)
    else
      (Guard(g.pending - {dec.request}, Remember(g.seen, dec.nonce)),
       if dec.action in {"once", "always", "reject"}
       then Calls(PermissionCall(g.pending[dec.request], dec.request, dec.action)) else Declined)
  }

  function ApplyPrompt(g: Guard, dec: Decision): (Guard, Verdict) {
    if dec.session == "" || dec.text == "" then (g, Declined)
    else if dec.nonce in g.seen then (g, Applied)
    else (g.(seen := Remember(g.seen, dec.nonce)), Calls(PromptCall(dec.session, dec.text)))
  }

  /** One decision of a downlink answer. */
  function Decide(g: Guard, dec: Decision, nowMs: int): (Guard, Verdict) {
    if dec.kind == "prompt" then ApplyPrompt(g, dec) else Apply(g, dec, nowMs)
  }

  /** Kilo asks or reports an answer; a decision arrives, as often as the network likes. */
  datatype Step = Asked(request: string, session: string) | Answered(request: string)
                | Decided(dec: Decision, nowMs: int)

  /** The guard with the requests asked, the decisions that passed its checks and the calls made. */
  datatype History = History(guard: Guard, asked: seq<string>, passed: seq<Decision>, calls: seq<Call>)

  function StepGuard(w: History, s: Step): History {
    match s
    case Asked(request, session) =>
      w.(guard := w.guard.(pending := w.guard.pending[request := session]), asked := w.asked + [request])
    case Answered(request) => w.(guard := w.guard.(pending := w.guard.pending - {request}))
    case Decided(dec, nowMs) =>
      var (g, v) := Decide(w.guard, dec, nowMs);
      History(g, w.asked, if g != w.guard then w.passed + [dec] else w.passed,
              if v.Calls? then w.calls + [v.call] else w.calls)
  }

  function RunGuard(w: History, steps: seq<Step>): History
    decreases |steps|
  {
    if steps == [] then w else RunGuard(StepGuard(w, steps[0]), steps[1..])
  }

  function AskedTimes(asked: seq<string>, request: string): nat {
    if asked == [] then 0
    else AskedTimes(asked[..|asked| - 1], request) + (if asked[|asked| - 1] == request then 1 else 0)
  }

  function CalledTimes(calls: seq<Call>, request: string): nat {
    if calls == [] then 0
    else
      var c := calls[|calls| - 1];
      CalledTimes(calls[..|calls| - 1], request) + (if c.PermissionCall? && c.request == request then 1 else 0)
  }

  /** Each ask pays for one call, and an open request has one left. */
  ghost predicate Paid(w: History, request: string) {
    CalledTimes(w.calls, request) + (if request in w.guard.pending then 1 else 0) <= AskedTimes(w.asked, request)
  }

  lemma StepPaid(w: History, s: Step, request: string)
    requires Paid(w, request)
    ensures Paid(StepGuard(w, s), request)
  {
    match s
    case Asked(r, session) => assert (w.asked + [r])[..|w.asked|] == w.asked;
    case Answered(r) =>
    case Decided(dec, nowMs) =>
      hide Remember;
      var (g, v) := Decide(w.guard, dec, nowMs);
      if v.Calls? {
        assert (w.calls + [v.call])[..|w.calls|] == w.calls;
      }
  }

  /** Whatever decisions arrive, however often, Kilo's permission call is made at most as often as the request was
      asked: at most once for distinct requests, and never for one this plugin did not forward. */
  lemma {:induction false} CallsPaid(w: History, steps: seq<Step>, request: string)
    requires Paid(w, request)
    ensures var w' := RunGuard(w, steps); CalledTimes(w'.calls, request) <= AskedTimes(w'.asked, request)
    decreases |steps|
  {
    hide StepGuard;
    if steps != [] {
      StepPaid(w, steps[0], request);
      CallsPaid(StepGuard(w, steps[0]), steps[1..], request);
    }
  }

  /** The nonces remembered are those of the last 512 decisions that passed, and a nonce passes again only once 512
      others have passed since. */
  ghost predicate Windowed(seen: seq<string>, passed: seq<Decision>) {
    && |seen| == (if |passed| < MAX_SEEN_NONCES then |passed| else MAX_SEEN_NONCES)
    && (forall i :: 0 <= i < |seen| ==> seen[i] == passed[|passed| - |seen| + i].nonce)
    && (forall i, j :: 0 <= i < j < |passed| && passed[i].nonce == passed[j].nonce ==> j - i > MAX_SEEN_NONCES)
  }

  lemma RememberWindowed(seen: seq<string>, passed: seq<Decision>, dec: Decision)
    requires Windowed(seen, passed) && dec.nonce !in seen
    ensures Windowed(Remember(seen, dec.nonce), passed + [dec])
  {
    var n := |passed|;
    forall i | n - |seen| <= i < n ensures passed[i].nonce != dec.nonce {
      assert seen[i - (n - |seen|)] == passed[i].nonce;
    }
    assert (seen + [dec.nonce])[|seen|] == dec.nonce;
  }

  lemma StepWindowed(w: History, s: Step)
    requires Windowed(w.guard.seen, w.passed)
    ensures Windowed(StepGuard(w, s).guard.seen, StepGuard(w, s).passed)
  {
    hide Windowed, Remember;
    if s.Decided? && s.dec.nonce !in w.guard.seen {
      RememberWindowed(w.guard.seen, w.passed, s.dec);
    }
  }

  lemma {:induction false} NoncesPassOnce(w: History, steps: seq<Step>)
    requires Windowed(w.guard.seen, w.passed)
    ensures Windowed(RunGuard(w, steps).guard.seen, RunGuard(w, steps).passed)
    ensures var passed := RunGuard(w, steps).passed; RepeatsAfter(passed, 512) && |RunGuard(w, steps).guard.seen| <= 512
    decreases |steps|
  {
    hide StepGuard;
    if steps != [] {
      hide Windowed, RepeatsAfter;
      StepWindowed(w, steps[0]);
      NoncesPassOnce(StepGuard(w, steps[0]), steps[1..]);
    }
  }

  /** Between two decisions with one nonce that passed, at least n others did. */
  ghost predicate RepeatsAfter(passed: seq<Decision>, n: nat) {
    forall i, j :: 0 <= i < j < |passed| && passed[i].nonce == passed[j].nonce ==> j - i > n
  }
}

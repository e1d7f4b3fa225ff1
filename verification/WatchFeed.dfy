/** What the hub publishes, as the phone passes it on (deliver in PrhService.kt) and the watch takes it in
    (inbox_received in main.c), over any run in which messages get lost and the user answers prompts. */
module WatchFeed {
  import opened HubAnswers
  import opened HubPrompts
  import opened HubRing
  import opened HubSpec
  import opened Ids
  import opened Wrappers
  import W = Watch

  // ---- identifiers fit their field

  function PowerOfTen(k: nat): nat {
    if k == 0 then 1 else 10 * PowerOfTen(k - 1)
  }

  lemma {:induction false} DecimalLength(n: nat, k: nat)
    requires 0 < k && n < PowerOfTen(k)
    ensures |Decimal(n)| <= k
  {
    if n >= 10 {
      DecimalLength(n / 10, k - 1);
    }
  }

  /** A 64-bit number has at most twenty digits, so the identifier of any envelope fits its field on the watch. */
  lemma IssuedFits(id: string, n: nat)
    requires Issued(id, n) && n < TWO64
    ensures |id| <= 24 < W.MAX_ID
  {
    var m: nat :| m <= n && id == EventId(m);
    assert PowerOfTen(5) == 100000;
    assert PowerOfTen(10) == 10000000000;
    assert PowerOfTen(15) == 1000000000000000;
    assert PowerOfTen(20) == 100000000000000000000;
    DecimalLength(m, 20);
  }

  // ---- the run

  function EntryOf(env: Envelope): (e: W.Entry)
    ensures e.id == env.id
  {
    W.Entry(env.id, if env.kind == Perm then 1 else 2, Truncate(env.title, 32), W.Parse(W.Join(env.choices)), false)
  }

  /** inbox_received, on the queue. Idle and error notices are never queued, and conversation entries stay on the
      phone. */
  function Inbox(q: seq<W.Entry>, env: Envelope): seq<W.Entry> {
    match env.kind
    case Perm => W.Push(q, EntryOf(env))
    case Ques => W.Push(q, EntryOf(env))
    case Gone => W.Retract(q, env.id)
    case _ => q
  }

  /** The next envelope of the log reaches the watch or is lost on the way, or the watch drops an entry once its
      answer is acknowledged. */
  datatype Move = Pass(arrives: bool) | Dismiss(at: nat)

  /** The watch: its queue and how much of the log has been passed on. */
  datatype State = State(q: seq<W.Entry>, seen: nat)

  function Next(s: State, log: seq<Envelope>, m: Move): State {
    match m
    case Pass(arrives) =>
      if s.seen >= |log| then s else State(if arrives then Inbox(s.q, log[s.seen]) else s.q, s.seen + 1)
    case Dismiss(at) => if at < |s.q| then s.(q := W.Without(s.q, at)) else s
  }

  function Feed(s: State, log: seq<Envelope>, moves: seq<Move>): State
    decreases |moves|
  {
    if moves == [] then s else Feed(Next(s, log, moves[0]), log, moves[1..])
  }

  // ---- what holds of the queue in every run

  /** At most eight entries, under distinct identifiers handed out so far. */
  ghost predicate Orderly(q: seq<W.Entry>, n: nat) {
    && |q| <= W.MAX_QUEUE
    && (forall i :: 0 <= i < |q| ==> Issued(q[i].id, n))
    && (forall i, j :: 0 <= i < j < |q| ==> q[i].id != q[j].id)
  }

  ghost predicate Off(q: seq<W.Entry>, id: string) {
    forall i :: 0 <= i < |q| ==> q[i].id != id
  }

  /** An envelope carries the identifier of its own number, or it is the gone envelope of an earlier one. */
  ghost predicate Labelled(env: Envelope, n: nat) {
    env.id == EventId(n + 1) || (env.kind == Gone && Issued(env.id, n))
  }

  lemma PublishedLabelled(h: Hub, op: Op)
    requires Sound(h) && Numbers(op)
    ensures |Published(h, op)| == Step(h, op).seqNo - h.seqNo
    ensures Published(h, op) != [] ==> Labelled(Published(h, op)[0], h.seqNo)
  {
    hide EventId, Publish, TrackPrompt, OnStatus, ClearPrompt, PermEnvelope;
    if op.OpIngest? && op.ev.Replied? && Published(h, op) != [] {
      var id := h.byRequest[op.ev.request];
      assert InRing(h, h.open[id].env);
    }
  }

  lemma {:induction false} LogLabelled(h: Hub, ops: seq<Op>)
    requires Sound(h) && AllNumber(ops)
    ensures forall i :: 0 <= i < |LogOf(h, ops)| ==> Labelled(LogOf(h, ops)[i], h.seqNo + i)
    decreases |ops|
  {
    hide Sound, Step, Published, Labelled;
    if ops != [] {
      PublishedLabelled(h, ops[0]);
      StepSound(h, ops[0]);
      LogLabelled(Step(h, ops[0]), ops[1..]);
    }
  }

  lemma IssuedLater(id: string, m: nat, n: nat)
    requires Issued(id, m) && m <= n
    ensures Issued(id, n)
  {
    hide EventId;
  }

  lemma WithoutOrderly(q: seq<W.Entry>, n: nat, at: nat)
    requires Orderly(q, n) && at < |q|
    ensures Orderly(W.Without(q, at), n)
    ensures forall id :: Off(W.Without(q, at), id) <==> Off(q, id) || id == q[at].id
  {
    hide Issued;
    var q' := W.Without(q, at);
    forall id
      ensures Off(q', id) <==> Off(q, id) || id == q[at].id
    {
      if Off(q', id) && id != q[at].id {
        forall i | 0 <= i < |q|
          ensures q[i].id != id
        {
          if i < at {
            assert q'[i] == q[i];
          } else if i > at {
            assert q'[i - 1] == q[i];
          }
        }
      }
    }
  }

  /** A gone message that arrives takes its prompt off and leaves every other. */
  lemma RetractTakesOff(q: seq<W.Entry>, n: nat, id: string)
    requires Orderly(q, n)
    ensures Orderly(W.Retract(q, id), n) && Off(W.Retract(q, id), id)
    ensures forall other :: other != id ==> (Off(W.Retract(q, id), other) <==> Off(q, other))
  {
    hide Issued, W.Without;
    var at := W.Find(q, id);
    if at >= 0 {
      WithoutOrderly(q, n, at);
    }
  }

  /** The other entries, in their order. */
  function Others(q: seq<W.Entry>, id: string): seq<W.Entry> {
    if q == [] then []
    else
      var last := q[|q| - 1];
      Others(q[..|q| - 1], id) + (if last.id != id then [last] else [])
  }

  lemma OthersSnoc(q: seq<W.Entry>, e: W.Entry, id: string)
    ensures Others(q + [e], id) == Others(q, id) + (if e.id != id then [e] else [])
  {
    assert (q + [e])[..|q|] == q;
  }

  lemma RetractSnoc(q: seq<W.Entry>, e: W.Entry, id: string)
    ensures W.Retract(q + [e], id)
         == if !Off(q, id) then W.Retract(q, id) + [e] else if e.id == id then q else q + [e]
    ensures Off(q, id) ==> W.Retract(q, id) == q
  {
    hide W.Find;
    var all := q + [e];
    var at, before := W.Find(all, id), W.Find(q, id);
    assert forall k :: 0 <= k < |q| ==> all[k] == q[k];
    assert all[|q|] == e;
    if !Off(q, id) {
      assert at == before;
      assert W.Without(all, at) == W.Without(q, at) + [e];
    } else if e.id == id {
      assert at == |q|;
      assert W.Without(all, at) == q;
    }
  }

  /** Taking off the first entry with an identifier takes off every one, when there is one at most. */
  lemma {:induction false} RetractKeepsOthers(q: seq<W.Entry>, id: string)
    requires forall i, j :: 0 <= i < j < |q| ==> q[i].id != q[j].id
    ensures W.Retract(q, id) == Others(q, id)
  {
    if q != [] {
      hide W.Retract, Others;
      var most, e := q[..|q| - 1], q[|q| - 1];
      assert q == most + [e];
      assert !Off(most, id) ==> e.id != id;
      RetractKeepsOthers(most, id);
      RetractSnoc(most, e, id);
      OthersSnoc(most, e, id);
    }
  }

  /** A prompt under the next identifier is shown under that identifier, whole, in place of the oldest of eight. */
  lemma PushShows(q: seq<W.Entry>, n: nat, e: W.Entry)
    requires Orderly(q, n) && e.id == EventId(n + 1) && n + 1 < TWO64
    ensures W.Push(q, e) == (if |q| >= W.MAX_QUEUE then q[1..] else q) + [e] && Orderly(W.Push(q, e), n + 1)
    ensures forall id :: id != e.id && Off(q, id) ==> Off(W.Push(q, e), id)
  {
    hide EventId, Issued;
    IssuedLast(n + 1);
    IssuedFits(e.id, n + 1);
    assert e.(id := Truncate(e.id, W.MAX_ID - 1)) == e;
    forall i | 0 <= i < |q|
      ensures Issued(q[i].id, n + 1) && q[i].id != e.id
    {
      IssuedGrows(q[i].id, n);
    }
  }

  /** One move keeps the queue orderly, and what was off the watch stays off unless it is the prompt that
      arrives. */
  lemma NextOrderly(s: State, log: seq<Envelope>, m: Move)
    requires |log| < TWO64 && (forall i :: 0 <= i < |log| ==> Labelled(log[i], i))
    requires s.seen <= |log| && Orderly(s.q, s.seen)
    ensures var s' := Next(s, log, m);
      && s.seen <= s'.seen <= |log| && Orderly(s'.q, s'.seen)
      && forall id :: Issued(id, s.seen) && Off(s.q, id) ==> Off(s'.q, id)
  {
    hide EventId, Issued, Orderly, Off, W.Retract, W.Push, W.Without;
    if m.Dismiss? {
      if m.at < |s.q| {
        WithoutOrderly(s.q, s.seen, m.at);
      }
    } else if s.seen < |log| {
      OrderlyLater(s.q, s.seen);
      var env := log[s.seen];
      if m.arrives && env.kind == Gone {
        RetractTakesOff(s.q, s.seen + 1, env.id);
      } else if m.arrives && env.kind in {Perm, Ques} {
        PushShows(s.q, s.seen, EntryOf(env));
        forall id | Issued(id, s.seen)
          ensures id != env.id
        {
          IssuedGrows(id, s.seen);
        }
      }
    }
  }

  lemma OrderlyLater(q: seq<W.Entry>, n: nat)
    requires Orderly(q, n)
    ensures Orderly(q, n + 1)
  {
    hide Issued;
    forall i | 0 <= i < |q|
      ensures Issued(q[i].id, n + 1)
    {
      IssuedLater(q[i].id, n, n + 1);
    }
  }

  lemma {:induction false} FeedOrderly(s: State, log: seq<Envelope>, moves: seq<Move>, id: string)
    requires |log| < TWO64 && (forall i :: 0 <= i < |log| ==> Labelled(log[i], i))
    requires s.seen <= |log| && Orderly(s.q, s.seen)
    ensures var s' := Feed(s, log, moves);
      && s.seen <= s'.seen <= |log| && Orderly(s'.q, s'.seen)
      && (Issued(id, s.seen) && Off(s.q, id) ==> Off(s'.q, id))
    decreases |moves|
  {
    hide Next, Orderly, Labelled, Issued, Off;
    if moves != [] {
      var s1 := Next(s, log, moves[0]);
      NextOrderly(s, log, moves[0]);
      FeedOrderly(s1, log, moves[1..], id);
      if Issued(id, s.seen) {
        IssuedLater(id, s.seen, s1.seen);
      }
    }
  }

  // ---- the main results

  /** Whatever the hub does and whatever is lost on the way: a prompt that arrives is shown under the identifier
      by which the hub knows it. Whatever arrives or is dismissed after it, its gone message takes off that entry and
      keeps the others as they are; coming at once, it takes back exactly what the prompt added. */
  lemma GoneTakesBack(ringSize: int, ops: seq<Op>, before: seq<Move>, between: seq<Move>)
    requires AllNumber(ops) && |LogOf(New(ringSize), ops)| < TWO64
    requires var log := LogOf(New(ringSize), ops); var s := Feed(State([], 0), log, before);
      s.seen < |log| && log[s.seen].kind in {Perm, Ques}
    ensures var log := LogOf(New(ringSize), ops); var s := Feed(State([], 0), log, before);
      var kept := if |s.q| >= W.MAX_QUEUE then s.q[1..] else s.q;
      var s' := Next(s, log, Pass(true));
      s'.q == kept + [EntryOf(log[s.seen])] && W.Retract(s'.q, log[s.seen].id) == kept
    ensures var log := LogOf(New(ringSize), ops); var s := Feed(State([], 0), log, before);
      var s' := Feed(Next(s, log, Pass(true)), log, between);
      s'.seen < |log| && log[s'.seen].kind == Gone && log[s'.seen].id == log[s.seen].id ==>
        Next(s', log, Pass(true)).q == Others(s'.q, log[s.seen].id)
  {
    hide LogOf, Feed, Orderly, Issued, EventId, EntryOf, Others;
    var log := LogOf(New(ringSize), ops);
    var s := Feed(State([], 0), log, before);
    FromNothing(ringSize, ops, before);
    PushShows(s.q, s.seen, EntryOf(log[s.seen]));
    NotYet(s.q, s.seen);
    IssuedLast(s.seen + 1);
    IssuedFits(log[s.seen].id, s.seen + 1);
    W.RetractUndoesPush(s.q, EntryOf(log[s.seen]));
    var s1 := Next(s, log, Pass(true));
    var s2 := Feed(s1, log, between);
    FeedOrderly(s1, log, between, "");
    OrderlyDistinct(s2.q, s2.seen);
    RetractKeepsOthers(s2.q, log[s.seen].id);
  }

  lemma OrderlyDistinct(q: seq<W.Entry>, n: nat)
    requires Orderly(q, n)
    ensures forall i, j :: 0 <= i < j < |q| ==> q[i].id != q[j].id
  {
    hide Issued;
  }

  lemma NotYet(q: seq<W.Entry>, n: nat)
    requires Orderly(q, n)
    ensures |q| <= W.MAX_QUEUE && forall i :: 0 <= i < |q| ==> q[i].id != EventId(n + 1)
  {
    hide Issued, EventId;
    forall i | 0 <= i < |q|
      ensures q[i].id != EventId(n + 1)
    {
      IssuedGrows(q[i].id, n);
    }
  }

  lemma FromNothing(ringSize: int, ops: seq<Op>, moves: seq<Move>)
    requires AllNumber(ops) && |LogOf(New(ringSize), ops)| < TWO64
    ensures var log := LogOf(New(ringSize), ops); var s := Feed(State([], 0), log, moves);
      && s.seen <= |log| && Orderly(s.q, s.seen) && forall i :: 0 <= i < |log| ==> Labelled(log[i], i)
  {
    hide LogOf, Feed, Issued, EventId, Labelled;
    NewSound(ringSize);
    LogLabelled(New(ringSize), ops);
    FeedOrderly(State([], 0), LogOf(New(ringSize), ops), moves, "");
  }

  /** Once its gone message has arrived, the watch never shows the prompt again, over any run. */
  lemma SettledStaysOff(ringSize: int, ops: seq<Op>, before: seq<Move>, after: seq<Move>)
    requires AllNumber(ops) && |LogOf(New(ringSize), ops)| < TWO64
    requires var log := LogOf(New(ringSize), ops); var s := Feed(State([], 0), log, before);
      s.seen < |log| && log[s.seen].kind == Gone
    ensures var log := LogOf(New(ringSize), ops); var s := Feed(State([], 0), log, before);
      Off(Feed(Next(s, log, Pass(true)), log, after).q, log[s.seen].id)
  {
    hide LogOf, Feed, Orderly, Issued, EventId, Off;
    var log := LogOf(New(ringSize), ops);
    var s := Feed(State([], 0), log, before);
    var s' := Next(s, log, Pass(true));
    FromNothing(ringSize, ops, before);
    RetractTakesOff(s.q, s.seen, log[s.seen].id);
    OrderlyLater(s'.q, s.seen);
    LabelledIssued(log[s.seen], s.seen);
    FeedOrderly(s', log, after, log[s.seen].id);
  }

  lemma LabelledIssued(env: Envelope, n: nat)
    requires Labelled(env, n)
    ensures Issued(env.id, n + 1)
  {
    hide EventId;
    IssuedLast(n + 1);
    if Issued(env.id, n) {
      IssuedLater(env.id, n, n + 1);
    }
  }
}

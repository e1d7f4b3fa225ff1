/** The rule by which api/internal/hub/hub.go makes room for a session, on the values of its registry: one pass
    picks the session to drop, in whatever order the map is walked, and the passes repeat until there is room. */
module Registry {
  import opened Wrappers
  import opened Ids
  import opened HubSpec
  import opened HubRing

  type View = map<string, Sess>

  /** Without an unanswered prompt. */
  predicate Evictable(view: View, id: string) {
    id in view && view[id].pendingPrompt == ""
  }

  /** Least recently updated among those. */
  ghost predicate LeastRecent(view: View, id: string) {
    Evictable(view, id) && forall o :: Evictable(view, o) ==> view[id].updated <= view[o].updated
  }

  function Prompted(view: View): set<string> {
    set id | id in view && view[id].pendingPrompt != ""
  }

  // ---- one pass

  /** The body of the inner loop. The empty identifier doubles as "none so far". */
  function Visit(view: View, oldest: string, id: string): (r: string)
    requires oldest != "" ==> Evictable(view, oldest)
    ensures r != "" ==> Evictable(view, r)
  {
    if Evictable(view, id) && (oldest == "" || view[id].updated < view[oldest].updated) then id else oldest
  }

  /** The pass, over one order of the registry. */
  function Pass(view: View, order: seq<string>): (r: string)
    ensures r != "" ==> Evictable(view, r)
  {
    if order == [] then "" else Visit(view, Pass(view, order[..|order| - 1]), order[|order| - 1])
  }

  /** Each of these, once. */
  ghost predicate Lists(ids: set<string>, order: seq<string>) {
    && (forall id :: id in ids <==> id in order)
    && (forall i, j :: 0 <= i < j < |order| ==> order[i] != order[j])
  }

  ghost predicate Walks(view: View, order: seq<string>) {
    Lists(view.Keys, order)
  }

  lemma ListsNone()
    ensures Lists({}, [])
  {
  }

  lemma ListsMore(ids: set<string>, order: seq<string>, id: string)
    requires Lists(ids, order) && id !in ids
    ensures Lists(ids + {id}, order + [id])
  {
  }

  lemma PassNone(view: View)
    ensures Pass(view, []) == ""
  {
  }

  lemma PassMore(view: View, order: seq<string>, id: string)
    ensures Pass(view, order + [id]) == Visit(view, Pass(view, order), id)
  {
    assert (order + [id])[..|order|] == order;
  }

  /** A session with the empty identifier is in the way: it may go, so may another, and it is the strictly oldest. */
  ghost predicate Hidden(view: View) {
    && Evictable(view, "") && (exists id :: id != "" && Evictable(view, id))
    && forall id :: id != "" && Evictable(view, id) ==> view[""].updated < view[id].updated
  }

  lemma {:induction false} PassFinds(view: View, order: seq<string>, id: string)
    requires id in order && id != "" && LeastRecent(view, id)
    ensures Pass(view, order) != "" && LeastRecent(view, Pass(view, order))
  {
    var most := order[..|order| - 1];
    if id in most {
      PassFinds(view, most, id);
    } else {
      assert order == most + [order[|order| - 1]];
    }
  }

  /** A pass over the whole registry finds a least recent session if and only if there is another session than the
      one with the empty identifier to drop and that one is not in the way. */
  lemma PassFindsIff(view: View, order: seq<string>)
    requires Walks(view, order)
    ensures (Pass(view, order) != "" && LeastRecent(view, Pass(view, order)))
       <==> (!Hidden(view) && exists id :: id != "" && Evictable(view, id))
  {
    if !Hidden(view) && exists id :: id != "" && Evictable(view, id) {
      var id := LeastNamed(view);
      PassFinds(view, order, id);
    }
  }

  /** When the empty identifier is not in the way, the least recent of the others is the least recent of all. */
  lemma LeastNamed(view: View) returns (least: string)
    requires !Hidden(view) && exists id :: id != "" && Evictable(view, id)
    ensures least != "" && LeastRecent(view, least)
  {
    var named := set id | id in view && id != "" && Evictable(view, id);
    var some :| some != "" && Evictable(view, some);
    least := Least(view, named, some);
    if Evictable(view, "") {
      var other :| other != "" && Evictable(view, other) && view[other].updated <= view[""].updated;
      assert other in named;
    }
    forall o | Evictable(view, o) ensures view[least].updated <= view[o].updated {
      assert o != "" ==> o in named;
    }
  }

  lemma {:induction false} Least(view: View, ids: set<string>, id: string) returns (least: string)
    requires id in ids && ids <= view.Keys
    ensures least in ids && forall o :: o in ids ==> view[least].updated <= view[o].updated
    decreases |ids|
  {
    least := id;
    var rest := ids - {id};
    assert ids == rest + {id};
    if rest != {} {
      var o :| o in rest;
      var other := Least(view, rest, o);
      if view[other].updated < view[id].updated {
        least := other;
      }
    }
  }

  /** With the empty identifier in the way, what a pass finds is what it would find in the part of the walk that comes
      after it; the rest of the registry counts for nothing. */
  lemma {:induction false} HiddenPass(view: View, before: seq<string>, after: seq<string>)
    requires Hidden(view)
    ensures Pass(view, before + [""] + after) == Pass(view, after)
  {
    var order := before + [""] + after;
    if after == [] {
      assert order[..|order| - 1] == before;
    } else {
      HiddenPass(view, before, after[..|after| - 1]);
      assert order[..|order| - 1] == before + [""] + after[..|after| - 1];
    }
  }

  /** So a walk that meets it last finds nothing, and the registry stays as full as it is. */
  lemma HiddenStops(view: View, before: seq<string>)
    requires Hidden(view)
    ensures Pass(view, before + [""]) == "" && exists id :: id != "" && Evictable(view, id)
  {
    HiddenPass(view, before, []);
    assert before + [""] + [] == before + [""];
  }

  // ---- the loop

  /** What the loop may take out: sessions without a prompt; and, unless the empty identifier is in the way of what is
      left, none more recent than any it leaves. */
  ghost predicate Evicted(view: View, evicted: set<string>, left: View) {
    && left == view - evicted
    && (forall e :: e in evicted ==> e != "" && Evictable(view, e))
    && (!Hidden(left) ==>
         forall e, r :: e in evicted && r != "" && Evictable(left, r) ==> view[e].updated <= left[r].updated)
  }

  lemma NoneYet(view: View)
    ensures Evicted(view, {}, view)
  {
  }

  /** One more, as a pass picks it. */
  lemma EvictOne(view: View, evicted: set<string>, left: View, order: seq<string>)
    requires Evicted(view, evicted, left) && Walks(left, order) && Pass(left, order) != ""
    ensures Evicted(view, evicted + {Pass(left, order)}, left - {Pass(left, order)})
  {
    hide Pass, Walks;
    var id := Pass(left, order);
    PassFindsIff(left, order);
    assert left - {id} == view - (evicted + {id});
    if !Hidden(left - {id}) {
      forall e, r | e in evicted + {id} && r != "" && Evictable(left - {id}, r)
        ensures view[e].updated <= (left - {id})[r].updated
      {
        if Hidden(left) {
          StaysHidden(left, id, r);
        }
        assert Evictable(left, r);
      }
    }
  }

  /** Once in the way, always in the way, until nothing else is left to drop. */
  lemma StaysHidden(left: View, id: string, r: string)
    requires Hidden(left) && id != "" && r != "" && Evictable(left - {id}, r)
    ensures Hidden(left - {id})
  {
    forall o | o != "" && Evictable(left - {id}, o) ensures Evictable(left, o) {
    }
  }

  /** What dropping sessions leaves. */
  ghost predicate Part(left: View, view: View) {
    left.Keys <= view.Keys && forall r :: r in left ==> left[r] == view[r]
  }

  /** Passes that each found a session to drop, over these walks of what was left at the time. */
  ghost predicate Draining(view: View, left: View, max: nat, walks: seq<seq<string>>)
    decreases |walks|
  {
    if walks == [] then left == view
    else
      && |view| >= max && Walks(view, walks[0]) && Pass(view, walks[0]) != ""
      && Draining(view - {Pass(view, walks[0])}, left, max, walks[1..])
  }

  /** The loop from end to end: it stops when there is room or when a pass finds nothing. */
  ghost predicate Drained(view: View, left: View, max: nat, walks: seq<seq<string>>) {
    || (Draining(view, left, max, walks) && |left| < max)
    || (walks != [] && Draining(view, left, max, walks[..|walks| - 1]) && |left| >= max
        && Walks(left, walks[|walks| - 1]) && Pass(left, walks[|walks| - 1]) == "")
  }

  ghost predicate Drains(view: View, left: View, max: nat) {
    exists walks :: Drained(view, left, max, walks)
  }

  lemma {:induction false} DrainMore(view: View, left: View, max: nat, walks: seq<seq<string>>, order: seq<string>)
    requires Draining(view, left, max, walks) && |left| >= max && Walks(left, order) && Pass(left, order) != ""
    ensures Draining(view, left - {Pass(left, order)}, max, walks + [order])
    decreases |walks|
  {
    hide Walks, Pass;
    if walks == [] {
      assert [order][1..] == [];
    } else {
      DrainMore(view - {Pass(view, walks[0])}, left, max, walks[1..], order);
      assert (walks + [order])[1..] == walks[1..] + [order];
    }
  }

  lemma DrainRoom(view: View, left: View, max: nat, walks: seq<seq<string>>)
    requires Draining(view, left, max, walks) && |left| < max
    ensures Drained(view, left, max, walks)
  {
  }

  lemma DrainStops(view: View, left: View, max: nat, walks: seq<seq<string>>, order: seq<string>)
    requires Draining(view, left, max, walks) && |left| >= max && Walks(left, order) && Pass(left, order) == ""
    ensures Drained(view, left, max, walks + [order])
  {
    hide Draining, Walks, Pass;
    assert (walks + [order])[..|walks|] == walks;
  }

  lemma DrainFirst(view: View, left: View, max: nat, order: seq<string>, walks: seq<seq<string>>)
    requires |view| >= max && Walks(view, order) && Pass(view, order) != ""
    requires Draining(view - {Pass(view, order)}, left, max, walks)
    ensures Draining(view, left, max, [order] + walks)
  {
    hide Walks, Pass;
    assert ([order] + walks)[1..] == walks;
  }

  lemma DrainedFirst(view: View, left: View, max: nat, order: seq<string>, walks: seq<seq<string>>)
    requires |view| >= max && Walks(view, order) && Pass(view, order) != ""
    requires Drained(view - {Pass(view, order)}, left, max, walks)
    ensures Drained(view, left, max, [order] + walks)
  {
    hide Walks, Pass, Draining;
    var id := Pass(view, order);
    if Draining(view - {id}, left, max, walks) && |left| < max {
      DrainFirst(view, left, max, order, walks);
    } else {
      DrainFirst(view, left, max, order, walks[..|walks| - 1]);
      assert ([order] + walks)[..|walks|] == [order] + walks[..|walks| - 1];
    }
  }

  // ---- the bound

  /** The named sessions that may go and are no more recent than the one with the empty identifier. */
  function Older(view: View): set<string> {
    set id | id in view && id != "" && Evictable(view, id) && "" in view && view[id].updated <= view[""].updated
  }

  /** Before the loop starts: there is room, or the empty identifier cannot go, or the sessions that go before it are
      enough to make room. */
  predicate Roomy(view: View, max: nat) {
    |view| < max || !Evictable(view, "") || |Older(view)| > |view| - max
  }

  /** None that went is more recent than any that stayed and could have gone. */
  ghost predicate Ranked(view: View, left: View) {
    && left.Keys <= view.Keys
    && forall e, r :: e in view && e !in left && Evictable(left, r) ==> view[e].updated <= left[r].updated
  }

  lemma Smaller(view: View, id: string)
    requires id in view
    ensures |view - {id}| == |view| - 1
  {
    assert |view| == |view.Keys| && |view - {id}| == |(view - {id}).Keys|;
    assert (view - {id}).Keys == view.Keys - {id};
  }

  /** A pass from a roomy registry drops a least recent session and leaves it roomy. */
  lemma RoomyPass(view: View, max: nat, order: seq<string>)
    requires Roomy(view, max) && |view| >= max && Walks(view, order) && Pass(view, order) != ""
    ensures var id := Pass(view, order); var left := view - {id};
      LeastRecent(view, id) && Roomy(left, max) && Prompted(left) == Prompted(view) && |left| == |view| - 1
  {
    hide Pass, Walks;
    PassFindsIff(view, order);
    var id := Pass(view, order);
    Smaller(view, id);
    if Evictable(view, "") {
      NotHidden(view);
      assert Older(view - {id}) == Older(view) - {id};
    }
  }

  lemma NotHidden(view: View)
    requires Older(view) != {}
    ensures !Hidden(view) && exists id :: id != "" && Evictable(view, id)
  {
    var id :| id in Older(view);
    assert id != "" && Evictable(view, id);
  }

  lemma {:induction false} RoomyDrains(view: View, left: View, max: nat, walks: seq<seq<string>>)
    requires Draining(view, left, max, walks) && Roomy(view, max)
    ensures Roomy(left, max) && Prompted(left) == Prompted(view) && Ranked(view, left) && Part(left, view)
    decreases |walks|
  {
    hide Pass, Walks, Roomy, Older, Prompted, Ranked, LeastRecent;
    if walks == [] {
      RankedSelf(view);
    } else {
      RoomyPass(view, max, walks[0]);
      RoomyDrains(view - {Pass(view, walks[0])}, left, max, walks[1..]);
      RankedFirst(view, Pass(view, walks[0]), left);
    }
  }

  lemma RankedSelf(view: View)
    ensures Ranked(view, view)
  {
  }

  lemma RankedFirst(view: View, id: string, left: View)
    requires LeastRecent(view, id) && Ranked(view - {id}, left) && Part(left, view - {id})
    ensures Ranked(view, left)
  {
    forall e, r | e in view && e !in left && Evictable(left, r) ensures view[e].updated <= left[r].updated {
      assert Evictable(view, r) && left[r] == view[r];
      if e != id {
        assert e in view - {id};
      }
    }
  }

  /** From a roomy registry the loop, over any walks, makes room or drops every session without a prompt, the least
      recent first. */
  lemma RoomySuffices(view: View, left: View, max: nat)
    requires Drains(view, left, max) && Roomy(view, max)
    ensures (|left| + 1 <= max || |left| <= |Prompted(view)|) && Ranked(view, left)
  {
    var walks :| Drained(view, left, max, walks);
    hide Pass, Walks, Ranked, Draining;
    if |left| < max {
      DrainedRoomy(view, left, max, walks);
    } else {
      RoomyDrains(view, left, max, walks[..|walks| - 1]);
      RoomyStops(left, max, walks[|walks| - 1]);
      assert |left| == |left.Keys|;
    }
  }

  /** A pass over a roomy registry finds nothing only when every session has a prompt. */
  lemma RoomyStops(left: View, max: nat, order: seq<string>)
    requires Roomy(left, max) && |left| >= max && Walks(left, order) && Pass(left, order) == ""
    ensures Prompted(left) == left.Keys
  {
    hide Pass, Walks, Older;
    PassFindsIff(left, order);
    if Evictable(left, "") {
      NotHidden(left);
    }
    forall id | id in left ensures left[id].pendingPrompt != "" {
      assert !Evictable(left, id);
    }
  }

  lemma DrainsRoomy(view: View, left: View, max: nat, walks: seq<seq<string>>)
    requires Drained(view, left, max, walks)
    ensures Drains(view, left, max)
    ensures Roomy(view, max) ==> Ranked(view, left) && (|left| < max || |left| <= |Prompted(view)|)
  {
    hide Drained, Roomy, Ranked;
    assert Drains(view, left, max);
    if Roomy(view, max) {
      RoomySuffices(view, left, max);
    }
  }

  lemma DrainedRoomy(view: View, left: View, max: nat, walks: seq<seq<string>>)
    requires Drained(view, left, max, walks) && |left| < max && Roomy(view, max)
    ensures Ranked(view, left)
  {
    hide Pass, Walks, Ranked, Draining, Roomy;
    RoomyDrains(view, left, max, walks);
  }

  lemma {:induction false} SomeOrder(ids: set<string>) returns (order: seq<string>)
    ensures Lists(ids, order)
    decreases |ids|
  {
    if ids == {} {
      order := [];
    } else {
      var id :| id in ids;
      order := SomeOrder(ids - {id});
      ListsMore(ids - {id}, order, id);
      order := order + [id];
      assert ids - {id} + {id} == ids;
    }
  }

  /** With nothing named that goes before it, an evictable session with the empty identifier stops the loop: a walk that
      meets it last finds nothing. */
  lemma Stalls(view: View) returns (order: seq<string>)
    requires Evictable(view, "") && Older(view) == {}
    ensures Walks(view, order) && Pass(view, order) == ""
  {
    var before := SomeOrder(view.Keys - {""});
    ListsMore(view.Keys - {""}, before, "");
    assert view.Keys - {""} + {""} == view.Keys;
    order := before + [""];
    hide Pass, Lists;
    if exists id :: id != "" && Evictable(view, id) {
      forall id | id != "" && Evictable(view, id) ensures view[""].updated < view[id].updated {
        assert id !in Older(view);
      }
      HiddenStops(view, before);
    } else {
      assert Pass(view, order) != "" ==> Evictable(view, Pass(view, order));
    }
  }

  lemma MorePrompts(view: View)
    requires Evictable(view, "")
    ensures |Prompted(view)| < |view|
  {
    SubsetSize(Prompted(view) + {""}, view.Keys);
    assert |view| == |view.Keys|;
  }

  /** From a registry that is not roomy some walks leave it over the cap, with sessions that could go. */
  lemma {:induction false} Overruns(view: View, max: nat) returns (left: View, walks: seq<seq<string>>)
    requires !Roomy(view, max)
    ensures Drained(view, left, max, walks) && |left| >= max && |left| > |Prompted(view)|
    decreases |view|
  {
    hide Pass, Walks, Draining;
    if Older(view) == {} {
      var order := Stalls(view);
      MorePrompts(view);
      left, walks := view, [] + [order];
      DrainsNone(view, max);
      DrainStops(view, view, max, [], order);
    } else {
      var order := OrderOf(view);
      NotHidden(view);
      PassFindsIff(view, order);
      var id := Pass(view, order);
      Smaller(view, id);
      assert id in Older(view) && Older(view - {id}) == Older(view) - {id};
      var rest;
      left, rest := Overruns(view - {id}, max);
      assert Prompted(view - {id}) == Prompted(view);
      DrainedFirst(view, left, max, order, rest);
      walks := [order] + rest;
    }
  }

  lemma OrderOf(view: View) returns (order: seq<string>)
    ensures Walks(view, order)
  {
    hide Lists;
    order := SomeOrder(view.Keys);
  }

  lemma DrainsNone(view: View, max: nat)
    ensures Draining(view, view, max, [])
  {
  }

  /** The cap holds, whatever the walks, if and only if the registry is roomy when the loop starts. */
  lemma BoundIff(view: View, max: nat)
    ensures (forall left :: Drains(view, left, max) ==> |left| + 1 <= max || |left| <= |Prompted(view)|)
       <==> Roomy(view, max)
  {
    hide Roomy, Drained;
    if Roomy(view, max) {
      forall left | Drains(view, left, max) ensures |left| + 1 <= max || |left| <= |Prompted(view)| {
        RoomySuffices(view, left, max);
      }
    } else {
      var left, walks := Overruns(view, max);
      assert Drains(view, left, max);
    }
  }

  // ---- what a creation leaves

  /** A registry after a creation. In any case it is within the cap, or the empty identifier was in the way, or
      everything but a session with the empty identifier and the newcomer has a prompt. From a roomy registry the bound
      is plain. */
  ghost predicate Bounded(view: View, left: View, size: nat, max: nat) {
    && (size <= max || Hidden(left) || size <= |Prompted(view)| + (if Evictable(view, "") then 2 else 1))
    && (Roomy(view, max) ==> (size <= max || size <= |Prompted(view)| + 1) && Ranked(view, left))
  }

  /** A creation: the loop, over some walks, and then the newcomer. */
  ghost predicate Created(view: View, left: View, size: nat, max: nat) {
    Drains(view, left, max) && size == |left| + 1 && Bounded(view, left, size, max)
  }

  /** What a step of the hub may do to the registry by evicting: nothing unless it creates a session, and then no more
      than makes room for one. */
  ghost predicate Kept(view: View, evicted: set<string>, after: View, max: nat) {
    && Evicted(view, evicted, view - evicted) && (evicted == {} || |view - evicted| + 1 >= max)
    && ((evicted == {} && after.Keys <= view.Keys) || Created(view, view - evicted, |after|, max))
  }

  lemma CreateBounded(view: View, evicted: set<string>, left: View, max: nat, id: string, s: Sess)
    requires Evicted(view, evicted, left) && Drains(view, left, max) && id !in view
    requires evicted == {} || |left| + 1 >= max
    requires |left| < max || Hidden(left) || forall id :: id != "" ==> !Evictable(left, id)
    ensures left == view - evicted && Kept(view, evicted, left[id := s], max)
    ensures Roomy(view, max) ==> |left[id := s]| <= max || |left[id := s]| <= |Prompted(view)| + 1
  {
    hide Hidden, Drains, Ranked, Roomy, Prompted, Evictable;
    OneLarger(left, id, s);
    if Roomy(view, max) {
      RoomySuffices(view, left, max);
    }
    if forall id :: id != "" ==> !Evictable(left, id) {
      NothingNamed(view, left);
    }
  }

  lemma OneLarger(view: View, id: string, s: Sess)
    requires id !in view
    ensures |view[id := s]| == |view| + 1
  {
    assert view[id := s].Keys == view.Keys + {id};
    assert |view[id := s]| == |view[id := s].Keys| && |view| == |view.Keys|;
  }

  /** When nothing named is left to drop, what is left has a prompt or the empty identifier. */
  lemma NothingNamed(view: View, left: View)
    requires Part(left, view) && forall id :: id != "" ==> !Evictable(left, id)
    ensures |left| <= |Prompted(view)| + (if Evictable(view, "") then 1 else 0)
  {
    var kept := if Evictable(view, "") then Prompted(view) + {""} else Prompted(view);
    forall k | k in left.Keys ensures k in kept {
      assert k != "" ==> !Evictable(left, k);
    }
    SubsetSize(left.Keys, kept);
    assert |left| == |left.Keys|;
  }

  lemma EvictableIn(view: View, id: string)
    requires Evictable(view, id)
    ensures id in view
  {
  }

  lemma NothingEvicted(view: View, after: View, max: nat)
    requires after.Keys <= view.Keys
    ensures Kept(view, {}, after, max)
  {
    hide Hidden;
    assert view - {} == view;
    NoneYet(view);
  }

  lemma SameSize(view: View, evicted: set<string>, known: View, after: View, max: nat)
    requires Kept(view, evicted, known, max) && after.Keys == known.Keys
    ensures Kept(view, evicted, after, max)
  {
    hide Hidden, Evicted, Created;
    assert |after| == |after.Keys| && |known| == |known.Keys|;
  }

  /** A session with a pending prompt survives every event but its own deletion. */
  lemma PromptedSurvives(h: Hub, up: string, project: string, ev: Event, now: int, evicted: set<string>, id: string)
    requires Evicted(h.sessions, evicted, h.sessions - evicted)
    requires id in Prompted(h.sessions) && ev != SessionDeleted(id)
    ensures id in Ingest(h, up, project, ev, now, evicted).sessions
  {
    hide Hidden, Truncate, PermEnvelope, Blank, AppendConv, Hear, Ask, Publish, Stamp, Retract;
  }

  // ---- past the cap

  /** The first event names no session; every later one names a new one. */
  function Newcomer(up: string, project: string, k: nat, now: int, later: int): Op {
    if k == 0 then OpIngest(up, project, IdleEvent("", 0), now, {})
    else OpIngest(up, project, SessionSeen(EventId(k), 0), later, {})
  }

  function Crowd(up: string, project: string, n: nat, now: int, later: int): seq<Op> {
    if n == 0 then [] else Crowd(up, project, n - 1, now, later) + [Newcomer(up, project, n - 1, now, later)]
  }

  /** Every eviction of a run is one the hub may make. */
  ghost predicate Allowed(h: Hub, ops: seq<Op>, max: nat)
    decreases |ops|
  {
    ops == [] ||
    ((ops[0].OpIngest? ==> Kept(h.sessions, ops[0].evicted, Step(h, ops[0]).sessions, max))
     && Allowed(Step(h, ops[0]), ops[1..], max))
  }

  lemma {:induction false} AllowedSnoc(h: Hub, ops: seq<Op>, op: Op, max: nat)
    requires Allowed(h, ops, max)
    requires op.OpIngest? ==> Kept(Run(h, ops).sessions, op.evicted, Step(Run(h, ops), op).sessions, max)
    ensures Allowed(h, ops + [op], max)
    decreases |ops|
  {
    hide Kept, Step;
    if ops == [] {
      assert [op][1..] == [];
    } else {
      AllowedSnoc(Step(h, ops[0]), ops[1..], op, max);
      assert (ops + [op])[1..] == ops[1..] + [op];
    }
  }

  /** The registry after n of them: the one with the empty identifier is the oldest, and none has a prompt. */
  ghost predicate Crowded(view: View, n: nat, now: int, later: int) {
    && |view| == n && (n > 0 ==> "" in view && view[""].updated == now)
    && (forall id :: id in view ==> view[id].pendingPrompt == "")
    && forall id :: id in view && id != "" ==> n > 0 && view[id].updated == later && id in Names(n)
  }

  function Names(n: nat): set<string> {
    set k | 1 <= k < n :: EventId(k)
  }

  lemma NewName(n: nat)
    requires n > 0
    ensures EventId(n) !in Names(n) && Names(n) + {EventId(n)} <= Names(n + 1)
  {
    hide EventId;
    forall k: nat | 1 <= k < n ensures EventId(k) != EventId(n) {
      if EventId(k) == EventId(n) {
        EventIdInjective(k, n);
      }
    }
  }

  lemma IdleArrives(h: Hub, up: string, project: string, now: int)
    requires "" !in h.sessions && 0 <= now
    ensures OnStatus(h, up, project, "", 0, now, {}).sessions
         == h.sessions["" := Sess(up, project, now, 0, [], "", {})]
  {
    assert h.sessions - {} == h.sessions;
  }

  lemma SeenArrives(h: Hub, up: string, project: string, id: string, now: int)
    requires id !in h.sessions && 0 <= now
    ensures OnSeen(h, up, project, id, 0, now, {}).sessions
         == h.sessions[id := Sess(up, project, now, 0, [], "", {})]
  {
    assert h.sessions - {} == h.sessions;
  }

  /** What the next of them does to the registry. */
  lemma NewcomerArrives(h: Hub, up: string, project: string, n: nat, now: int, later: int)
    requires Crowded(h.sessions, n, now, later) && 0 <= now < later
    ensures var id := if n == 0 then "" else EventId(n);
      id !in h.sessions && Step(h, Newcomer(up, project, n, now, later)).sessions
        == h.sessions[id := Sess(up, project, if n == 0 then now else later, 0, [], "", {})]
  {
    hide EventId, Publish, Blank, OnStatus, OnSeen, Names;
    if n > 0 {
      NewName(n);
      SeenArrives(h, up, project, EventId(n), later);
    } else {
      IdleArrives(h, up, project, now);
    }
  }

  lemma CrowdGrows(view: View, n: nat, now: int, later: int, id: string, s: Sess)
    requires Crowded(view, n, now, later) && id !in view && id == (if n == 0 then "" else EventId(n))
    requires s.pendingPrompt == "" && s.updated == (if n == 0 then now else later)
    ensures Crowded(view[id := s], n + 1, now, later)
  {
    hide EventId, Names;
    if n > 0 {
      NewName(n);
    }
    assert view[id := s].Keys == view.Keys + {id};
    assert |view[id := s]| == |view[id := s].Keys| && |view| == |view.Keys|;
  }

  lemma CrowdFlat(view: View, n: nat, now: int, later: int)
    requires Crowded(view, n, now, later) && now < later
    ensures Prompted(view) == {} && Older(view) == {} && (n > 0 ==> Evictable(view, ""))
    ensures forall id :: id != "" && Evictable(view, id) ==> view[""].updated < view[id].updated
  {
    hide Names, EventId;
    forall id | id in view && id != "" ensures "" in view && view[""].updated < view[id].updated {
    }
  }

  lemma CrowdHides(view: View, n: nat, now: int, later: int)
    requires Crowded(view, n, now, later) && now < later && n >= 2
    ensures Hidden(view)
  {
    CrowdFlat(view, n, now, later);
    Another(view, n, now, later);
    hide Crowded, Evictable;
  }

  /** The loop may leave such a registry as it is. */
  lemma CrowdDrains(view: View, n: nat, now: int, later: int, max: nat)
    requires Crowded(view, n, now, later) && now < later && max > 0
    ensures Drains(view, view, max)
    ensures |view| < max || Hidden(view) || forall id :: id != "" ==> !Evictable(view, id)
  {
    Cardinal(view, n, now, later);
    CrowdFlat(view, n, now, later);
    hide Pass, Walks, Draining, Crowded, Older, Evictable, Drained;
    DrainsNone(view, max);
    if n < max {
      DrainRoom(view, view, max, []);
      assert Drained(view, view, max, []);
    } else {
      var order := Stalls(view);
      DrainStops(view, view, max, [], order);
      assert Drained(view, view, max, [] + [order]);
    }
  }

  lemma Another(view: View, n: nat, now: int, later: int)
    requires Crowded(view, n, now, later) && n >= 2
    ensures exists id :: id != "" && Evictable(view, id)
  {
    hide Names;
    assert |view| == |view.Keys|;
    if view.Keys <= {""} {
      SubsetSize(view.Keys, {""});
    }
    var id :| id in view.Keys && id != "";
    assert Evictable(view, id);
  }

  /** Whatever the cap, it does not bound the registry: from a new hub an event that names no session and later ones
      that name new sessions make it as large as one likes, though no session has a prompt. */
  lemma {:induction false} Outgrown(ringSize: int, up: string, project: string, now: int, later: int, max: nat, n: nat)
    requires max > 0 && 0 <= now < later
    ensures var ops := Crowd(up, project, n, now, later); var view := Run(New(ringSize), ops).sessions;
      && Allowed(New(ringSize), ops, max) && Crowded(view, n, now, later) && Prompted(view) == {}
      && (n >= 2 ==> Hidden(view))
  {
    hide Kept, Crowded, Hidden, Step, Newcomer, Prompted, New, EventId, Run, Allowed;
    if n == 0 {
      NobodyYet(ringSize, now, later, max);
      assert Crowd(up, project, 0, now, later) == [];
    } else {
      Outgrown(ringSize, up, project, now, later, max, n - 1);
      OneMore(New(ringSize), Crowd(up, project, n - 1, now, later), up, project, n - 1, now, later, max);
    }
    Flat(Run(New(ringSize), Crowd(up, project, n, now, later)).sessions, n, now, later);
  }

  lemma Flat(view: View, n: nat, now: int, later: int)
    requires Crowded(view, n, now, later) && now < later
    ensures Prompted(view) == {} && (n >= 2 ==> Hidden(view))
  {
    CrowdFlat(view, n, now, later);
    if n >= 2 {
      CrowdHides(view, n, now, later);
    }
  }

  lemma OneMore(h0: Hub, ops: seq<Op>, up: string, project: string, n: nat, now: int, later: int, max: nat)
    requires Allowed(h0, ops, max) && Crowded(Run(h0, ops).sessions, n, now, later) && max > 0 && 0 <= now < later
    ensures var all := ops + [Newcomer(up, project, n, now, later)];
      Allowed(h0, all, max) && Crowded(Run(h0, all).sessions, n + 1, now, later)
  {
    hide Kept, Crowded, Hidden, Step, Newcomer, EventId, Run, Allowed, Drains;
    var h, op := Run(h0, ops), Newcomer(up, project, n, now, later);
    var id := if n == 0 then "" else EventId(n);
    var s := Sess(up, project, if n == 0 then now else later, 0, [], "", {});
    NewcomerArrives(h, up, project, n, now, later);
    CrowdDrains(h.sessions, n, now, later, max);
    NoneYet(h.sessions);
    CreateBounded(h.sessions, {}, h.sessions, max, id, s);
    CrowdGrows(h.sessions, n, now, later, id, s);
    EvictsNobody(up, project, n, now, later);
    AllowedSnoc(h0, ops, op, max);
    RunConcat(h0, ops, [op]);
    RunOne(h, op);
  }

  lemma NobodyYet(ringSize: int, now: int, later: int, max: nat)
    ensures Allowed(New(ringSize), [], max) && Crowded(Run(New(ringSize), []).sessions, 0, now, later)
  {
  }

  lemma Cardinal(view: View, n: nat, now: int, later: int)
    requires Crowded(view, n, now, later)
    ensures |view| == n
  {
  }

  lemma EvictsNobody(up: string, project: string, k: nat, now: int, later: int)
    ensures Newcomer(up, project, k, now, later).OpIngest? && Newcomer(up, project, k, now, later).evicted == {}
  {
  }
}

/** The plugin of plugin/src/index.js as it runs: one state object, updated in place. */
module PluginImpl {
  import S = HubSpec
  import P = Plugin

  type Event = S.Event

  /** An upstream of "" is one not registered. */
  class State {
    var upstream: string
    var pending: map<string, string>
    var seenNonces: seq<string>
    var cursor: nat
    var queue: seq<Event>
    var inflight: seq<Event>
    var flushing: bool

    constructor ()
      ensures GuardOf() == P.Guard(map[], []) && UplinkOf() == P.Uplink([], [], false) && cursor == 0 && upstream == ""
    {
      upstream, pending, seenNonces, cursor := "", map[], [], 0;
      queue, inflight, flushing := [], [], false;
    }

    ghost function UplinkOf(): P.Uplink
      reads this
    {
      P.Uplink(queue, inflight, flushing)
    }

    ghost function GuardOf(): P.Guard
      reads this
    {
      P.Guard(pending, seenNonces)
    }

    method Report(event: Event)
      modifies this`queue, this`inflight, this`flushing
      ensures UplinkOf() == if upstream == "" then old(UplinkOf()) else P.Report(old(UplinkOf()), event)
    {
      hide P.FirstOfPart, P.FirstChatter, P.Flush;
      if upstream == "" {
        return;
      }
      if P.IsChatter(event) && event.part != "" {
        var at := P.FirstOfPart(queue, event.part);
        if at >= 0 {
          queue := queue[at := event];
          Flush();
          return;
        }
      }
      if |queue| >= P.QUEUE_MAX {
        var at := P.FirstChatter(queue);
        if at >= 0 {
          queue := queue[..at] + queue[at + 1..];
        } else {
          queue := queue[1..];
        }
      }
      queue := queue + [event];
      assert queue == P.Enqueue(old(queue), event);
      Flush();
    }

    method Flush()
      modifies this`queue, this`inflight, this`flushing
      ensures UplinkOf() == P.Flush(old(UplinkOf()))
    {
      if flushing || |queue| == 0 {
        return;
      }
      flushing := true;
      inflight, queue := queue, [];
    }

    /** The post settled: what its callbacks do, as one step. */
    method Settle(resolved: bool)
      requires flushing
      modifies this`queue, this`inflight, this`flushing
      ensures UplinkOf() == if resolved then P.Resolved(old(UplinkOf())) else P.Rejected(old(UplinkOf()))
    {
      if !resolved {
        var room := P.REQUEUE_MAX - |queue|;
        if room > 0 {
          var keep := P.Filter(inflight, false) + P.Filter(inflight, true);
          if |keep| > room {
            keep := keep[..room];
          }
          queue := keep + queue;
        }
      }
      inflight := [];
      flushing := false;
      if |queue| > 0 {
        Flush();
      }
    }

    method RememberNonce(nonce: string)
      modifies this`seenNonces
      ensures seenNonces == P.Remember(old(seenNonces), nonce)
    {
      if nonce !in seenNonces {
        seenNonces := seenNonces + [nonce];
      }
      if |seenNonces| > P.MAX_SEEN_NONCES {
        seenNonces := seenNonces[1..];
      }
    }

    method Apply(dec: S.Decision, nowMs: int) returns (v: P.Verdict)
      modifies this`pending, this`seenNonces
      ensures (GuardOf(), v) == P.Apply(old(GuardOf()), dec, nowMs)
    {
      if dec.request !in pending {
        return P.UnknownRequest;
      }
      var session := pending[dec.request];
      if dec.nonce in seenNonces {
        return P.Applied;
      }
      if dec.expires != 0 && nowMs > dec.expires * 1000 {
        return P.Expired;
      }
      RememberNonce(dec.nonce);
      pending := pending - {dec.request};
      match dec.action
      case "once" => v := P.Calls(P.PermissionCall(session, dec.request, dec.action));
      case "always" => v := P.Calls(P.PermissionCall(session, dec.request, dec.action));
      case "reject" => v := P.Calls(P.PermissionCall(session, dec.request, dec.action));
      case _ => v := P.Declined;
    }

    method ApplyPrompt(dec: S.Decision) returns (v: P.Verdict)
      modifies this`seenNonces
      ensures (GuardOf(), v) == P.ApplyPrompt(old(GuardOf()), dec)
    {
      if dec.session == "" || dec.text == "" {
        return P.Declined;
      }
      if dec.nonce in seenNonces {
        return P.Applied;
      }
      RememberNonce(dec.nonce);
      v := P.Calls(P.PromptCall(dec.session, dec.text));
    }

    /** permission.asked */
    method OnAsked(request: string, session: string, action: string, resources: seq<string>, always: seq<string>)
      modifies this`pending, this`queue, this`inflight, this`flushing
      ensures upstream == "" ==> GuardOf() == old(GuardOf()) && UplinkOf() == old(UplinkOf())
      ensures upstream != "" ==>
        GuardOf() == old(GuardOf()).(pending := old(pending)[request := session])
        && UplinkOf() == P.Report(old(UplinkOf()), S.Permission(request, session, action, resources, always))
    {
      if upstream == "" {
        return;
      }
      pending := pending[request := session];
      Report(S.Permission(request, session, action, resources, always));
    }

    /** question.asked: the guard takes the request, and the hub drops the report. */
    method OnQuestion(request: string, session: string)
      modifies this`pending, this`queue, this`inflight, this`flushing
      ensures upstream == "" ==> GuardOf() == old(GuardOf()) && UplinkOf() == old(UplinkOf())
      ensures upstream != "" ==>
        GuardOf() == old(GuardOf()).(pending := old(pending)[request := session])
        && UplinkOf() == P.Report(old(UplinkOf()), S.Other)
    {
      if upstream == "" {
        return;
      }
      pending := pending[request := session];
      Report(S.Other);
    }

    /** permission.replied */
    method OnReplied(request: string)
      modifies this`pending, this`queue, this`inflight, this`flushing
      ensures upstream == "" ==> GuardOf() == old(GuardOf()) && UplinkOf() == old(UplinkOf())
      ensures upstream != "" ==>
        GuardOf() == old(GuardOf()).(pending := old(pending) - {request})
        && UplinkOf() == P.Report(old(UplinkOf()), S.Replied(request))
    {
      if upstream == "" {
        return;
      }
      pending := pending - {request};
      Report(S.Replied(request));
    }

    /** hello answered: a fresh window, a fresh cursor. */
    method Adopt(id: string)
      modifies this`upstream, this`cursor
      ensures upstream == id && cursor == 0
    {
      upstream := id;
      cursor := 0;
    }

    /** A delivered answer of the decisions poll: every decision, then the cursor. The calls made are returned in
        order. */
    method Take(decisions: seq<S.Decision>, newCursor: nat, nowMs: int) returns (calls: seq<P.Call>)
      modifies this`pending, this`seenNonces, this`cursor
      ensures cursor == if newCursor == 0 then old(cursor) else newCursor
      ensures (GuardOf(), calls) == DecideAll(old(GuardOf()), decisions, nowMs)
    {
      calls := [];
      for i := 0 to |decisions|
        invariant cursor == old(cursor)
        invariant (GuardOf(), calls) == DecideAll(old(GuardOf()), decisions[..i], nowMs)
      {
        hide P.Apply, P.ApplyPrompt;
        var dec := decisions[i];
        assert decisions[..i + 1][..i] == decisions[..i];
        var v;
        if dec.kind == "prompt" {
          v := ApplyPrompt(dec);
        } else {
          v := Apply(dec, nowMs);
        }
        if v.Calls? {
          calls := calls + [v.call];
        }
      }
      assert decisions[..|decisions|] == decisions;
      if newCursor != 0 {
        cursor := newCursor;
      }
    }
  }

  /** A batch of decisions, one after the other. */
  ghost function DecideAll(g: P.Guard, decisions: seq<S.Decision>, nowMs: int): (P.Guard, seq<P.Call>) {
    if decisions == [] then (g, [])
    else
      var last := |decisions| - 1;
      var (g1, calls) := DecideAll(g, decisions[..last], nowMs);
      var (g2, v) := P.Decide(g1, decisions[last], nowMs);
      (g2, if v.Calls? then calls + [v.call] else calls)
  }
}

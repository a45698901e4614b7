/** The message handlers of the client, with the chain-id slots and the function that stops the
    repeated sending of the current request. */
module NewtHandlers {
  import opened Common
  import opened Registration

  lemma {:induction false} RunExtends(es: seq<Event>, e: Event, n: nat)
    requires n <= |es|
    ensures Run(es + [e], n) == Run(es, n) && Possible(es + [e], n) == Possible(es, n)
  {
    if n > 0 {
      RunExtends(es, e, n - 1);
    }
  }

  lemma Happens(es: seq<Event>, e: Event)
    requires Possible(es, |es|) && Enabled(Run(es, |es|), e)
    ensures Possible(es + [e], |es + [e]|) && Run(es + [e], |es + [e]|) == Step(Run(es, |es|), e)
  {
    RunExtends(es, e, |es|);
  }

  class Newt {
    var pendingPing: string
    var pendingRegister: string
    var connected: bool
    var stopFunc: Option<int>     // stops the sender of this number
    var started: int              // number of senders so far
    ghost var events: seq<Event>
    ghost var running: set<int>   // senders that have been started and not stopped

    ghost predicate Valid()
      reads this
    {
      && Possible(events, |events|)
      && var s := Run(events, |events|);
      && s.handler == Idle && s.slots.ping == pendingPing && s.slots.register == pendingRegister
      && (stopFunc.Some? ==> stopFunc.value in running)
      && (forall i :: i in running ==> i < started)
    }

    /** No request is being repeated except the one that can be stopped. */
    ghost predicate NoStray()
      reads this
    {
      running == if stopFunc.Some? then {stopFunc.value} else {}
    }

    ghost function Used(): map<string, Owner>
      reads this
      requires Valid()
    {
      Run(events, |events|).used
    }

    constructor ()
      ensures Valid() && NoStray() && !connected && events == []
    {
      pendingPing, pendingRegister, connected, stopFunc := "", "", false, None;
      events, running, started := [], {}, 0;
    }

    /** A sender is stopped at most once: only while it is running. */
    method StopSender()
      requires Valid()
      modifies `stopFunc, `running
      ensures Valid() && stopFunc == None
      ensures running == if old(stopFunc).Some? then old(running) - {old(stopFunc).value} else old(running)
    {
      if stopFunc.Some? {
        running := running - {stopFunc.value};
        stopFunc := None;
      }
    }

    method RequestExitNodes(id: string)
      requires Valid() && id != "" && id !in Used()
      modifies `pendingPing, `stopFunc, `events, `running, `started
      ensures Valid() && pendingPing == id && events == old(events) + [Issue(Ping, id)]
      ensures Used() == old(Used())[id := Of(Ping)]
      ensures stopFunc == Some(old(started)) && running == old(running) + {old(started)} && started > old(started)
    {
      Happens(events, Issue(Ping, id));
      events := events + [Issue(Ping, id)];
      pendingPing := id;
      stopFunc := Some(started);
      running := running + {started};
      started := started + 1;
    }

    method RequestRegistration(id: string)
      requires Valid() && id != "" && id !in Used()
      modifies `pendingRegister, `stopFunc, `events, `running, `started
      ensures Valid() && pendingRegister == id && events == old(events) + [Issue(Register, id)]
      ensures Used() == old(Used())[id := Of(Register)]
      ensures stopFunc == Some(old(started)) && running == old(running) + {old(started)} && started > old(started)
    {
      Happens(events, Issue(Register, id));
      events := events + [Issue(Register, id)];
      pendingRegister := id;
      stopFunc := Some(started);
      running := running + {started};
      started := started + 1;
    }

    method OnReconnect(id: string)
      requires Valid() && id != "" && id !in Used()
      modifies this
      ensures Valid() && (old(NoStray()) ==> NoStray())
      ensures pendingPing == id && pendingRegister == old(pendingRegister) && !connected
      ensures events == old(events) + [Issue(Ping, id)]
    {
      connected := false;
      StopSender();
      RequestExitNodes(id);
    }

    method OnTerminate()
      requires Valid()
      modifies `connected, `stopFunc, `running
      ensures Valid() && (old(NoStray()) ==> NoStray()) && !connected && stopFunc == None
    {
      StopSender();
      connected := false;
    }

    /** Sends the measured exit nodes only for the reply that was awaited, or one without an id.
        A discarded reply changes no slot, but it still stops the current sender. */
    method OnExitNodes(id: string, anyNodes: bool, newId: string) returns (acted: bool)
      requires Valid() && newId != "" && newId !in Used()
      modifies this
      ensures Valid() && (old(NoStray()) ==> NoStray()) && connected == old(connected)
      ensures acted <==> id == "" || id == old(pendingPing)
      ensures !acted ==> pendingPing == old(pendingPing) && pendingRegister == old(pendingRegister) && stopFunc == None
      ensures acted ==> pendingPing == (if id == "" then old(pendingPing) else "")
      ensures acted && anyNodes ==> pendingRegister == newId && stopFunc.Some?
      ensures acted && !anyNodes ==> pendingRegister == old(pendingRegister) && stopFunc == None
      ensures events == old(events) + [Receive(Ping, id)] + (if acted then [Finish(Ping, id)] else [])
                        + (if acted && anyNodes then [Issue(Register, newId)] else [])
      ensures Used() == if acted && anyNodes then old(Used())[newId := Of(Register)] else old(Used())
    {
      StopSender();
      acted := TakeReply(Ping, id);
      if acted && anyNodes {
        RequestRegistration(newId);
      }
    }

    /** The common part of the handlers: compare with the slot, and empty it. */
    method TakeReply(x: Exchange, id: string) returns (acted: bool)
      requires Valid() && !x.Config?
      modifies `pendingPing, `pendingRegister, `events
      ensures Valid() && Used() == old(Used())
      ensures acted <==> id == "" || id == (if x.Ping? then old(pendingPing) else old(pendingRegister))
      ensures !acted ==> events == old(events) + [Receive(x, id)]
      ensures acted ==> events == old(events) + [Receive(x, id)] + [Finish(x, id)]
      ensures pendingPing == if acted && x.Ping? && id != "" then "" else old(pendingPing)
      ensures pendingRegister == if acted && x.Register? && id != "" then "" else old(pendingRegister)
    {
      Happens(events, Receive(x, id));
      events := events + [Receive(x, id)];
      acted := id == "" || id == (if x.Ping? then pendingPing else pendingRegister);
      if acted {
        Happens(events, Finish(x, id));
        events := events + [Finish(x, id)];
        if id != "" && x.Ping? {
          pendingPing := "";
        } else if id != "" {
          pendingRegister := "";
        }
      }
    }

    /** Replaces the tunnel only for the reply that was awaited, or one without an id; a discarded
        reply changes nothing. */
    method OnConnectReply(id: string, established: bool) returns (acted: bool)
      requires Valid()
      modifies this
      ensures Valid() && (old(NoStray()) ==> NoStray())
      ensures acted <==> id == "" || id == old(pendingRegister)
      ensures !acted ==> unchanged(`pendingPing, `pendingRegister, `connected, `stopFunc, `running)
      ensures acted ==> pendingRegister == (if id == "" then old(pendingRegister) else "") && pendingPing == old(pendingPing)
      ensures acted ==> stopFunc == None && connected == established
      ensures Used() == old(Used())
    {
      acted := TakeReply(Register, id);
      if acted {
        StopSender();
        connected := false;       // the old tunnel is closed
        if established {
          connected := true;
        }
      }
    }

    /** The backwards-compatible registration leaves the pending registration alone. */
    method SendCompat(id: string)
      requires Valid() && id != "" && id !in Used()
      modifies `events
      ensures Valid() && events == old(events) + [Compat(id)]
      ensures Used() == old(Used())[id := Unanswered]
    {
      Happens(events, Compat(id));
      events := events + [Compat(id)];
    }

    method OnWebsocketConnect(id: string, compatId: string)
      requires Valid() && id != "" && compatId != "" && id != compatId && id !in Used() && compatId !in Used()
      modifies this
      ensures Valid() && (old(NoStray()) ==> NoStray())
      ensures connected == old(connected) && pendingRegister == old(pendingRegister)
      ensures pendingPing == if connected then old(pendingPing) else id
      ensures Used() == (if connected then old(Used()) else old(Used())[id := Of(Ping)])[compatId := Unanswered]
    {
      if !connected {
        StopSender();
        RequestExitNodes(id);
      }
      SendCompat(compatId);
    }

    /** Recovery after lost pings does not stop the current sender: it stays behind, no longer
        stoppable, exactly if there is one. */
    method Recover(id: string, compatId: string)
      requires Valid() && id != "" && compatId != "" && id != compatId && id !in Used() && compatId !in Used()
      modifies this
      ensures Valid() && connected == old(connected)
      ensures pendingPing == id && pendingRegister == old(pendingRegister)
      ensures old(NoStray()) ==> (NoStray() <==> old(stopFunc) == None)
      ensures stopFunc.Some? && Used() == old(Used())[id := Of(Ping)][compatId := Unanswered]
    {
      RequestExitNodes(id);
      SendCompat(compatId);
    }
  }

  /** A history that leaves a stray sender: connected, lost, recovered by itself before the server
      answered, and lost again. */
  method StrayHappens() returns (n: Newt)
    ensures fresh(n) && n.Valid() && n.connected && !n.NoStray()
  {
    n := new Newt();
    assert n.Used() == map[];
    n.OnWebsocketConnect("a", "b");
    var asked := n.OnExitNodes("a", true, "c");
    var connected := n.OnConnectReply("c", true);
    n.Recover("d", "e");
    n.Recover("f", "g");
  }
}

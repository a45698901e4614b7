/** Chain ids: how replies to the ping, registration and configuration requests are matched with
    requests over a network that duplicates, delays and reorders.

    A request carries a fresh chain id, kept in the slot of its exchange. A handler acts on a reply
    if the reply's id is empty or equals the slot, and then empties the slot. Handlers run one at
    a time, but requests are also issued by other goroutines, so a request may be issued between
    a handler's check and its emptying of the slot; the two are separate steps here. The network
    may deliver any reply at any time. */
module Registration {

  datatype Exchange = Ping | Register | Config

  datatype Slots = Slots(ping: string, register: string, config: string) {
    function Get(x: Exchange): string {
      match x case Ping => ping case Register => register case Config => config
    }

    function Set(x: Exchange, id: string): Slots {
      match x
      case Ping => this.(ping := id)
      case Register => this.(register := id)
      case Config => this.(config := id)
    }
  }

  datatype Handler = Idle | Matched(exchange: Exchange, id: string)

  datatype Event =
    | Issue(exchange: Exchange, id: string)     // a request is sent with a new id
    | Compat(id: string)                        // a backwards-compatible registration is sent
    | Receive(exchange: Exchange, id: string)   // a handler compares a reply with the slot
    | Finish(exchange: Exchange, id: string)    // the handler empties the slot and acts

  /** What an id was issued for. */
  datatype Owner = Of(exchange: Exchange) | Unanswered

  datatype State = State(slots: Slots, handler: Handler, used: map<string, Owner>, acted: seq<Event>)

  const INIT := State(Slots("", "", ""), Idle, map[], [])

  /** A reply without an id is always acted on; one with an id only if it equals the slot. */
  predicate Accepts(s: State, x: Exchange, id: string) {
    id == "" || id == s.slots.Get(x)
  }

  predicate Enabled(s: State, e: Event) {
    match e
    case Issue(_, id) => id != "" && id !in s.used
    case Compat(id) => id != "" && id !in s.used
    case Receive(_, _) => s.handler.Idle?
    case Finish(x, id) => s.handler == Matched(x, id)
  }

  function Step(s: State, e: Event): State {
    match e
    case Issue(x, id) => s.(slots := s.slots.Set(x, id), used := s.used[id := Of(x)])
    case Compat(id) => s.(used := s.used[id := Unanswered])
    case Receive(x, id) => if Accepts(s, x, id) then s.(handler := Matched(x, id)) else s
    case Finish(x, id) =>
      s.(slots := if id == "" then s.slots else s.slots.Set(x, ""), handler := Idle, acted := s.acted + [e])
  }

  function Run(es: seq<Event>, n: nat): State
    requires n <= |es|
  {
    if n == 0 then INIT else Step(Run(es, n - 1), es[n - 1])
  }

  /** Every event was possible when it happened. */
  predicate Possible(es: seq<Event>, n: nat)
    requires n <= |es|
  {
    n == 0 || (Possible(es, n - 1) && Enabled(Run(es, n - 1), es[n - 1]))
  }

  // ---------------------------------------------------------------- what every step keeps

  /** An id that was issued for the exchange. */
  predicate Owned(s: State, x: Exchange, id: string) {
    id in s.used && s.used[id] == Of(x)
  }

  predicate Acted(s: State, id: string) {
    exists i :: 0 <= i < |s.acted| && s.acted[i].id == id
  }

  /** The id in a slot, or matched by the handler, belongs to the exchange and has not been acted
      on; what has been acted on belongs to its exchange; and nothing has been acted on twice. */
  ghost predicate Inv(s: State) {
    && (forall x {:trigger s.slots.Get(x)} :: s.slots.Get(x) != "" ==>
          Owned(s, x, s.slots.Get(x)) && !Acted(s, s.slots.Get(x)))
    && (s.handler.Matched? && s.handler.id != "" ==>
          Owned(s, s.handler.exchange, s.handler.id) && !Acted(s, s.handler.id))
    && (forall i :: 0 <= i < |s.acted| ==> s.acted[i].Finish?)
    && (forall i :: 0 <= i < |s.acted| && s.acted[i].id != "" ==> Owned(s, s.acted[i].exchange, s.acted[i].id))
    && (forall i, j :: 0 <= i < j < |s.acted| && s.acted[i].id == s.acted[j].id ==> s.acted[i].id == "")
  }

  lemma StepKeepsInv(s: State, e: Event)
    requires Inv(s) && Enabled(s, e)
    ensures Inv(Step(s, e))
  {
    var t := Step(s, e);
    forall x {:trigger t.slots.Get(x)} | t.slots.Get(x) != ""
      ensures Owned(t, x, t.slots.Get(x)) && !Acted(t, t.slots.Get(x))
    {
      assert t.slots.Get(x) == s.slots.Get(x) || e == Issue(x, t.slots.Get(x));
    }
  }

  lemma {:induction false} RunKeepsInv(es: seq<Event>, n: nat)
    requires n <= |es| && Possible(es, n)
    ensures Inv(Run(es, n))
  {
    if n > 0 {
      RunKeepsInv(es, n - 1);
      StepKeepsInv(Run(es, n - 1), es[n - 1]);
    }
  }

  // ---------------------------------------------------------------- the acted-on ids of a run

  lemma {:induction false} FinishIsActed(es: seq<Event>, i: nat, n: nat)
    requires i < n <= |es| && Possible(es, n) && es[i].Finish?
    ensures |Run(es, i).acted| < |Run(es, n).acted| && Run(es, n).acted[|Run(es, i).acted|] == es[i]
  {
    if i < n - 1 {
      FinishIsActed(es, i, n - 1);
    }
  }

  /** In every run, a non-empty id is acted on at most once. */
  lemma ActedOnce(es: seq<Event>, i: nat, j: nat, n: nat)
    requires i < j < n <= |es| && Possible(es, n)
    requires es[i].Finish? && es[j].Finish? && es[i].id == es[j].id
    ensures es[i].id == ""
  {
    FinishIsActed(es, i, n);
    FinishIsActed(es, j, n);
    PrefixPossible(es, j, n);
    FinishIsActed(es, i, j);
    RunKeepsInv(es, n);
  }

  lemma {:induction false} PrefixPossible(es: seq<Event>, i: nat, n: nat)
    requires i <= n <= |es| && Possible(es, n)
    ensures Possible(es, i)
  {
    if i < n {
      PrefixPossible(es, i, n - 1);
    }
  }

  lemma {:induction false} StillUsed(es: seq<Event>, i: nat, n: nat)
    requires i < n <= |es| && Possible(es, n) && (es[i].Issue? || es[i].Compat?)
    ensures es[i].id in Run(es, n).used
    ensures Run(es, n).used[es[i].id] == if es[i].Issue? then Of(es[i].exchange) else Unanswered
  {
    if i < n - 1 {
      StillUsed(es, i, n - 1);
    }
  }

  /** No reply to a backwards-compatible registration is ever acted on, whichever exchange it
      claims to belong to; nor is a reply to one exchange taken for a reply to another. */
  lemma ActedForItsExchange(es: seq<Event>, i: nat, j: nat, n: nat)
    requires i < n <= |es| && j < n && Possible(es, n)
    requires es[i].Issue? || es[i].Compat?
    requires es[j].Finish? && es[j].id == es[i].id
    ensures es[i] == Issue(es[j].exchange, es[j].id) && i < j
  {
    StillUsed(es, i, n);
    FinishIsActed(es, j, n);
    RunKeepsInv(es, n);
    PrefixPossible(es, i + 1, n);
    if j < i {
      PrefixPossible(es, i, n);
      FinishIsActed(es, j, i);
      RunKeepsInv(es, i);
      assert false;
    }
  }

  // ---------------------------------------------------------------- when a reply is acted on

  predicate IsIssue(e: Event, x: Exchange) {
    e.Issue? && e.exchange == x
  }

  predicate Consumes(e: Event, x: Exchange) {
    e.Finish? && e.exchange == x && e.id != ""
  }

  /** Event i is the latest request of the exchange among the first n events. */
  predicate LatestIssue(es: seq<Event>, x: Exchange, i: nat, n: nat)
    requires n <= |es|
  {
    i < n && IsIssue(es[i], x) && forall j :: i < j < n ==> !IsIssue(es[j], x)
  }

  /** The slot holds the id of the latest request until a handler empties it. */
  lemma {:induction false} SlotIsLatest(es: seq<Event>, x: Exchange, i: nat, n: nat)
    requires n <= |es| && LatestIssue(es, x, i, n)
    ensures Run(es, n).slots.Get(x) ==
            if exists j :: i < j < n && Consumes(es[j], x) then "" else es[i].id
  {
    if i == n - 1 {
    } else {
      SlotIsLatest(es, x, i, n - 1);
      if Consumes(es[n - 1], x) {
        assert i < n - 1 < n && Consumes(es[n - 1], x);
      }
      assert (exists j :: i < j < n && Consumes(es[j], x)) <==>
             (exists j :: i < j < n - 1 && Consumes(es[j], x)) || Consumes(es[n - 1], x);
    }
  }

  lemma {:induction false} SlotIsEmpty(es: seq<Event>, x: Exchange, n: nat)
    requires n <= |es| && forall j :: 0 <= j < n ==> !IsIssue(es[j], x)
    ensures Run(es, n).slots.Get(x) == ""
  {
    if n > 0 {
      SlotIsEmpty(es, x, n - 1);
    }
  }

  lemma {:induction false} LatestOf(es: seq<Event>, x: Exchange, n: nat) returns (i: nat)
    requires n <= |es| && exists i: nat :: i < n && IsIssue(es[i], x)
    ensures LatestIssue(es, x, i, n)
  {
    if IsIssue(es[n - 1], x) {
      i := n - 1;
    } else {
      i := LatestOf(es, x, n - 1);
    }
  }

  /** Event i is the latest request of the exchange, with this id, and its slot has not been emptied. */
  predicate Awaited(es: seq<Event>, x: Exchange, id: string, i: nat, n: nat)
    requires n <= |es|
  {
    LatestIssue(es, x, i, n) && es[i].id == id && forall j :: i < j < n ==> !Consumes(es[j], x)
  }

  /** Exactly when a reply with an id is accepted, in any run: its id is that of the latest
      request of its exchange, and no handler has emptied the slot since that request. */
  lemma AcceptedIff(es: seq<Event>, x: Exchange, id: string, n: nat)
    requires n <= |es| && id != ""
    ensures Accepts(Run(es, n), x, id) <==> exists i: nat :: Awaited(es, x, id, i, n)
  {
    if exists i: nat :: i < n && IsIssue(es[i], x) {
      var i := LatestOf(es, x, n);
      SlotIsLatest(es, x, i, n);
      forall k: nat | Awaited(es, x, id, k, n)
        ensures k == i
      {
      }
      assert Accepts(Run(es, n), x, id) ==> Awaited(es, x, id, i, n);
    } else {
      SlotIsEmpty(es, x, n);
    }
  }

  /** Whatever is acted on was, when its reply came in, awaited. */
  lemma ActedWasAwaited(es: seq<Event>, j: nat, n: nat) returns (r: nat, i: nat)
    requires j < n <= |es| && Possible(es, n) && es[j].Finish? && es[j].id != ""
    ensures r < j && es[r] == Receive(es[j].exchange, es[j].id)
    ensures Awaited(es, es[j].exchange, es[j].id, i, r)
  {
    PrefixPossible(es, j + 1, n);
    r := MatchedAt(es, es[j].exchange, es[j].id, j);
    AcceptedIff(es, es[j].exchange, es[j].id, r);
    i :| Awaited(es, es[j].exchange, es[j].id, i, r);
  }

  lemma {:induction false} MatchedAt(es: seq<Event>, x: Exchange, id: string, n: nat) returns (r: nat)
    requires n <= |es| && Run(es, n).handler == Matched(x, id)
    ensures r < n && es[r] == Receive(x, id) && Accepts(Run(es, r), x, id)
  {
    if es[n - 1] == Receive(x, id) && Accepts(Run(es, n - 1), x, id) {
      r := n - 1;
    } else {
      r := MatchedAt(es, x, id, n - 1);
    }
  }

  // ---------------------------------------------------------------- runs without interference

  /** No request of an exchange was issued while a handler was acting on a reply to it. */
  predicate Undisturbed(es: seq<Event>, n: nat)
    requires n <= |es|
  {
    n == 0 || (Undisturbed(es, n - 1) &&
               (es[n - 1].Issue? ==> var h := Run(es, n - 1).handler; !(h.Matched? && h.exchange == es[n - 1].exchange)))
  }

  lemma {:induction false} MatchedIsSlot(es: seq<Event>, n: nat)
    requires n <= |es| && Possible(es, n) && Undisturbed(es, n)
    ensures var s := Run(es, n);
            s.handler.Matched? && s.handler.id != "" ==> s.slots.Get(s.handler.exchange) == s.handler.id
  {
    if n > 0 {
      MatchedIsSlot(es, n - 1);
    }
  }

  lemma {:induction false} ActedIsFinish(es: seq<Event>, id: string, n: nat) returns (j: nat)
    requires n <= |es| && Acted(Run(es, n), id)
    ensures j < n && es[j].Finish? && es[j].id == id
  {
    if es[n - 1].Finish? && es[n - 1].id == id {
      j := n - 1;
    } else {
      j := ActedIsFinish(es, id, n - 1);
    }
  }

  lemma {:induction false} PrefixUndisturbed(es: seq<Event>, i: nat, n: nat)
    requires i <= n <= |es| && Undisturbed(es, n)
    ensures Undisturbed(es, i)
  {
    if i < n {
      PrefixUndisturbed(es, i, n - 1);
    }
  }

  /** What empties the slot after a request is acting on the reply to that request. */
  lemma ConsumedIsActed(es: seq<Event>, x: Exchange, i: nat, j: nat, n: nat)
    requires n <= |es| && Possible(es, n) && Undisturbed(es, n)
    requires LatestIssue(es, x, i, n) && i < j < n && Consumes(es[j], x)
    ensures es[j].id == es[i].id
  {
    PrefixPossible(es, j + 1, n);
    PrefixUndisturbed(es, j, n);
    MatchedIsSlot(es, j);
    SlotIsLatest(es, x, i, j);
  }

  /** Without interference a reply with an id is accepted exactly if its id is that of the
      latest request of its exchange and has not been acted on. */
  lemma AcceptedIffUndisturbed(es: seq<Event>, x: Exchange, id: string, n: nat)
    requires n <= |es| && Possible(es, n) && Undisturbed(es, n) && id != ""
    ensures Accepts(Run(es, n), x, id) <==>
            !Acted(Run(es, n), id) && exists i: nat :: LatestIssue(es, x, i, n) && es[i].id == id
  {
    AcceptedIff(es, x, id, n);
    if i: nat :| LatestIssue(es, x, i, n) && es[i].id == id {
      if Acted(Run(es, n), id) {
        var j := ActedIsFinish(es, id, n);
        ActedForItsExchange(es, i, j, n);
        assert Consumes(es[j], x);
        assert !exists k: nat :: Awaited(es, x, id, k, n);
      } else {
        forall j | i < j < n
          ensures !Consumes(es[j], x)
        {
          if Consumes(es[j], x) {
            ConsumedIsActed(es, x, i, j, n);
            FinishIsActed(es, j, n);
          }
        }
        assert Awaited(es, x, id, i, n);
      }
    }
  }

  /** With interference a request may go unanswered: issued between the check and the emptying of
      the slot, it loses its slot, and the reply to it is discarded. */
  lemma InterferenceLosesReply()
    ensures var es := [Issue(Ping, "a"), Receive(Ping, "a"), Issue(Ping, "b"), Finish(Ping, "a")];
            && Possible(es, 4) && LatestIssue(es, Ping, 2, 4)
            && !Acted(Run(es, 4), "b") && !Accepts(Run(es, 4), Ping, "b")
  {
    var es := [Issue(Ping, "a"), Receive(Ping, "a"), Issue(Ping, "b"), Finish(Ping, "a")];
    assert Run(es, 1) == State(Slots("a", "", ""), Idle, map["a" := Of(Ping)], []);
    assert Run(es, 2) == Run(es, 1).(handler := Matched(Ping, "a"));
    assert Run(es, 3) == State(Slots("b", "", ""), Matched(Ping, "a"), map["a" := Of(Ping), "b" := Of(Ping)], []);
    assert Run(es, 4) == State(Slots("", "", ""), Idle, map["a" := Of(Ping), "b" := Of(Ping)], [es[3]]);
  }
}

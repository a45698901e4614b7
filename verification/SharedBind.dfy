/** A UDP socket shared by reference count that can be swapped while in use and closed from any
    thread, as a machine whose steps are the atomic operations of the code: atomic counter
    updates, the compare-and-swap that elects the closer, taking the lock, reading `closed`
    under the lock, and the rest of each critical section.

    Threads interleave freely. `accepted` and `closes` record, with multiplicity, the sockets
    handed over to the bind and the sockets it has closed.
 */
module SharedBinds {
  import opened Common

  type Socket = nat
  type Thread = nat

  // ---------------------------------------------------------------- the critical sections

  /** The fields guarded by the lock, and the books on sockets. */
  datatype Core = Core(udpConn: Option<Socket>, rebinding: bool, accepted: multiset<Socket>, closes: multiset<Socket>)

  function Current(c: Core): multiset<Socket> {
    if c.udpConn.Some? then multiset{c.udpConn.value} else multiset{}
  }

  /** CloseSocket past its check: mark the rebind, close the socket if there is one. */
  function SwapOut(c: Core): Core {
    c.(rebinding := true, udpConn := None, closes := c.closes + Current(c))
  }

  /** Rebind past its check: close a leftover socket and install the new one. */
  function Install(c: Core, s: Socket): Core {
    Core(Some(s), false, c.accepted + multiset{s}, c.closes + Current(c))
  }

  /** The closer's critical section. */
  function Shut(c: Core): Core {
    c.(udpConn := None, closes := c.closes + Current(c))
  }

  /** Sockets in equal sockets out: what was accepted is closed or still installed. */
  predicate Conserved(c: Core) {
    c.accepted == c.closes + Current(c)
  }

  class SharedBind {
    var udpConn: Option<Socket>
    var rebinding: bool
    var closed: bool
    var port: nat
    ghost var accepted: multiset<Socket>
    ghost var closes: multiset<Socket>

    ghost function CoreState(): Core
      reads this
    {
      Core(udpConn, rebinding, accepted, closes)
    }

    constructor (conn: Socket, localPort: nat)
      ensures CoreState() == Core(Some(conn), false, multiset{conn}, multiset{}) && Conserved(CoreState())
      ensures !closed && port == localPort
    {
      udpConn, rebinding, closed, port := Some(conn), false, false, localPort;
      accepted, closes := multiset{conn}, multiset{};
    }

    ghost method CloseUnderlying(s: Socket)
      modifies this`closes
      ensures closes == old(closes) + multiset{s}
    {
      closes := closes + multiset{s};
    }

    /** Runs with the lock held; returns the port to rebind to, or nothing if already closed. */
    method CloseSocket() returns (released: Option<nat>)
      modifies this
      ensures closed == old(closed) && port == old(port)
      ensures old(closed) ==> released == None && CoreState() == old(CoreState())
      ensures !old(closed) ==> released == Some(port) && CoreState() == SwapOut(old(CoreState()))
      ensures !old(closed) ==> udpConn == None && rebinding && accepted == old(accepted)
      ensures !old(closed) ==> closes == old(closes) + (if old(udpConn).Some? then multiset{old(udpConn).value} else multiset{})
    {
      if closed {
        return None;
      }
      rebinding := true;
      if udpConn.Some? {
        CloseUnderlying(udpConn.value);
        udpConn := None;
      }
      return Some(port);
    }

    /** Runs with the lock held; refuses the socket if already closed. */
    method Rebind(newConn: Socket, localPort: nat) returns (ok: bool)
      modifies this
      ensures closed == old(closed) && ok == !old(closed)
      ensures old(closed) ==> CoreState() == old(CoreState()) && port == old(port)
      ensures !old(closed) ==> CoreState() == Install(old(CoreState()), newConn) && port == localPort
      ensures !old(closed) ==> udpConn == Some(newConn) && !rebinding && accepted == old(accepted) + multiset{newConn}
      ensures !old(closed) ==> closes == old(closes) + (if old(udpConn).Some? then multiset{old(udpConn).value} else multiset{})
    {
      if closed {
        return false;
      }
      if udpConn.Some? {
        CloseUnderlying(udpConn.value);
      }
      udpConn, port, rebinding := Some(newConn), localPort, false;
      accepted := accepted + multiset{newConn};
      return true;
    }

    /** The elected closer, with the lock held. */
    method CloseConnection()
      modifies this
      ensures closed == old(closed) && port == old(port) && CoreState() == Shut(old(CoreState()))
      ensures udpConn == None && rebinding == old(rebinding) && accepted == old(accepted)
      ensures closes == old(closes) + (if old(udpConn).Some? then multiset{old(udpConn).value} else multiset{})
    {
      if udpConn.Some? {
        CloseUnderlying(udpConn.value);
        udpConn := None;
      }
    }
  }

  // ---------------------------------------------------------------- threads and steps

  datatype Pc =
    | Idle
    | CountNegative                 // a release went below zero; the count is to be reset
    | CountZero                     // a release reached zero; the swap of `closed` comes next
    | CloseWaiting | CloseHolding   // won the swap; before and after taking the lock
    | SwapWaiting | SwapHolding | SwapChecked
    | RebindWaiting(s: Socket) | RebindHolding(s: Socket) | RebindChecked(s: Socket)

  datatype State = State(
    core: Core,
    refCount: int,
    closed: bool,
    holder: Option<Thread>,         // who holds the lock
    closer: Option<Thread>,         // who won the swap
    finished: bool,                 // the closer's critical section is over
    chanCloses: nat,                // how often the shutdown channel was closed
    pcs: map<Thread, Pc>,
    held: int)                      // references handed out and not yet released

  datatype Step =
    | AddRef(t: Thread)
    | Decrement(t: Thread)
    | ResetCount(t: Thread)
    | SwapClosed(t: Thread)
    | StartCloseSocket(t: Thread)
    | StartRebind(t: Thread, s: Socket)
    | Acquire(t: Thread)
    | LoadClosed(t: Thread)
    | Finish(t: Thread)

  function Initial(s: Socket): State {
    State(Core(Some(s), false, multiset{s}, multiset{}), 1, false, None, None, false, 0, map[], 1)
  }

  function PcOf(st: State, t: Thread): Pc {
    if t in st.pcs then st.pcs[t] else Idle
  }

  function GoTo(st: State, t: Thread, pc: Pc): State {
    st.(pcs := st.pcs[t := pc])
  }

  function Unlock(st: State, t: Thread): State {
    GoTo(st.(holder := None), t, Idle)
  }

  /** One atomic operation; a step its thread is not ready for changes nothing. */
  function Next(st: State, a: Step): State {
    var pc := PcOf(st, a.t);
    match a
    case AddRef(t) =>
      if pc.Idle? then st.(refCount := st.refCount + 1, held := st.held + 1) else st
    case Decrement(t) =>
      if !pc.Idle? then st
      else
        var n := st.refCount - 1;
        var counted := st.(refCount := n, held := st.held - 1);
        if n < 0 then GoTo(counted, t, CountNegative) else if n == 0 then GoTo(counted, t, CountZero) else counted
    case ResetCount(t) =>
      if pc.CountNegative? then GoTo(st.(refCount := 0), t, Idle) else st
    case SwapClosed(t) =>
      if !pc.CountZero? then st
      else if st.closed then GoTo(st, t, Idle)
      else GoTo(st.(closed := true, closer := Some(t), chanCloses := st.chanCloses + 1), t, CloseWaiting)
    case StartCloseSocket(t) =>
      if pc.Idle? then GoTo(st, t, SwapWaiting) else st
    case StartRebind(t, s) =>
      if pc.Idle? then GoTo(st, t, RebindWaiting(s)) else st
    case Acquire(t) =>
      if st.holder.Some? then st
      else
        (match pc
         case CloseWaiting => GoTo(st.(holder := Some(t)), t, CloseHolding)
         case SwapWaiting => GoTo(st.(holder := Some(t)), t, SwapHolding)
         case RebindWaiting(s) => GoTo(st.(holder := Some(t)), t, RebindHolding(s))
         case _ => st)
    case LoadClosed(t) =>
      (match pc
       case SwapHolding => if st.closed then Unlock(st, t) else GoTo(st, t, SwapChecked)
       case RebindHolding(s) => if st.closed then Unlock(st, t) else GoTo(st, t, RebindChecked(s))
       case _ => st)
    case Finish(t) =>
      (match pc
       case CloseHolding => Unlock(st.(core := Shut(st.core), finished := true), t)
       case SwapChecked => Unlock(st.(core := SwapOut(st.core)), t)
       case RebindChecked(s) => Unlock(st.(core := Install(st.core, s)), t)
       case _ => st)
  }

  function Run(s: Socket, steps: seq<Step>, n: nat): State
    requires n <= |steps|
  {
    if n == 0 then Initial(s) else Next(Run(s, steps, n - 1), steps[n - 1])
  }

  // ---------------------------------------------------------------- the invariant

  predicate Holding(pc: Pc) {
    pc.CloseHolding? || pc.SwapHolding? || pc.SwapChecked? || pc.RebindHolding? || pc.RebindChecked?
  }

  /** Where each thread can be, given who has the lock, who closes and whether closing is over. */
  predicate ThreadOk(st: State, t: Thread) {
    var pc := PcOf(st, t);
    && (Holding(pc) <==> st.holder == Some(t))
    && (pc.CloseWaiting? || pc.CloseHolding? <==> st.closer == Some(t) && !st.finished)
    && (pc.SwapChecked? || pc.RebindChecked? ==> !st.finished)
  }

  /** The part of the invariant that is not about single threads. */
  predicate FlagsOk(st: State) {
    && (!st.finished ==> (st.core.udpConn.None? <==> st.core.rebinding))
    && (st.closed <==> st.closer.Some?)
    && st.chanCloses == (if st.closed then 1 else 0)
    && (st.finished ==> st.closed && st.core.udpConn.None?)
  }

  ghost predicate Inv(st: State) {
    Conserved(st.core) && FlagsOk(st) && forall t :: ThreadOk(st, t)
  }

  lemma NextKeepsThread(st: State, a: Step, t: Thread)
    requires FlagsOk(st) && ThreadOk(st, a.t) && ThreadOk(st, t)
    ensures ThreadOk(Next(st, a), t)
  {
    if t == a.t {
      NextKeepsOwn(st, a);
    } else {
      NextKeepsOther(st, a, t);
    }
  }

  lemma NextKeepsOwn(st: State, a: Step)
    requires FlagsOk(st) && ThreadOk(st, a.t)
    ensures ThreadOk(Next(st, a), a.t)
  {
  }

  lemma NextKeepsOther(st: State, a: Step, t: Thread)
    requires FlagsOk(st) && ThreadOk(st, a.t) && ThreadOk(st, t) && t != a.t
    ensures ThreadOk(Next(st, a), t)
  {
  }

  /** Each critical section keeps the books on sockets. */
  lemma SectionsConserve(c: Core, s: Socket)
    requires Conserved(c)
    ensures Conserved(SwapOut(c)) && Conserved(Install(c, s)) && Conserved(Shut(c))
  {
  }

  lemma NextConserves(st: State, a: Step)
    requires Conserved(st.core)
    ensures Conserved(Next(st, a).core)
  {
    var pc := PcOf(st, a.t);
    SectionsConserve(st.core, if pc.RebindChecked? then pc.s else 0);
    if !a.Finish? {
      assert Next(st, a).core == st.core;
    }
  }

  lemma NextKeepsFlags(st: State, a: Step)
    requires FlagsOk(st) && ThreadOk(st, a.t)
    ensures FlagsOk(Next(st, a))
  {
  }

  lemma NextKeepsInv(st: State, a: Step)
    requires Inv(st)
    ensures Inv(Next(st, a))
  {
    assert ThreadOk(st, a.t);
    NextConserves(st, a);
    NextKeepsFlags(st, a);
    forall t
      ensures ThreadOk(Next(st, a), t)
    {
      assert ThreadOk(st, t);
      NextKeepsThread(st, a, t);
    }
  }

  /** Under every interleaving: sockets are conserved, at most one thread is in a critical
      section, the shutdown channel is closed once if at all, and until closing is over the
      socket is absent exactly while a rebind is in progress. */
  lemma {:induction false} ReachableInv(s: Socket, steps: seq<Step>, n: nat)
    requires n <= |steps|
    ensures Inv(Run(s, steps, n))
  {
    if n > 0 {
      ReachableInv(s, steps, n - 1);
      NextKeepsInv(Run(s, steps, n - 1), steps[n - 1]);
    }
  }

  /** No socket was handed over twice. */
  ghost predicate Distinct(m: multiset<Socket>) {
    forall x :: m[x] <= 1
  }

  /** Once closing is over every accepted socket has been closed as often as it was accepted,
      so exactly once if all were distinct; before that, all but the installed one. */
  lemma ClosedExactlyOnce(s: Socket, steps: seq<Step>, n: nat, x: Socket)
    requires n <= |steps| && Distinct(Run(s, steps, n).core.accepted) && x in Run(s, steps, n).core.accepted
    ensures Run(s, steps, n).core.closes[x] == (if Run(s, steps, n).core.udpConn == Some(x) then 0 else 1)
    ensures Run(s, steps, n).finished ==> Run(s, steps, n).core.closes[x] == 1
  {
    ReachableInv(s, steps, n);
    var c := Run(s, steps, n).core;
    assert c.accepted[x] == c.closes[x] + Current(c)[x];
  }

  /** After closing nothing is installed, accepted or closed any more. */
  lemma {:induction false} FrozenAfterClose(s: Socket, steps: seq<Step>, m: nat, n: nat)
    requires m <= n <= |steps| && Run(s, steps, m).finished
    ensures Run(s, steps, n).finished && Run(s, steps, n).core == Run(s, steps, m).core
    ensures Run(s, steps, n).core.udpConn.None?
    decreases n
  {
    if m == n {
      ReachableInv(s, steps, n);
    } else {
      FrozenAfterClose(s, steps, m, n - 1);
      StaysFrozen(s, steps, n - 1);
    }
  }

  lemma StaysFrozen(s: Socket, steps: seq<Step>, n: nat)
    requires n < |steps| && Run(s, steps, n).finished
    ensures Run(s, steps, n + 1).finished && Run(s, steps, n + 1).core == Run(s, steps, n).core
  {
    ReachableInv(s, steps, n);
    FrozenStep(Run(s, steps, n), steps[n]);
  }

  lemma FrozenStep(st: State, a: Step)
    requires Inv(st) && st.finished
    ensures Next(st, a).finished && Next(st, a).core == st.core
  {
    assert ThreadOk(st, a.t);
  }

  // ---------------------------------------------------------------- reference counting

  predicate HolderActs(st: State, a: Step) {
    (a.AddRef? || a.Decrement?) && PcOf(st, a.t).Idle? ==> st.held > 0
  }

  /** References are only passed on or released by someone who holds one. */
  predicate Disciplined(s: Socket, steps: seq<Step>, n: nat)
    requires n <= |steps|
  {
    n > 0 ==> Disciplined(s, steps, n - 1) && HolderActs(Run(s, steps, n - 1), steps[n - 1])
  }

  /** No thread is about to reset the count, and none is about to close with references out. */
  predicate ThreadCounted(st: State, t: Thread) {
    !PcOf(st, t).CountNegative? && (PcOf(st, t).CountZero? ==> st.held == 0)
  }

  ghost predicate Counted(st: State) {
    st.refCount == st.held >= 0 && (st.closed ==> st.held == 0) && forall t :: ThreadCounted(st, t)
  }

  lemma NextCounted(st: State, a: Step)
    requires Counted(st)
    requires HolderActs(st, a)
    ensures Counted(Next(st, a))
  {
    assert ThreadCounted(st, a.t);
    forall t
      ensures ThreadCounted(Next(st, a), t)
    {
      assert ThreadCounted(st, t);
    }
  }

  /** With that discipline the bind is never closed while a reference is outstanding. */
  lemma {:induction false} OpenWhileHeld(s: Socket, steps: seq<Step>, n: nat)
    requires n <= |steps| && Disciplined(s, steps, n)
    ensures Counted(Run(s, steps, n))
    ensures Run(s, steps, n).held > 0 ==> !Run(s, steps, n).closed
  {
    if n > 0 {
      OpenWhileHeld(s, steps, n - 1);
      NextCounted(Run(s, steps, n - 1), steps[n - 1]);
    }
  }

  /** Someone has taken the count to zero and is about to close. */
  ghost predicate AboutToClose(st: State) {
    exists t :: PcOf(st, t).CountZero?
  }

  lemma NextClosing(st: State, a: Step)
    requires Counted(st) && HolderActs(st, a) && (st.held == 0 ==> st.closed || AboutToClose(st))
    ensures Next(st, a).held == 0 ==> Next(st, a).closed || AboutToClose(Next(st, a))
  {
    var next := Next(st, a);
    if st.held > 0 {
      assert next.held == 0 ==> PcOf(next, a.t).CountZero?;
    } else if !st.closed {
      var t :| PcOf(st, t).CountZero?;
      assert t == a.t || PcOf(next, t) == PcOf(st, t);
      assert t == a.t ==> next.closed || PcOf(next, t).CountZero?;
    }
  }

  /** Nor does it stay open without one: once no reference is left the bind is closed, or a thread
      has still to make the swap. So between releases it is closed if and only if none is left. */
  lemma {:induction false} ClosedIffReleased(s: Socket, steps: seq<Step>, n: nat)
    requires n <= |steps| && Disciplined(s, steps, n)
    ensures var st := Run(s, steps, n);
            && (st.held == 0 ==> st.closed || AboutToClose(st))
            && (!AboutToClose(st) ==> (st.closed <==> st.held == 0))
  {
    OpenWhileHeld(s, steps, n);
    if n > 0 {
      ClosedIffReleased(s, steps, n - 1);
      OpenWhileHeld(s, steps, n - 1);
      NextClosing(Run(s, steps, n - 1), steps[n - 1]);
    }
  }

  /** The count does not stay negative: someone is about to reset it. */
  lemma {:induction false} NegativeIsReset(s: Socket, steps: seq<Step>, n: nat)
    requires n <= |steps|
    ensures var st := Run(s, steps, n); st.refCount >= 0 || exists t :: PcOf(st, t).CountNegative?
  {
    if n > 0 {
      NegativeIsReset(s, steps, n - 1);
      NextNegative(Run(s, steps, n - 1), steps[n - 1]);
    }
  }

  lemma NextNegative(st: State, a: Step)
    requires st.refCount >= 0 || exists t :: PcOf(st, t).CountNegative?
    ensures Next(st, a).refCount >= 0 || exists t :: PcOf(Next(st, a), t).CountNegative?
  {
    var next := Next(st, a);
    if st.refCount >= 0 {
      assert next.refCount < 0 ==> PcOf(next, a.t).CountNegative?;
    } else {
      var t :| PcOf(st, t).CountNegative?;
      assert t == a.t || PcOf(next, t) == PcOf(st, t);
      assert t == a.t ==> next.refCount >= 0 || PcOf(next, t).CountNegative?;
    }
  }

  // ---------------------------------------------------------------- one thread on its own

  /** Four steps in a row. */
  function Four(st: State, a: Step, b: Step, c: Step, d: Step): State {
    Next(Next(Next(Next(st, a), b), c), d)
  }

  /** The last release, undisturbed, closes the bind and the socket that is installed. */
  lemma LastReleaseCloses(st: State, t: Thread)
    requires st.refCount == 1 && !st.closed && st.holder.None? && PcOf(st, t).Idle?
    ensures var end := Four(st, Decrement(t), SwapClosed(t), Acquire(t), Finish(t));
            && end.closed && end.finished && end.chanCloses == st.chanCloses + 1
            && end.core.udpConn == None && end.core.accepted == st.core.accepted
            && end.core.closes == st.core.closes + (if st.core.udpConn.Some? then multiset{st.core.udpConn.value} else multiset{})
            && end.holder.None? && PcOf(end, t).Idle?
  {
    var a := Next(st, Decrement(t));
    assert PcOf(a, t) == CountZero;
    var b := Next(a, SwapClosed(t));
    assert PcOf(b, t) == CloseWaiting;
    var c := Next(b, Acquire(t));
    assert PcOf(c, t) == CloseHolding;
  }

  /** From wherever a thread is about to close, with the lock free, it does. */
  lemma CloserCloses(st: State, t: Thread)
    requires PcOf(st, t).CountZero? && !st.closed && st.holder.None?
    ensures var end := Next(Next(Next(st, SwapClosed(t)), Acquire(t)), Finish(t));
            && end.closed && end.finished && end.core.udpConn == None
            && end.core.closes == st.core.closes + (if st.core.udpConn.Some? then multiset{st.core.udpConn.value} else multiset{})
  {
    var b := Next(st, SwapClosed(t));
    assert PcOf(b, t) == CloseWaiting;
    var c := Next(b, Acquire(t));
    assert PcOf(c, t) == CloseHolding;
  }

  /** A rebind, undisturbed, installs its socket and closes the one before, unless the bind is
      closed; then it changes nothing. */
  lemma RebindInstalls(st: State, t: Thread, s: Socket)
    requires st.holder.None? && PcOf(st, t).Idle?
    ensures var end := Four(st, StartRebind(t, s), Acquire(t), LoadClosed(t), Finish(t));
            && end.holder.None? && PcOf(end, t).Idle? && end.closed == st.closed
            && (st.closed ==> end.core == st.core)
            && (!st.closed ==>
                  && end.core.udpConn == Some(s) && !end.core.rebinding && end.core.accepted == st.core.accepted + multiset{s}
                  && end.core.closes == st.core.closes + (if st.core.udpConn.Some? then multiset{st.core.udpConn.value} else multiset{}))
  {
    RebindEnters(st, t, s);
    RebindSection(Next(Next(st, StartRebind(t, s)), Acquire(t)), t, s);
  }

  lemma RebindEnters(st: State, t: Thread, s: Socket)
    requires st.holder.None? && PcOf(st, t).Idle?
    ensures var b := Next(Next(st, StartRebind(t, s)), Acquire(t));
            PcOf(b, t) == RebindHolding(s) && b.core == st.core && b.closed == st.closed
  {
  }

  lemma RebindSection(st: State, t: Thread, s: Socket)
    requires PcOf(st, t) == RebindHolding(s)
    ensures var end := Next(Next(st, LoadClosed(t)), Finish(t));
            && end.holder.None? && PcOf(end, t).Idle? && end.closed == st.closed
            && end.core == if st.closed then st.core else Install(st.core, s)
  {
    var c := Next(st, LoadClosed(t));
    assert PcOf(c, t) == if st.closed then Idle else RebindChecked(s);
  }

  /** So does closing the socket for a rebind take it out. */
  lemma CloseSocketTakesOut(st: State, t: Thread)
    requires st.holder.None? && PcOf(st, t).Idle?
    ensures var end := Four(st, StartCloseSocket(t), Acquire(t), LoadClosed(t), Finish(t));
            && end.holder.None? && PcOf(end, t).Idle? && end.closed == st.closed
            && (st.closed ==> end.core == st.core)
            && (!st.closed ==>
                  && end.core.udpConn == None && end.core.rebinding && end.core.accepted == st.core.accepted
                  && end.core.closes == st.core.closes + (if st.core.udpConn.Some? then multiset{st.core.udpConn.value} else multiset{}))
  {
    SwapEnters(st, t);
    SwapSection(Next(Next(st, StartCloseSocket(t)), Acquire(t)), t);
  }

  lemma SwapEnters(st: State, t: Thread)
    requires st.holder.None? && PcOf(st, t).Idle?
    ensures var b := Next(Next(st, StartCloseSocket(t)), Acquire(t));
            PcOf(b, t) == SwapHolding && b.core == st.core && b.closed == st.closed
  {
  }

  lemma SwapSection(st: State, t: Thread)
    requires PcOf(st, t) == SwapHolding
    ensures var end := Next(Next(st, LoadClosed(t)), Finish(t));
            && end.holder.None? && PcOf(end, t).Idle? && end.closed == st.closed
            && end.core == if st.closed then st.core else SwapOut(st.core)
  {
    var c := Next(st, LoadClosed(t));
    assert PcOf(c, t) == if st.closed then Idle else SwapChecked;
  }
}

/** What one goroutine achieves: which steps close a worker, and what a call, a registration, a round of
    the keepalive daemon and a shutdown leave behind (internal/netio/tcp/agent_manager.go,
    agent_call.go). */
module PoolRounds {
  import opened Results
  import opened Pool
  import opened PoolRuns

  // ----- closing -------------------------------------------------------------------------

  /** The worker is the first that the goroutine holds. */
  predicate AtHand(p: Places, t: nat, w: Worker) {
    Held(p, t) != [] && Held(p, t)[0] == w
  }

  /** The connection fails, there are too many agents, the pool shuts down, or the queue is full. */
  predicate Closes(s: State, t: nat, e: Event, max: nat) {
    match PcOf(s.pcs, t)
    case Using(_) => e.Fail?
    case KaSend(_) => e.Fail?
    case Reject => e.Go?
    case CloseWork(_) => e.Go?
    case AddPut(q) => e.Go? && |Items(s.p, q)| >= max
    case KaPut(todo) => e.Go? && todo != [] && |Items(s.p, todo[0].q)| >= max
    case _ => false
  }

  /** A worker is dropped as it is closed, or when the daemon meets it closed. */
  predicate Drops(s: State, t: nat, e: Event, max: nat, w: Worker) {
    match PcOf(s.pcs, t)
    case KaWork(_) => e.Go? && w in s.p.closed
    case KaSend(_) => e.Go? && w in s.p.closed
    case _ => !e.Fail? && Closes(s, t, e, max)
  }

  /** What the operations close and drop. */
  lemma Heads(p: Places, t: nat, q: nat, v: Worker, max: nat, w: Worker)
    ensures w in CloseHead(p, t).closed <==> w in p.closed || AtHand(p, t, w)
    ensures w in CloseHead(p, t).gone <==> w in p.gone || AtHand(p, t, w)
    ensures w in PutHead(p, t, q, max).closed <==> w in p.closed || (AtHand(p, t, w) && |Items(p, q)| >= max)
    ensures w in PutHead(p, t, q, max).gone <==> w in p.gone || (AtHand(p, t, w) && |Items(p, q)| >= max)
    ensures w in FailHead(p, t).closed <==> w in p.closed || AtHand(p, t, w)
    ensures FailHead(p, t).gone == TakeHead(p, t, q).gone == Drain(p, t, q).gone == Enter(p, t, v).gone == p.gone
    ensures TakeHead(p, t, q).closed == Drain(p, t, q).closed == Enter(p, t, v).closed == p.closed
  {
  }

  lemma HeldHead(p: Places, t: nat, w: Worker)
    ensures AtHand(p, t, w) ==> Held(p, t) != [] && Held(p, t)[0] == w
    ensures !AtHand(p, t, w) ==> Held(p, t) == [] || Held(p, t)[0] != w
  {
  }

  /** Exactly these steps close a worker or drop it, and never one that is not at hand. */
  lemma ClosedIff(s: State, t: nat, e: Event, max: nat, w: Worker)
    ensures var s2 := Step(s, t, e, max);
      && (w in s2.p.closed <==> w in s.p.closed || (AtHand(s.p, t, w) && Closes(s, t, e, max)))
      && (w in s2.p.gone <==> w in s.p.gone || (AtHand(s.p, t, w) && Drops(s, t, e, max, w)))
  {
    hide CallStep, BatchStep, CleanStep, ShutStep, Begin, Closes, Drops;
    if PcOf(s.pcs, t).Idle? {
      BeginCloses(s, t, e, max, w);
    } else if Calling(PcOf(s.pcs, t)) {
      CallCloses(s, t, e, max, w);
    } else if Batching(PcOf(s.pcs, t)) {
      BatchCloses(s, t, e, max, w);
    } else if Cleaning(PcOf(s.pcs, t)) {
      CleanCloses(s, t, e, max, w);
    } else {
      ShutCloses(s, t, e, max, w);
    }
  }

  lemma BeginCloses(s: State, t: nat, e: Event, max: nat, w: Worker)
    requires PcOf(s.pcs, t).Idle?
    ensures var s2 := Begin(s, t, e);
      && (w in s2.p.closed <==> w in s.p.closed || (AtHand(s.p, t, w) && Closes(s, t, e, max)))
      && (w in s2.p.gone <==> w in s.p.gone || (AtHand(s.p, t, w) && Drops(s, t, e, max, w)))
  {
    hide Goto, PcOf, CloseHead, PutHead, TakeHead, Drain, FailHead, Enter, Held, Items, Lists, Unlisted, AtHand;
    Heads(s.p, t, Target(s, t, e), Who(e), max, w);
    HeldHead(s.p, t, w);
  }

  lemma CallCloses(s: State, t: nat, e: Event, max: nat, w: Worker)
    requires Calling(PcOf(s.pcs, t))
    ensures var s2 := CallStep(s, t, e, max);
      && (w in s2.p.closed <==> w in s.p.closed || (AtHand(s.p, t, w) && Closes(s, t, e, max)))
      && (w in s2.p.gone <==> w in s.p.gone || (AtHand(s.p, t, w) && Drops(s, t, e, max, w)))
  {
    hide Goto, PcOf, CloseHead, PutHead, TakeHead, Drain, FailHead, Enter, Held, Items, Lists, Unlisted, AtHand;
    Heads(s.p, t, Target(s, t, e), Who(e), max, w);
    HeldHead(s.p, t, w);
  }

  lemma BatchCloses(s: State, t: nat, e: Event, max: nat, w: Worker)
    requires Batching(PcOf(s.pcs, t))
    ensures var s2 := BatchStep(s, t, e, max);
      && (w in s2.p.closed <==> w in s.p.closed || (AtHand(s.p, t, w) && Closes(s, t, e, max)))
      && (w in s2.p.gone <==> w in s.p.gone || (AtHand(s.p, t, w) && Drops(s, t, e, max, w)))
  {
    hide Goto, PcOf, CloseHead, PutHead, TakeHead, Drain, FailHead, Enter, Held, Items, Lists, Unlisted, AtHand;
    Heads(s.p, t, Target(s, t, e), Who(e), max, w);
    HeldHead(s.p, t, w);
  }

  lemma CleanCloses(s: State, t: nat, e: Event, max: nat, w: Worker)
    requires Cleaning(PcOf(s.pcs, t))
    ensures var s2 := CleanStep(s, t, e);
      && (w in s2.p.closed <==> w in s.p.closed || (AtHand(s.p, t, w) && Closes(s, t, e, max)))
      && (w in s2.p.gone <==> w in s.p.gone || (AtHand(s.p, t, w) && Drops(s, t, e, max, w)))
  {
    hide Goto, PcOf, CloseHead, PutHead, TakeHead, Drain, FailHead, Enter, Held, Items, Lists, Unlisted, AtHand;
    Heads(s.p, t, Target(s, t, e), Who(e), max, w);
    HeldHead(s.p, t, w);
  }

  lemma ShutCloses(s: State, t: nat, e: Event, max: nat, w: Worker)
    requires PcOf(s.pcs, t).CloseStart? || PcOf(s.pcs, t).CloseNext? || PcOf(s.pcs, t).CloseWork?
    ensures var s2 := ShutStep(s, t, e);
      && (w in s2.p.closed <==> w in s.p.closed || (AtHand(s.p, t, w) && Closes(s, t, e, max)))
      && (w in s2.p.gone <==> w in s.p.gone || (AtHand(s.p, t, w) && Drops(s, t, e, max, w)))
  {
    hide Goto, PcOf, CloseHead, PutHead, TakeHead, Drain, FailHead, Enter, Held, Items, Lists, Unlisted, AtHand;
    Heads(s.p, t, Target(s, t, e), Who(e), max, w);
    HeldHead(s.p, t, w);
  }

  // ----- steps of one goroutine ----------------------------------------------------------

  /** n steps of one goroutine. */
  function Alone(t: nat, n: nat): seq<(nat, Event)> {
    if n == 0 then [] else Alone(t, n - 1) + [(t, Go)]
  }

  function Stepped(s: State, t: nat, n: nat, max: nat): State {
    if n == 0 then s else Step(Stepped(s, t, n - 1, max), t, Go, max)
  }

  lemma {:induction false} AloneSteps(s: State, t: nat, n: nat, max: nat)
    ensures Run(s, Alone(t, n), max) == Stepped(s, t, n, max)
  {
    hide Step;
    if n > 0 {
      AloneSteps(s, t, n - 1, max);
      OneMore(s, Alone(t, n - 1), t, Go, max);
    }
  }

  lemma ThreeSteps(s: State, t: nat, max: nat)
    ensures Stepped(s, t, 1, max) == Step(s, t, Go, max)
    ensures Stepped(s, t, 2, max) == Step(Step(s, t, Go, max), t, Go, max)
    ensures Stepped(s, t, 3, max) == Step(Step(Step(s, t, Go, max), t, Go, max), t, Go, max)
  {
    hide Step;
    assert Stepped(s, t, 0, max) == s;
    assert Stepped(s, t, 2, max) == Step(Stepped(s, t, 1, max), t, Go, max);
    assert Stepped(s, t, 3, max) == Step(Stepped(s, t, 2, max), t, Go, max);
  }

  lemma {:induction false} SteppedAdd(s: State, t: nat, a: nat, b: nat, max: nat)
    ensures Stepped(s, t, a + b, max) == Stepped(Stepped(s, t, a, max), t, b, max)
  {
    hide Step;
    if b > 0 {
      SteppedAdd(s, t, a, b - 1, max);
    }
  }

  lemma OneMore(s: State, steps: seq<(nat, Event)>, t: nat, e: Event, max: nat)
    ensures Run(s, steps + [(t, e)], max) == Step(Run(s, steps, max), t, e, max)
  {
    assert (steps + [(t, e)])[..|steps|] == steps;
  }

  lemma {:induction false} RunConcat(s: State, a: seq<(nat, Event)>, b: seq<(nat, Event)>, max: nat)
    ensures Run(s, a + b, max) == Run(Run(s, a, max), b, max)
  {
    hide Step;
    if b == [] {
      assert a + b == a;
    } else {
      RunConcat(s, a, b[..|b| - 1], max);
      assert (a + b)[..|a + b| - 1] == a + b[..|b| - 1];
    }
  }

  /** Nothing but the queue and the goroutine has changed. */
  ghost predicate Else(s0: State, s: State, t: nat, q: nat) {
    && s.agents == s0.agents && s.lock == s0.lock && s.queues == s0.queues
    && s.p.known == s0.p.known && s.p.closed == s0.p.closed && s.p.gone == s0.p.gone
    && (forall r: nat :: r != q ==> Items(s.p, r) == Items(s0.p, r))
    && (forall u: nat :: u != t ==> PcOf(s.pcs, u) == PcOf(s0.pcs, u) && Held(s.p, u) == Held(s0.p, u))
  }

  lemma MoveOn(s0: State, s: State, t: nat, q: nat, pc: Pc)
    requires Else(s0, s, t, q)
    ensures Else(s0, Goto(s, t, s.p, pc), t, q)
  {
    hide Goto, PcOf, Items, Held;
  }

  lemma Taken(s0: State, s: State, t: nat, q: nat, pc: Pc)
    requires Else(s0, s, t, q) && Items(s.p, q) != []
    ensures var s2 := Goto(s, t, TakeHead(s.p, t, q), pc);
      Else(s0, s2, t, q) && Items(s2.p, q) == Items(s.p, q)[1..] && Held(s2.p, t) == Held(s.p, t) + [Items(s.p, q)[0]]
  {
    hide Goto, PcOf;
  }

  lemma Back(s0: State, s: State, t: nat, q: nat, pc: Pc, max: nat)
    requires Else(s0, s, t, q) && Held(s.p, t) != [] && |Items(s.p, q)| < max
    ensures var s2 := Goto(s, t, PutHead(s.p, t, q, max), pc);
      Else(s0, s2, t, q) && Items(s2.p, q) == Items(s.p, q) + [Held(s.p, t)[0]] && Held(s2.p, t) == Held(s.p, t)[1..]
  {
    hide Goto, PcOf;
  }

  lemma AllTaken(s0: State, s: State, t: nat, q: nat, pc: Pc)
    requires Else(s0, s, t, q) && Held(s.p, t) == []
    ensures var s2 := Goto(s, t, Drain(s.p, t, q), pc);
      Else(s0, s2, t, q) && Items(s2.p, q) == [] && Held(s2.p, t) == Items(s.p, q)
  {
    hide Goto, PcOf;
  }

  lemma Itself(s: State, t: nat, q: nat)
    ensures Else(s, s, t, q)
  {
  }

  /** Single steps of the daemon. */
  lemma DaemonGoes(s: State, t: nat, todo: seq<Listed>, max: nat)
    requires todo != []
    ensures var pc, s2 := PcOf(s.pcs, t), Step(s, t, Go, max);
      && (pc == KaWork(todo) && Held(s.p, t) == [] ==> s2 == Goto(s, t, s.p, KaSize(todo)))
      && (pc == KaWork(todo) && Held(s.p, t) != [] && Held(s.p, t)[0] !in s.p.closed ==> s2 == Goto(s, t, s.p, KaSend(todo)))
      && (pc == KaSend(todo) && Held(s.p, t) != [] && Held(s.p, t)[0] !in s.p.closed ==> s2 == Goto(s, t, s.p, KaPut(todo)))
      && (pc == KaPut(todo) ==> s2 == Goto(s, t, PutHead(s.p, t, todo[0].q, max), KaWork(todo)))
  {
    hide Goto, PcOf, Items, Held, PutHead, CloseHead, FailHead, CallStep, CleanStep, ShutStep, Begin;
  }

  lemma CleanerGoes(s: State, t: nat, todo: seq<Listed>, max: nat)
    requires todo != []
    ensures var pc, s2 := PcOf(s.pcs, t), Step(s, t, Go, max);
      && (pc == KaSize(todo) && Items(s.p, todo[0].q) != [] ==> s2 == Goto(s, t, s.p, KaNext(todo[1..])))
      && (pc == KaSize(todo) && Items(s.p, todo[0].q) == [] ==> s2 == Goto(s, t, s.p, KaLock(todo)))
      && (pc == KaLock(todo) && s.lock == None ==> s2 == Goto(s.(lock := Some(t)), t, s.p, KaSize2(todo)))
      && (pc == KaSize2(todo) && Items(s.p, todo[0].q) == [] ==> s2 == Goto(s, t, s.p, KaDelete(todo)))
      && (pc == KaDelete(todo) ==> s2 == Goto(s.(agents := Unlisted(s.agents, todo[0].obj)), t, s.p, KaUnlock(todo)))
      && (pc == KaUnlock(todo) ==> s2 == Goto(s.(lock := None), t, s.p, KaNext(todo[1..])))
  {
    hide Goto, PcOf, Items, Held, Unlisted, CallStep, BatchStep, ShutStep, Begin;
  }

  /** Single steps of a caller. */
  lemma CallerGoes(s: State, t: nat, obj: ObjHash, q: nat, max: nat)
    ensures var pc, s2 := PcOf(s.pcs, t), Step(s, t, Go, max);
      && (pc == GetLookup(obj) && s.lock == None && obj in s.agents ==> s2 == Goto(s, t, s.p, GetTake(obj, s.agents[obj])))
      && (pc == GetLookup(obj) && s.lock == None && obj !in s.agents ==> s2 == Goto(s, t, s.p, Idle))
      && (pc == GetTake(obj, q) && Items(s.p, q) != [] ==> s2 == Goto(s, t, TakeHead(s.p, t, q), Using(obj)))
      && (pc == GetTake(obj, q) && Items(s.p, q) == [] ==> s2 == Goto(s, t, s.p, GetWait(obj, q)))
      && (pc == GetWait(obj, q) && Items(s.p, q) == [] ==> s2 == Goto(s, t, s.p, Idle))
      && (pc == Using(obj) ==> s2 == Goto(s, t, s.p, AddLookup(obj)))
      && (pc == AddLookup(obj) && s.lock == None && obj in s.agents ==> s2 == Goto(s, t, s.p, AddPut(s.agents[obj])))
      && (pc == AddPut(q) ==> s2 == Goto(s, t, PutHead(s.p, t, q, max), Idle))
      && (pc == Idle ==> s2 == s)
  {
    hide Goto, PcOf, Items, Held, PutHead, TakeHead, CloseHead, FailHead, BatchStep, CleanStep, ShutStep;
  }

  // ----- the keepalive daemon on one queue -----------------------------------------------

  /** The daemon has put back the first i workers of the queue. */
  ghost predicate Midway(s0: State, s: State, t: nat, todo: seq<Listed>, i: nat) {
    && todo != [] && i <= |Items(s0.p, todo[0].q)|
    && Else(s0, s, t, todo[0].q) && PcOf(s.pcs, t) == KaWork(todo)
    && Items(s.p, todo[0].q) == Items(s0.p, todo[0].q)[..i] && Held(s.p, t) == Items(s0.p, todo[0].q)[i..]
  }

  lemma Drained(s: State, t: nat, todo: seq<Listed>, max: nat)
    requires PcOf(s.pcs, t) == KaNext(todo) && todo != [] && Held(s.p, t) == []
    ensures Midway(s, Step(s, t, Go, max), t, todo, 0)
  {
    hide Goto, PcOf, Items, Held, Drain, Else;
    Itself(s, t, todo[0].q);
    AllTaken(s, s, t, todo[0].q, KaWork(todo));
  }

  lemma OneBack(s0: State, s: State, t: nat, todo: seq<Listed>, i: nat, max: nat)
    requires Midway(s0, s, t, todo, i) && i < |Items(s0.p, todo[0].q)| <= max && Items(s0.p, todo[0].q)[i] !in s0.p.closed
    ensures Midway(s0, Step(Step(Step(s, t, Go, max), t, Go, max), t, Go, max), t, todo, i + 1)
  {
    hide Step, Goto, PcOf, Items, Held, PutHead, CloseHead;
    var q := todo[0].q;
    var s1 := Goto(s, t, s.p, KaSend(todo));
    var s2 := Goto(s1, t, s1.p, KaPut(todo));
    var s3 := Goto(s2, t, PutHead(s2.p, t, q, max), KaWork(todo));
    ElseThat(s0, s, t, q);
    DaemonGoes(s, t, todo, max);
    MoveOn(s0, s, t, q, KaSend(todo));
    DaemonGoes(s1, t, todo, max);
    MoveOn(s0, s1, t, q, KaPut(todo));
    DaemonGoes(s2, t, todo, max);
    Back(s0, s2, t, q, KaWork(todo), max);
  }

  lemma ElseThat(s0: State, s: State, t: nat, q: nat)
    requires Else(s0, s, t, q)
    ensures s.p.closed == s0.p.closed
  {
  }

  lemma {:induction false} AllBack(s0: State, s: State, t: nat, todo: seq<Listed>, i: nat, max: nat)
    requires todo != [] && Midway(s0, s, t, todo, 0) && i <= |Items(s0.p, todo[0].q)| <= max
    requires forall w :: w in Items(s0.p, todo[0].q) ==> w !in s0.p.closed
    ensures Midway(s0, Stepped(s, t, 3 * i, max), t, todo, i)
  {
    hide Step, Midway, Items;
    if i > 0 {
      AllBack(s0, s, t, todo, i - 1, max);
      var s1 := Stepped(s, t, 3 * (i - 1), max);
      SteppedAdd(s, t, 3 * (i - 1), 3, max);
      ThreeSteps(s1, t, max);
      assert Items(s0.p, todo[0].q)[i - 1] in Items(s0.p, todo[0].q);
      OneBack(s0, s1, t, todo, i - 1, max);
    }
  }

  /** The daemon has passed the first queue of its list; an empty queue is taken out of the map. */
  ghost predicate Passed(s0: State, s: State, t: nat, todo: seq<Listed>)
    requires todo != []
  {
    && PcOf(s.pcs, t) == KaNext(todo[1..]) && Held(s.p, t) == []
    && Else(s0, s.(agents := s0.agents), t, todo[0].q) && Items(s.p, todo[0].q) == Items(s0.p, todo[0].q)
    && s.agents == if Items(s0.p, todo[0].q) == [] then Unlisted(s0.agents, todo[0].obj) else s0.agents
  }

  lemma SizeSeen(s0: State, s: State, t: nat, todo: seq<Listed>, max: nat)
    requires todo != [] && Midway(s0, s, t, todo, |Items(s0.p, todo[0].q)|) && Items(s0.p, todo[0].q) != []
    ensures Passed(s0, Stepped(s, t, 2, max), t, todo)
  {
    hide Step, Goto, PcOf, Items, Held, Unlisted;
    var q := todo[0].q;
    var s1 := Goto(s, t, s.p, KaSize(todo));
    DaemonGoes(s, t, todo, max);
    MoveOn(s0, s, t, q, KaSize(todo));
    var s2 := Goto(s1, t, s1.p, KaNext(todo[1..]));
    CleanerGoes(s1, t, todo, max);
    MoveOn(s0, s1, t, q, KaNext(todo[1..]));
    ThreeSteps(s, t, max);
    assert s2.(agents := s0.agents) == s2;
  }

  lemma LocksEmpty(s0: State, s: State, t: nat, todo: seq<Listed>, max: nat)
    requires todo != [] && Midway(s0, s, t, todo, 0) && Items(s0.p, todo[0].q) == [] && s0.lock == None
    ensures var s3 := Stepped(s, t, 3, max);
      && PcOf(s3.pcs, t) == KaSize2(todo) && s3.lock == Some(t) && Else(s0, s3.(lock := None), t, todo[0].q)
      && Items(s3.p, todo[0].q) == [] && Held(s3.p, t) == []
  {
    hide Step, Goto, PcOf, Items, Held, Unlisted;
    var q := todo[0].q;
    var s1 := Goto(s, t, s.p, KaSize(todo));
    DaemonGoes(s, t, todo, max);
    MoveOn(s0, s, t, q, KaSize(todo));
    var s2 := Goto(s1, t, s1.p, KaLock(todo));
    CleanerGoes(s1, t, todo, max);
    MoveOn(s0, s1, t, q, KaLock(todo));
    var s3 := Goto(s2.(lock := Some(t)), t, s2.p, KaSize2(todo));
    CleanerGoes(s2, t, todo, max);
    MoveOn(s0, s2, t, q, KaSize2(todo));
    SameElse(s0, Goto(s2, t, s2.p, KaSize2(todo)), s3.(lock := None), t, q);
    ThreeSteps(s, t, max);
  }

  lemma SameElse(s0: State, s: State, s2: State, t: nat, q: nat)
    requires Else(s0, s, t, q) && s2.p == s.p && s2.agents == s.agents && s2.lock == s.lock && s2.queues == s.queues
    requires forall u: nat :: u != t ==> PcOf(s2.pcs, u) == PcOf(s.pcs, u)
    ensures Else(s0, s2, t, q)
  {
    hide PcOf, Items, Held;
  }

  lemma DeletesEmpty(s0: State, s: State, t: nat, todo: seq<Listed>, max: nat)
    requires todo != [] && PcOf(s.pcs, t) == KaSize2(todo) && s.lock == Some(t) && s0.lock == None
    requires Else(s0, s.(lock := None), t, todo[0].q) && Items(s.p, todo[0].q) == [] && Held(s.p, t) == [] && Items(s0.p, todo[0].q) == []
    ensures Passed(s0, Stepped(s, t, 3, max), t, todo)
  {
    hide Step, Goto, PcOf, Items, Held, Unlisted;
    var q := todo[0].q;
    var s1 := Goto(s, t, s.p, KaDelete(todo));
    CleanerGoes(s, t, todo, max);
    var s2 := Goto(s1.(agents := Unlisted(s1.agents, todo[0].obj)), t, s1.p, KaUnlock(todo));
    CleanerGoes(s1, t, todo, max);
    var s3 := Goto(s2.(lock := None), t, s2.p, KaNext(todo[1..]));
    CleanerGoes(s2, t, todo, max);
    SameElse(s0, s.(lock := None), s3.(agents := s0.agents), t, q);
    ThreeSteps(s, t, max);
  }

  /** The daemon alone on a queue of open workers leaves them there, in order, and closes none. */
  lemma QueueRound(s: State, t: nat, todo: seq<Listed>, max: nat) returns (n: nat)
    requires PcOf(s.pcs, t) == KaNext(todo) && todo != [] && Held(s.p, t) == [] && s.lock == None
    requires |Items(s.p, todo[0].q)| <= max && forall w :: w in Items(s.p, todo[0].q) ==> w !in s.p.closed
    ensures Passed(s, Stepped(s, t, n, max), t, todo)
  {
    hide Step, PcOf, Held, Passed, Midway, Else;
    var k := |Items(s.p, todo[0].q)|;
    Drained(s, t, todo, max);
    var s1 := Step(s, t, Go, max);
    AllBack(s, s1, t, todo, k, max);
    var s2 := Stepped(s1, t, 3 * k, max);
    ThreeSteps(s, t, max);
    SteppedAdd(s, t, 1, 3 * k, max);
    if k > 0 {
      SizeSeen(s, s2, t, todo, max);
      n := 1 + 3 * k + 2;
      SteppedAdd(s, t, 1 + 3 * k, 2, max);
    } else {
      LocksEmpty(s, s2, t, todo, max);
      DeletesEmpty(s, Stepped(s2, t, 3, max), t, todo, max);
      n := 1 + 3 * k + 6;
      SteppedAdd(s, t, 1 + 3 * k, 6, max);
      SteppedAdd(s2, t, 3, 3, max);
    }
  }

  // ----- a round of the keepalive daemon -------------------------------------------------

  /** Nothing but the goroutine and the map has changed, and every queue is as it was. */
  ghost predicate Quietly(s0: State, s: State, t: nat) {
    && s.lock == s0.lock && s.queues == s0.queues
    && s.p.known == s0.p.known && s.p.closed == s0.p.closed && s.p.gone == s0.p.gone
    && (forall q: nat :: Items(s.p, q) == Items(s0.p, q))
    && (forall u: nat :: u != t ==> PcOf(s.pcs, u) == PcOf(s0.pcs, u) && Held(s.p, u) == Held(s0.p, u))
  }

  function Cleaned(agents: map<ObjHash, nat>, todo: seq<Listed>, p: Places): map<ObjHash, nat> {
    if todo == [] then agents
    else Cleaned(if Items(p, todo[0].q) == [] then Unlisted(agents, todo[0].obj) else agents, todo[1..], p)
  }

  lemma PassedQuietly(s0: State, s: State, t: nat, todo: seq<Listed>)
    requires todo != [] && Passed(s0, s, t, todo)
    ensures Quietly(s0, s, t)
  {
    hide PcOf, Items, Held, Unlisted;
  }

  lemma QuietlyTransitive(a: State, b: State, c: State, t: nat)
    requires Quietly(a, b, t) && Quietly(b, c, t)
    ensures Quietly(a, c, t)
  {
    hide PcOf, Items, Held;
  }

  lemma {:induction false} CleanedSame(agents: map<ObjHash, nat>, todo: seq<Listed>, p: Places, p2: Places)
    requires forall q: nat :: Items(p2, q) == Items(p, q)
    ensures Cleaned(agents, todo, p2) == Cleaned(agents, todo, p)
  {
    hide Items, Unlisted;
    if todo != [] {
      CleanedSame(if Items(p, todo[0].q) == [] then Unlisted(agents, todo[0].obj) else agents, todo[1..], p, p2);
    }
  }

  lemma {:induction false} ListRound(s: State, t: nat, todo: seq<Listed>, max: nat) returns (n: nat)
    requires PcOf(s.pcs, t) == KaNext(todo) && Held(s.p, t) == [] && s.lock == None
    requires forall q: nat :: |Items(s.p, q)| <= max && forall w :: w in Items(s.p, q) ==> w !in s.p.closed
    ensures var s2 := Stepped(s, t, n, max);
      PcOf(s2.pcs, t) == Idle && Held(s2.p, t) == [] && Quietly(s, s2, t) && s2.agents == Cleaned(s.agents, todo, s.p)
    decreases |todo|
  {
    hide Step, PcOf, Held, Items, Quietly, Unlisted, Else;
    if todo == [] {
      n := 1;
      ThreeSteps(s, t, max);
      GoesIdle(s, t, max);
    } else {
      var k := QueueRound(s, t, todo, max);
      var s1 := Stepped(s, t, k, max);
      PassedQuietly(s, s1, t, todo);
      QuietlyThat(s, s1, t);
      var m := ListRound(s1, t, todo[1..], max);
      n := k + m;
      SteppedAdd(s, t, k, m, max);
      QuietlyTransitive(s, s1, Stepped(s, t, n, max), t);
      CleanedSame(s1.agents, todo[1..], s.p, s1.p);
    }
  }

  lemma QuietlyThat(s0: State, s: State, t: nat)
    requires Quietly(s0, s, t)
    ensures s.lock == s0.lock && s.p.closed == s0.p.closed && forall q: nat :: Items(s.p, q) == Items(s0.p, q)
  {
  }

  lemma GoesIdle(s: State, t: nat, max: nat)
    requires PcOf(s.pcs, t) == KaNext([])
    ensures var s2 := Step(s, t, Go, max);
      PcOf(s2.pcs, t) == Idle && Held(s2.p, t) == Held(s.p, t) && Quietly(s, s2, t) && s2.agents == s.agents
  {
    hide Goto, PcOf, Items, Held;
  }

  ghost predicate Kept(todo: seq<Listed>, p: Places, obj: ObjHash) {
    forall i :: 0 <= i < |todo| && todo[i].obj == obj ==> Items(p, todo[i].q) != []
  }

  lemma KeptSplits(todo: seq<Listed>, p: Places, obj: ObjHash)
    requires todo != []
    ensures Kept(todo, p, obj) <==> (todo[0].obj == obj ==> Items(p, todo[0].q) != []) && Kept(todo[1..], p, obj)
  {
    hide Items;
    assert forall i :: 0 < i < |todo| ==> todo[1..][i - 1] == todo[i];
  }

  lemma {:induction false} CleanedIs(agents: map<ObjHash, nat>, todo: seq<Listed>, p: Places, obj: ObjHash)
    ensures var r := Cleaned(agents, todo, p);
      && (obj in r <==> obj in agents && Kept(todo, p, obj))
      && (obj in r ==> r[obj] == agents[obj])
  {
    hide Items, Kept, Unlisted;
    NothingListed(p, obj);
    if todo != [] {
      var less := if Items(p, todo[0].q) == [] then Unlisted(agents, todo[0].obj) else agents;
      CleanedIs(less, todo[1..], p, obj);
      KeptSplits(todo, p, obj);
    }
  }

  lemma NothingListed(p: Places, obj: ObjHash)
    ensures Kept([], p, obj)
  {
  }

  function ObjsOf(order: seq<Listed>): set<ObjHash> {
    set i | 0 <= i < |order| :: order[i].obj
  }

  lemma {:induction false} ManyObjs(order: seq<Listed>)
    requires forall i, j :: 0 <= i < j < |order| ==> order[i].obj != order[j].obj
    ensures |ObjsOf(order)| == |order|
  {
    if order != [] {
      var n := |order| - 1;
      ManyObjs(order[..n]);
      assert ObjsOf(order) == ObjsOf(order[..n]) + {order[n].obj};
    }
  }

  lemma AllListed(order: seq<Listed>, agents: map<ObjHash, nat>, obj: ObjHash)
    requires Lists(order, agents) && obj in agents
    ensures exists i :: 0 <= i < |order| && order[i].obj == obj
  {
    ManyObjs(order);
    assert ObjsOf(order) <= agents.Keys;
    if obj !in ObjsOf(order) {
      Fewer(ObjsOf(order), agents.Keys - {obj});
    }
  }

  lemma {:induction false} Fewer(a: set<ObjHash>, b: set<ObjHash>)
    requires a <= b
    ensures |a| <= |b|
    decreases a
  {
    if a != {} {
      var x :| x in a;
      Fewer(a - {x}, b - {x});
    }
  }

  /** A whole round of the daemon while nothing else runs and no connection fails: every queue keeps its
      workers in order, none is closed, and exactly the objects whose queue is empty leave the map. */
  lemma KeepaliveRound(s: State, t: nat, order: seq<Listed>, max: nat) returns (n: nat)
    requires Inv(s, max) && PcOf(s.pcs, t) == Idle && s.lock == None && Lists(order, s.agents)
    requires forall q: nat, w :: w in Items(s.p, q) ==> w !in s.p.closed
    ensures var s2 := Run(s, [(t, Keepalive), (t, Snapshot(order))] + Alone(t, n), max);
      && PcOf(s2.pcs, t) == Idle && Held(s2.p, t) == [] && Quietly(s, s2, t)
      && (forall obj :: obj in s2.agents <==> obj in s.agents && Items(s.p, s.agents[obj]) != [])
      && (forall obj :: obj in s2.agents ==> s2.agents[obj] == s.agents[obj])
  {
    hide Step, PcOf, Held, Items, Quietly, Lists, Cleaned, Workers, Numbered;
    assert HoldsRight(PcOf(s.pcs, t), Held(s.p, t));
    var s1 := Step(Step(s, t, Keepalive, max), t, Snapshot(order), max);
    Starts(s, t, order, max);
    QuietlyThat(s, s1, t);
    Bounded(s.p, max);
    n := ListRound(s1, t, order, max);
    AloneSteps(s1, t, n, max);
    TwoFirst(s, t, Keepalive, Snapshot(order), Alone(t, n), max);
    QuietlyTransitive(s, s1, Stepped(s1, t, n, max), t);
    CleanedSame(s.agents, order, s.p, s1.p);
    forall obj
      ensures obj in Cleaned(s.agents, order, s.p) <==> obj in s.agents && Items(s.p, s.agents[obj]) != []
      ensures obj in Cleaned(s.agents, order, s.p) ==> Cleaned(s.agents, order, s.p)[obj] == s.agents[obj]
    {
      CleanedIs(s.agents, order, s.p, obj);
      ListedQueues(order, s.agents);
      if obj in s.agents {
        AllListed(order, s.agents, obj);
      }
    }
  }

  lemma ListedQueues(order: seq<Listed>, agents: map<ObjHash, nat>)
    requires Lists(order, agents)
    ensures forall i :: 0 <= i < |order| ==> order[i].obj in agents && order[i].q == agents[order[i].obj]
  {
  }

  lemma Bounded(p: Places, max: nat)
    requires Workers(p, max)
    ensures forall q: nat :: |Items(p, q)| <= max
  {
  }

  lemma Starts(s: State, t: nat, order: seq<Listed>, max: nat)
    requires PcOf(s.pcs, t) == Idle && s.lock == None && Lists(order, s.agents)
    ensures var s2 := Step(Step(s, t, Keepalive, max), t, Snapshot(order), max);
      PcOf(s2.pcs, t) == KaNext(order) && Held(s2.p, t) == Held(s.p, t) && Quietly(s, s2, t) && s2.agents == s.agents
  {
    hide Goto, PcOf, Items, Held, Lists;
    var s1 := Goto(s, t, s.p, KaSnapshot);
    assert Step(s, t, Keepalive, max) == s1;
    assert Step(s1, t, Snapshot(order), max) == Goto(s1, t, s1.p, KaNext(order));
  }

  lemma TwoFirst(s: State, t: nat, d: Event, e: Event, rest: seq<(nat, Event)>, max: nat)
    ensures Run(s, [(t, d), (t, e)] + rest, max) == Run(Step(Step(s, t, d, max), t, e, max), rest, max)
  {
    hide Step;
    RunConcat(s, [(t, d), (t, e)], rest, max);
    OneMore(s, [(t, d)], t, e, max);
    OneMore(s, [], t, d, max);
    assert [] + [(t, d)] == [(t, d)] && [(t, d)] + [(t, e)] == [(t, d), (t, e)];
  }

  // ----- a call and a registration -------------------------------------------------------

  /** A call alone takes the oldest worker and leaves it, as it is, at the end of the queue; without a worker
      it leaves everything as it is. */
  lemma CallAlone(s: State, t: nat, obj: ObjHash, max: nat)
    requires Inv(s, max) && PcOf(s.pcs, t) == Idle && s.lock == None
    ensures var s2 := Run(s, [(t, Call(obj))] + Alone(t, 5), max);
      && PcOf(s2.pcs, t) == Idle && Held(s2.p, t) == []
      && if obj in s.agents && Items(s.p, s.agents[obj]) != [] then
        && Else(s, s2, t, s.agents[obj])
        && Items(s2.p, s.agents[obj]) == Items(s.p, s.agents[obj])[1..] + [Items(s.p, s.agents[obj])[0]]
      else Quietly(s, s2, t) && s2.agents == s.agents
  {
    hide Step, PcOf, Held, Items, Else, Quietly, Workers, Numbered;
    assert HoldsRight(PcOf(s.pcs, t), Held(s.p, t));
    Bounded(s.p, max);
    var s1 := Step(s, t, Call(obj), max);
    Asks(s, t, obj, max);
    QuietlyThat(s, s1, t);
    OneFirst(s, t, Call(obj), Alone(t, 5), max);
    AloneSteps(s1, t, 5, max);
    if obj in s.agents {
      var q := s.agents[obj];
      if Items(s.p, q) != [] {
        TakesAndReturns(s, s1, t, obj, max);
      } else {
        WaitsInVain(s, s1, t, obj, max);
      }
    } else {
      FindsNothing(s, s1, t, obj, max);
    }
  }

  lemma OneFirst(s: State, t: nat, e: Event, rest: seq<(nat, Event)>, max: nat)
    ensures Run(s, [(t, e)] + rest, max) == Run(Step(s, t, e, max), rest, max)
  {
    hide Step;
    RunConcat(s, [(t, e)], rest, max);
    OneMore(s, [], t, e, max);
    assert [] + [(t, e)] == [(t, e)];
  }

  lemma Asks(s: State, t: nat, obj: ObjHash, max: nat)
    requires PcOf(s.pcs, t) == Idle && Held(s.p, t) == []
    ensures var s2 := Step(s, t, Call(obj), max);
      PcOf(s2.pcs, t) == GetLookup(obj) && Held(s2.p, t) == [] && s2.lock == s.lock && Quietly(s, s2, t) && s2.agents == s.agents
      && forall q: nat :: Else(s, s2, t, q)
  {
    hide Goto, PcOf, Items, Held;
    assert Step(s, t, Call(obj), max) == Goto(s, t, s.p, GetLookup(obj));
  }

  lemma TakesAndReturns(s0: State, s: State, t: nat, obj: ObjHash, max: nat)
    requires obj in s0.agents && Else(s0, s, t, s0.agents[obj]) && Items(s.p, s0.agents[obj]) == Items(s0.p, s0.agents[obj]) != []
    requires PcOf(s.pcs, t) == GetLookup(obj) && Held(s.p, t) == [] && s0.lock == None && |Items(s0.p, s0.agents[obj])| <= max
    ensures var s2, q := Stepped(s, t, 5, max), s0.agents[obj];
      && PcOf(s2.pcs, t) == Idle && Held(s2.p, t) == [] && Else(s0, s2, t, q)
      && Items(s2.p, q) == Items(s0.p, q)[1..] + [Items(s0.p, q)[0]]
  {
    hide Step, Goto, PcOf, Items, Held, TakeHead, PutHead, Else;
    ElseKeeps(s0, s, t, s0.agents[obj]);
    var q := s0.agents[obj];
    var s1 := Goto(s, t, s.p, GetTake(obj, q));
    CallerGoes(s, t, obj, q, max);
    MoveOn(s0, s, t, q, GetTake(obj, q));
    var s2 := Goto(s1, t, TakeHead(s1.p, t, q), Using(obj));
    CallerGoes(s1, t, obj, q, max);
    Taken(s0, s1, t, q, Using(obj));
    var s3 := Goto(s2, t, s2.p, AddLookup(obj));
    CallerGoes(s2, t, obj, q, max);
    MoveOn(s0, s2, t, q, AddLookup(obj));
    ElseKeeps(s0, s3, t, q);
    ThreeSteps(s, t, max);
    Returned(s0, s3, t, obj, max);
    SteppedAdd(s, t, 3, 2, max);
  }

  lemma Returned(s0: State, s: State, t: nat, obj: ObjHash, max: nat)
    requires obj in s0.agents && Else(s0, s, t, s0.agents[obj]) && |Items(s.p, s0.agents[obj])| < max
    requires PcOf(s.pcs, t) == AddLookup(obj) && |Held(s.p, t)| == 1 && s.lock == None
    ensures var s2, q := Stepped(s, t, 2, max), s0.agents[obj];
      && PcOf(s2.pcs, t) == Idle && Held(s2.p, t) == [] && Else(s0, s2, t, q) && Items(s2.p, q) == Items(s.p, q) + Held(s.p, t)
  {
    hide Step, Goto, PcOf, Items, Held, PutHead, Else;
    ElseKeeps(s0, s, t, s0.agents[obj]);
    var q := s0.agents[obj];
    var s1 := Goto(s, t, s.p, AddPut(q));
    CallerGoes(s, t, obj, q, max);
    MoveOn(s0, s, t, q, AddPut(q));
    CallerGoes(s1, t, obj, q, max);
    Back(s0, s1, t, q, Idle, max);
    ThreeSteps(s, t, max);
  }

  lemma ElseKeeps(s0: State, s: State, t: nat, q: nat)
    requires Else(s0, s, t, q)
    ensures s.agents == s0.agents && s.lock == s0.lock
  {
  }

  lemma WaitsInVain(s0: State, s: State, t: nat, obj: ObjHash, max: nat)
    requires obj in s0.agents && Quietly(s0, s, t) && s.agents == s0.agents && Items(s0.p, s0.agents[obj]) == []
    requires PcOf(s.pcs, t) == GetLookup(obj) && Held(s.p, t) == [] && s0.lock == None
    ensures var s2 := Stepped(s, t, 5, max);
      PcOf(s2.pcs, t) == Idle && Held(s2.p, t) == [] && Quietly(s0, s2, t) && s2.agents == s0.agents
  {
    hide Step, Goto, PcOf, Items, Held;
    var q := s0.agents[obj];
    var s1 := Goto(s, t, s.p, GetTake(obj, q));
    CallerGoes(s, t, obj, q, max);
    var s2 := Goto(s1, t, s1.p, GetWait(obj, q));
    CallerGoes(s1, t, obj, q, max);
    var s3 := Goto(s2, t, s2.p, Idle);
    CallerGoes(s2, t, obj, q, max);
    CallerGoes(s3, t, obj, q, max);
    ThreeSteps(s, t, max);
    ThreeSteps(s3, t, max);
    SteppedAdd(s, t, 3, 2, max);
  }

  lemma FindsNothing(s0: State, s: State, t: nat, obj: ObjHash, max: nat)
    requires obj !in s0.agents && Quietly(s0, s, t) && s.agents == s0.agents
    requires PcOf(s.pcs, t) == GetLookup(obj) && Held(s.p, t) == [] && s0.lock == None
    ensures var s2 := Stepped(s, t, 5, max);
      PcOf(s2.pcs, t) == Idle && Held(s2.p, t) == [] && Quietly(s0, s2, t) && s2.agents == s0.agents
  {
    hide Step, Goto, PcOf, Items, Held;
    var s1 := Goto(s, t, s.p, Idle);
    CallerGoes(s, t, obj, 0, max);
    CallerGoes(s1, t, obj, 0, max);
    ThreeSteps(s, t, max);
    ThreeSteps(s1, t, max);
    SteppedAdd(s, t, 3, 2, max);
  }

  /** A new connection joins the queue of its object, which is made if there are fewer than 5000; if there is
      no place for it in the map or in the queue it is closed. */
  lemma RegisterAlone(s: State, t: nat, w: Worker, obj: ObjHash, max: nat)
    requires Inv(s, max) && PcOf(s.pcs, t) == Idle && s.lock == None && w !in s.p.known
    ensures var s2 := Run(s, [(t, Connect(w, obj))] + Alone(t, 2), max);
      var listed := obj in s.agents || |s.agents| < 5000;
      var q := if obj in s.agents then s.agents[obj] else s.queues;
      var room := listed && |Items(s.p, q)| < max;
      && PcOf(s2.pcs, t) == Idle && Held(s2.p, t) == [] && s2.p.known == s.p.known + {w}
      && s2.agents == (if listed then s.agents[obj := q] else s.agents)
      && (forall r: nat :: Items(s2.p, r) == if r == q && room then Items(s.p, r) + [w] else Items(s.p, r))
      && s2.p.closed == (if room then s.p.closed else s.p.closed + {w})
      && s2.p.gone == (if room then s.p.gone else s.p.gone + {w})
  {
    hide Step, PcOf, Held, Items, Workers, Numbered;
    assert HoldsRight(PcOf(s.pcs, t), Held(s.p, t));
    var s1 := Step(s, t, Connect(w, obj), max);
    Connected(s, t, w, obj, max);
    OneFirst(s, t, Connect(w, obj), Alone(t, 2), max);
    AloneSteps(s1, t, 2, max);
    ThreeSteps(s1, t, max);
    if obj in s.agents || |s.agents| < 5000 {
      Joins(s1, t, obj, max);
    } else {
      Rejected(s1, t, obj, max);
    }
  }

  lemma Connected(s: State, t: nat, w: Worker, obj: ObjHash, max: nat)
    requires PcOf(s.pcs, t) == Idle && Held(s.p, t) == [] && w !in s.p.known
    ensures var s2 := Step(s, t, Connect(w, obj), max);
      && PcOf(s2.pcs, t) == AddLookup(obj) && Held(s2.p, t) == [w] && s2.lock == s.lock && s2.agents == s.agents && s2.queues == s.queues
      && s2.p.known == s.p.known + {w} && s2.p.closed == s.p.closed && s2.p.gone == s.p.gone
      && forall r: nat :: Items(s2.p, r) == Items(s.p, r)
  {
    hide Goto, PcOf;
  }

  lemma Joins(s: State, t: nat, obj: ObjHash, max: nat)
    requires PcOf(s.pcs, t) == AddLookup(obj) && |Held(s.p, t)| == 1 && s.lock == None && (obj in s.agents || |s.agents| < 5000)
    ensures var s2 := Step(Step(s, t, Go, max), t, Go, max);
      var q := if obj in s.agents then s.agents[obj] else s.queues;
      var w, room := Held(s.p, t)[0], |Items(s.p, q)| < max;
      && PcOf(s2.pcs, t) == Idle && Held(s2.p, t) == [] && s2.p.known == s.p.known && s2.agents == s.agents[obj := q]
      && (forall r: nat :: Items(s2.p, r) == if r == q && room then Items(s.p, r) + [w] else Items(s.p, r))
      && s2.p.closed == (if room then s.p.closed else s.p.closed + {w})
      && s2.p.gone == (if room then s.p.gone else s.p.gone + {w})
  {
    hide Goto, PcOf, Items, Held, PutHead;
    var q := if obj in s.agents then s.agents[obj] else s.queues;
    var s1 := Step(s, t, Go, max);
    assert s1.p == s.p && PcOf(s1.pcs, t) == AddPut(q) && s1.agents == s.agents[obj := q];
    assert Step(s1, t, Go, max) == Goto(s1, t, PutHead(s1.p, t, q, max), Idle);
    PutEffect(s.p, t, q, max);
  }

  lemma PutEffect(p: Places, t: nat, q: nat, max: nat)
    requires |Held(p, t)| == 1
    ensures var p2, w, room := PutHead(p, t, q, max), Held(p, t)[0], |Items(p, q)| < max;
      && Held(p2, t) == [] && p2.known == p.known
      && (forall r: nat :: Items(p2, r) == if r == q && room then Items(p, r) + [w] else Items(p, r))
      && p2.closed == (if room then p.closed else p.closed + {w})
      && p2.gone == (if room then p.gone else p.gone + {w})
  {
  }

  lemma Rejected(s: State, t: nat, obj: ObjHash, max: nat)
    requires PcOf(s.pcs, t) == AddLookup(obj) && |Held(s.p, t)| == 1 && s.lock == None && obj !in s.agents && |s.agents| >= 5000
    ensures var s2, w := Step(Step(s, t, Go, max), t, Go, max), Held(s.p, t)[0];
      && PcOf(s2.pcs, t) == Idle && Held(s2.p, t) == [] && s2.p.known == s.p.known && s2.agents == s.agents
      && (forall r: nat :: Items(s2.p, r) == Items(s.p, r))
      && s2.p.closed == s.p.closed + {w} && s2.p.gone == s.p.gone + {w}
  {
    hide Goto, PcOf, Items, Held, CloseHead;
    var s1 := Goto(s, t, s.p, Reject);
    assert Step(s, t, Go, max) == s1;
    assert Step(s1, t, Go, max) == Goto(s1, t, CloseHead(s1.p, t), Idle);
    CloseEffect(s.p, t);
  }

  lemma CloseEffect(p: Places, t: nat)
    requires Held(p, t) != []
    ensures var p2, w := CloseHead(p, t), Held(p, t)[0];
      && Held(p2, t) == Held(p, t)[1..] && p2.known == p.known && (forall r: nat :: Items(p2, r) == Items(p, r))
      && p2.closed == p.closed + {w} && p2.gone == p.gone + {w}
      && forall u: nat :: u != t ==> Held(p2, u) == Held(p, u)
  {
  }

  // ----- a call among others -------------------------------------------------------------

  /** The goroutine has an open worker to itself, and is using it or on its way back. */
  ghost predicate Has(s: State, t: nat, w: Worker) {
    && (PcOf(s.pcs, t).Using? || PcOf(s.pcs, t).AddLookup? || PcOf(s.pcs, t).AddPut? || PcOf(s.pcs, t).Reject?)
    && Held(s.p, t) == [w] && w !in s.p.closed
  }

  /** Whatever runs in between, it keeps the worker and the worker stays open until its own connection fails,
      or it is turned away, or it puts the worker back: into the queue, open, if there is room. */
  lemma KeepsWorker(s: State, t: nat, w: Worker, u: nat, e: Event, max: nat)
    requires Inv(s, max) && Has(s, t, w) && !(u == t && e.Fail?)
    ensures var s2 := Step(s, u, e, max);
      if u == t && e.Go? && PcOf(s.pcs, t).Reject? then w in s2.p.closed
      else if u == t && e.Go? && PcOf(s.pcs, t).AddPut? then
        var q := PcOf(s.pcs, t).q;
        && PcOf(s2.pcs, t) == Idle
        && if |Items(s.p, q)| < max then Items(s2.p, q) == Items(s.p, q) + [w] && w !in s2.p.closed else w in s2.p.closed
      else Has(s2, t, w)
  {
    hide Inv, Step, Closes, Items, Drops;
    ClosedIff(s, u, e, max, w);
    assert AtHand(s.p, t, w);
    if u != t {
      Others(s, u, e, max, t);
      NotAtHand(s, t, u, w, max);
    } else {
      OwnStep(s, t, w, e, max);
    }
  }

  lemma NotAtHand(s: State, t: nat, u: nat, w: Worker, max: nat)
    requires Inv(s, max) && t != u && w in Held(s.p, t)
    ensures !AtHand(s.p, u, w)
  {
    hide Workers, Control, Numbered, Held;
    Apart(s.p, max);
    assert AtHand(s.p, u, w) ==> w in Held(s.p, u);
  }

  lemma OwnStep(s: State, t: nat, w: Worker, e: Event, max: nat)
    requires Has(s, t, w) && !e.Fail?
    ensures var s2 := Step(s, t, e, max);
      if e.Go? && PcOf(s.pcs, t).Reject? then w in s2.p.closed
      else if e.Go? && PcOf(s.pcs, t).AddPut? then
        var q := PcOf(s.pcs, t).q;
        && PcOf(s2.pcs, t) == Idle
        && if |Items(s.p, q)| < max then Items(s2.p, q) == Items(s.p, q) + [w] && w !in s2.p.closed else w in s2.p.closed
      else Has(s2, t, w)
  {
    hide Goto, PcOf, Items, Held, PutHead, CloseHead;
    CloseEffect(s.p, t);
    PutEffect(s.p, t, if PcOf(s.pcs, t).AddPut? then PcOf(s.pcs, t).q else 0, max);
  }

  // ----- a shutdown ----------------------------------------------------------------------

  /** A worker of one of the queues of these objects. */
  ghost predicate QueuedFor(s: State, objs: set<ObjHash>, w: Worker) {
    exists obj :: obj in objs && obj in s.agents && w in Items(s.p, s.agents[obj])
  }

  ghost predicate QueueFor(s: State, objs: set<ObjHash>, q: nat) {
    exists obj :: obj in objs && obj in s.agents && s.agents[obj] == q
  }

  /** The queues of these objects are drained, and their workers closed. */
  ghost predicate Closing(s0: State, s: State, t: nat, done: set<ObjHash>) {
    && s.agents == s0.agents && s.lock == Some(t) && Held(s.p, t) == []
    && (forall q: nat :: Items(s.p, q) == if QueueFor(s0, done, q) then [] else Items(s0.p, q))
    && (forall w :: w in s.p.closed <==> w in s0.p.closed || QueuedFor(s0, done, w))
    && (forall w :: w in s.p.gone <==> w in s0.p.gone || QueuedFor(s0, done, w))
    && (forall u: nat :: u != t ==> PcOf(s.pcs, u) == PcOf(s0.pcs, u) && Held(s.p, u) == Held(s0.p, u))
  }

  /** The held workers are closed one after the other. */
  lemma {:induction false} ClosesHeld(s: State, t: nat, left: set<ObjHash>, n: nat, max: nat)
    requires PcOf(s.pcs, t) == CloseWork(left) && n <= |Held(s.p, t)|
    ensures var s2 := Stepped(s, t, n, max);
      && s2 == s.(p := s2.p) && Held(s2.p, t) == Held(s.p, t)[n..]
      && (forall q: nat :: Items(s2.p, q) == Items(s.p, q)) && (forall u: nat :: u != t ==> Held(s2.p, u) == Held(s.p, u))
      && (forall w :: w in s2.p.closed <==> w in s.p.closed || w in Held(s.p, t)[..n])
      && (forall w :: w in s2.p.gone <==> w in s.p.gone || w in Held(s.p, t)[..n])
  {
    hide PcOf, Items, Held, CloseHead, CallStep, BatchStep, CleanStep, Begin, Goto;
    if n > 0 {
      ClosesHeld(s, t, left, n - 1, max);
      var s1 := Stepped(s, t, n - 1, max);
      assert Held(s1.p, t)[0] == Held(s.p, t)[n - 1];
      assert Step(s1, t, Go, max) == s1.(p := CloseHead(s1.p, t));
      CloseEffect(s1.p, t);
      assert Held(s.p, t)[..n] == Held(s.p, t)[..n - 1] + [Held(s.p, t)[n - 1]];
    }
  }

  lemma Picks(s: State, t: nat, left: set<ObjHash>, obj: ObjHash, max: nat)
    requires PcOf(s.pcs, t) == CloseNext(left) && Held(s.p, t) == [] && obj in left && obj in s.agents
    ensures var s2 := Step(s, t, Pick(obj), max);
      && PcOf(s2.pcs, t) == CloseWork(left - {obj}) && Held(s2.p, t) == Items(s.p, s.agents[obj])
      && s2.agents == s.agents && s2.lock == s.lock && s2.p.closed == s.p.closed && s2.p.gone == s.p.gone
      && (forall q: nat :: Items(s2.p, q) == if q == s.agents[obj] then [] else Items(s.p, q))
      && (forall u: nat :: u != t ==> PcOf(s2.pcs, u) == PcOf(s.pcs, u) && Held(s2.p, u) == Held(s.p, u))
  {
    hide Goto, PcOf;
  }

  lemma AllClosed(s: State, t: nat, left: set<ObjHash>, max: nat)
    requires PcOf(s.pcs, t) == CloseWork(left) && Held(s.p, t) == []
    ensures Step(s, t, Go, max) == Goto(s, t, s.p, CloseNext(left))
  {
    hide Goto, PcOf, Held;
  }

  /** One queue of the map is closed. */
  lemma QueueClosed(s0: State, s: State, t: nat, left: set<ObjHash>, done: set<ObjHash>, obj: ObjHash, max: nat) returns (n: nat)
    requires Closing(s0, s, t, done) && PcOf(s.pcs, t) == CloseNext(left) && Named(s0.agents, s0.queues)
    requires obj in left && obj !in done && obj in s0.agents
    ensures var s2 := Stepped(Step(s, t, Pick(obj), max), t, n, max);
      Closing(s0, s2, t, done + {obj}) && PcOf(s2.pcs, t) == CloseNext(left - {obj})
  {
    hide Step, Goto, PcOf, Items, Held;
    var s1 := Step(s, t, Pick(obj), max);
    Picks(s, t, left, obj, max);
    var k := |Held(s1.p, t)|;
    ClosesHeld(s1, t, left - {obj}, k, max);
    var s2 := Stepped(s1, t, k, max);
    assert Held(s1.p, t)[..k] == Held(s1.p, t) && Held(s1.p, t)[k..] == [];
    AllClosed(s2, t, left - {obj}, max);
    n := k + 1;
    OneMoreDone(s0, done, obj);
  }

  lemma OneMoreDone(s: State, done: set<ObjHash>, obj: ObjHash)
    requires obj in s.agents && obj !in done && Named(s.agents, s.queues)
    ensures forall w :: QueuedFor(s, done + {obj}, w) <==> QueuedFor(s, done, w) || w in Items(s.p, s.agents[obj])
    ensures forall q :: QueueFor(s, done + {obj}, q) <==> QueueFor(s, done, q) || q == s.agents[obj]
    ensures !QueueFor(s, done, s.agents[obj])
  {
    hide Items;
  }

  /** The same as a run. */
  lemma QueueRun(s0: State, s: State, t: nat, left: set<ObjHash>, done: set<ObjHash>, obj: ObjHash, max: nat) returns (steps: seq<(nat, Event)>)
    requires Closing(s0, s, t, done) && PcOf(s.pcs, t) == CloseNext(left) && Named(s0.agents, s0.queues)
    requires obj in left && obj !in done && obj in s0.agents
    ensures forall x :: x in steps ==> x.0 == t && !x.1.Fail?
    ensures var s2 := Run(s, steps, max);
      Closing(s0, s2, t, done + {obj}) && PcOf(s2.pcs, t) == CloseNext(left - {obj})
  {
    hide Step, PcOf, Closing, Named, Run, Stepped, Alone;
    var n := QueueClosed(s0, s, t, left, done, obj, max);
    AloneSteps(Step(s, t, Pick(obj), max), t, n, max);
    OneFirst(s, t, Pick(obj), Alone(t, n), max);
    AloneIs(t, n);
    steps := [(t, Pick(obj))] + Alone(t, n);
  }

  lemma {:induction false} QueuesClosed(s0: State, s: State, t: nat, left: set<ObjHash>, max: nat) returns (steps: seq<(nat, Event)>)
    requires left <= s0.agents.Keys && Closing(s0, s, t, s0.agents.Keys - left) && PcOf(s.pcs, t) == CloseNext(left)
    requires Named(s0.agents, s0.queues)
    ensures forall x :: x in steps ==> x.0 == t && !x.1.Fail?
    ensures var s2 := Run(s, steps, max);
      Closing(s0, s2, t, s0.agents.Keys) && PcOf(s2.pcs, t) == CloseNext({})
    decreases |left|
  {
    hide Step, PcOf, Closing, Named;
    if left == {} {
      steps := [];
      assert s0.agents.Keys - left == s0.agents.Keys;
    } else {
      hide Run;
      var obj :| obj in left;
      var done := s0.agents.Keys - left;
      var first := QueueRun(s0, s, t, left, done, obj, max);
      assert s0.agents.Keys - (left - {obj}) == done + {obj};
      var rest := QueuesClosed(s0, Run(s, first, max), t, left - {obj}, max);
      RunConcat(s, first, rest, max);
      steps := first + rest;
    }
  }

  lemma {:induction false} AloneIs(t: nat, n: nat)
    ensures forall x :: x in Alone(t, n) ==> x == (t, Go)
  {
    if n > 0 {
      AloneIs(t, n - 1);
    }
  }

  /** A shutdown alone closes exactly the workers in the queues of the map, empties these queues and the map,
      and touches nobody's workers in hand. */
  lemma ShutdownAlone(s: State, t: nat, max: nat) returns (steps: seq<(nat, Event)>)
    requires Inv(s, max) && PcOf(s.pcs, t) == Idle && s.lock == None
    ensures forall x :: x in steps ==> x.0 == t && !x.1.Fail?
    ensures var s2 := Run(s, steps, max);
      && PcOf(s2.pcs, t) == Idle && s2.agents == map[] && s2.lock == None
      && (forall q: nat :: Items(s2.p, q) == if InMap(s.agents, q) then [] else Items(s.p, q))
      && (forall w :: w in s2.p.closed <==> w in s.p.closed || exists obj :: obj in s.agents && w in Items(s.p, s.agents[obj]))
      && (forall u: nat :: Held(s2.p, u) == Held(s.p, u))
  {
    hide Step, PcOf, Held, Items, Closing, Workers, Named;
    assert HoldsRight(PcOf(s.pcs, t), Held(s.p, t));
    var s1 := Step(Step(s, t, Shutdown, max), t, Go, max);
    Begins(s, t, max);
    assert s.agents.Keys - s.agents.Keys == {};
    var middle := QueuesClosed(s, s1, t, s.agents.Keys, max);
    var s2 := Run(s1, middle, max);
    TwoFirst(s, t, Shutdown, Go, middle, max);
    steps := [(t, Shutdown), (t, Go)] + middle + [(t, Go)];
    OneMore(s, [(t, Shutdown), (t, Go)] + middle, t, Go, max);
    Ends(s, s2, t, max);
  }

  lemma Begins(s: State, t: nat, max: nat)
    requires PcOf(s.pcs, t) == Idle && Held(s.p, t) == [] && s.lock == None
    ensures var s2 := Step(Step(s, t, Shutdown, max), t, Go, max);
      Closing(s, s2, t, {}) && PcOf(s2.pcs, t) == CloseNext(s.agents.Keys)
  {
    hide Goto, PcOf, Items, Held;
    var s1 := Goto(s, t, s.p, CloseStart);
    assert Step(s, t, Shutdown, max) == s1;
    assert Step(s1, t, Go, max) == Goto(s1.(lock := Some(t)), t, s1.p, CloseNext(s1.agents.Keys));
  }

  lemma Ends(s0: State, s: State, t: nat, max: nat)
    requires Closing(s0, s, t, s0.agents.Keys) && PcOf(s.pcs, t) == CloseNext({}) && Held(s0.p, t) == []
    ensures var s2 := Step(s, t, Go, max);
      && PcOf(s2.pcs, t) == Idle && s2.agents == map[] && s2.lock == None
      && (forall q: nat :: Items(s2.p, q) == if InMap(s0.agents, q) then [] else Items(s0.p, q))
      && (forall w :: w in s2.p.closed <==> w in s0.p.closed || exists obj :: obj in s0.agents && w in Items(s0.p, s0.agents[obj]))
      && (forall u: nat :: Held(s2.p, u) == Held(s0.p, u))
  {
    hide Goto, PcOf, Items, Held;
    assert Step(s, t, Go, max) == Goto(s.(agents := map[], lock := None), t, s.p, Idle);
    forall q: nat
      ensures QueueFor(s0, s0.agents.Keys, q) <==> InMap(s0.agents, q)
    {
    }
  }
}

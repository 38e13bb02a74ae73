/** All interleavings of the goroutines that use the pool (internal/netio/tcp/agent_manager.go,
    agent_call.go). A step is one critical section of one goroutine. */
module PoolRuns {
  import opened Results
  import opened Pool

  /** An entry of the map as the keepalive daemon has listed it. */
  datatype Listed = Listed(obj: ObjHash, q: nat)

  /** Where a goroutine stands. Its workers are on its shelf. */
  datatype Pc =
    | Idle
    | AddLookup(obj: ObjHash)        // in Add, before the lookup; holds the worker
    | AddPut(q: nat)                 // in Add, between lookup and put
    | Reject                         // in Add, too many agents
    | GetLookup(obj: ObjHash)
    | GetTake(obj: ObjHash, q: nat)
    | GetWait(obj: ObjHash, q: nat)
    | Using(obj: ObjHash)            // in Call or CallStream, or serving a new connection
    | KaSnapshot
    | KaNext(todo: seq<Listed>)
    | KaWork(todo: seq<Listed>)     // the drained batch
    | KaSend(todo: seq<Listed>)     // on the first of the batch, found open
    | KaPut(todo: seq<Listed>)      // the first of the batch goes back
    | KaSize(todo: seq<Listed>)
    | KaLock(todo: seq<Listed>)
    | KaSize2(todo: seq<Listed>)    // from here to KaUnlock the manager is locked
    | KaDelete(todo: seq<Listed>)
    | KaUnlock(todo: seq<Listed>)
    | CloseStart
    | CloseNext(left: set<ObjHash>)         // Close keeps the manager locked
    | CloseWork(left: set<ObjHash>)

  /** The workers: where they are, which there are, which are closed, and which nobody refers to. */
  datatype Places = Places(shelves: Shelves, known: set<Worker>, closed: set<Worker>, gone: set<Worker>)

  datatype State = State(
    p: Places,
    agents: map<ObjHash, nat>,   // the map; queues are numbered in the order of their creation
    queues: nat,
    pcs: map<nat, Pc>,
    lock: Option<nat>)           // the holder of the manager's lock

  /** What the scheduler and the outside choose. */
  datatype Event =
    | Connect(w: Worker, obj: ObjHash)     // a new connection registers
    | Call(obj: ObjHash)
    | Keepalive
    | Shutdown
    | Fail                                 // a read or write on the held connection fails and closes it
    | Snapshot(order: seq<Listed>) // the order of a map iteration
    | Pick(obj: ObjHash)
    | Go

  function Init(): State {
    State(Places(map[], {}, {}, {}), map[], 0, map[], None)
  }

  function PcOf(pcs: map<nat, Pc>, t: nat): Pc {
    if t in pcs then pcs[t] else Idle
  }

  function Held(p: Places, t: nat): seq<Worker> {
    On(p.shelves, Thread(t))
  }

  function Items(p: Places, q: nat): seq<Worker> {
    On(p.shelves, Queue(q))
  }

  function Goto(s: State, t: nat, p: Places, pc: Pc): (r: State)
    ensures r.p == p && r.agents == s.agents && r.queues == s.queues && r.lock == s.lock
    ensures PcOf(r.pcs, t) == pc && forall u: nat :: u != t ==> PcOf(r.pcs, u) == PcOf(s.pcs, u)
  {
    s.(p := p, pcs := s.pcs[t := pc])
  }

  // ----- the steps -----------------------------------------------------------------------

  /** The first held worker is closed and dropped. */
  function CloseHead(p: Places, t: nat): Places {
    if Held(p, t) == [] then p
    else
      var w := Held(p, t)[0];
      p.(shelves := DropHead(p.shelves, Thread(t)), closed := p.closed + {w}, gone := p.gone + {w})
  }

  /** agentQueue.put for the first held worker. */
  function PutHead(p: Places, t: nat, q: nat, max: nat): Places {
    if |Items(p, q)| < max then p.(shelves := MoveHead(p.shelves, Thread(t), Queue(q))) else CloseHead(p, t)
  }

  /** The take of agentQueue.get. */
  function TakeHead(p: Places, t: nat, q: nat): Places {
    p.(shelves := MoveHead(p.shelves, Queue(q), Thread(t)))
  }

  function Drain(p: Places, t: nat, q: nat): Places {
    p.(shelves := MoveAll(p.shelves, Queue(q), Thread(t)))
  }

  /** A failing connection closes itself and stays where it is. */
  function FailHead(p: Places, t: nat): Places {
    if Held(p, t) == [] then p else p.(closed := p.closed + {Held(p, t)[0]})
  }

  function Enter(p: Places, t: nat, w: Worker): Places {
    p.(shelves := Arrive(p.shelves, w, Thread(t)), known := p.known + {w})
  }

  /** The steps do to a queue what its methods do. */
  lemma QueueSteps(p: Places, t: nat, q: nat, max: nat)
    ensures Held(p, t) != [] ==> Items(PutHead(p, t, q, max), q) == Put(Items(p, q), Held(p, t)[0], max)
    ensures Items(p, q) != [] ==>
      Items(TakeHead(p, t, q), q) == Items(p, q)[1..] && Held(TakeHead(p, t, q), t) == Held(p, t) + [Items(p, q)[0]]
    ensures Items(Drain(p, t, q), q) == [] && Held(Drain(p, t, q), t) == Held(p, t) + Items(p, q)
  {
  }

  /** A step that is not possible leaves the state as it is. */
  function Step(s: State, t: nat, e: Event, max: nat): State {
    var pc := PcOf(s.pcs, t);
    if pc.Idle? then Begin(s, t, e)
    else if Calling(pc) then CallStep(s, t, e, max)
    else if Batching(pc) then BatchStep(s, t, e, max)
    else if Cleaning(pc) then CleanStep(s, t, e)
    else ShutStep(s, t, e)
  }

  predicate Calling(pc: Pc) {
    pc.AddLookup? || pc.AddPut? || pc.Reject? || pc.GetLookup? || pc.GetTake? || pc.GetWait? || pc.Using?
  }

  predicate Batching(pc: Pc) {
    pc.KaSnapshot? || pc.KaNext? || pc.KaWork? || pc.KaSend? || pc.KaPut?
  }

  predicate Cleaning(pc: Pc) {
    pc.KaSize? || pc.KaLock? || pc.KaSize2? || pc.KaDelete? || pc.KaUnlock?
  }

  /** AgentManager.Add and Get, and the call between them. */
  function CallStep(s: State, t: nat, e: Event, max: nat): State {
    match PcOf(s.pcs, t)
    case AddLookup(obj) => if e.Go? && s.lock == None then DoAddLookup(s, t, obj) else s
    case AddPut(q) => if e.Go? then Goto(s, t, PutHead(s.p, t, q, max), Idle) else s
    case Reject => if e.Go? then Goto(s, t, CloseHead(s.p, t), Idle) else s
    case GetLookup(obj) =>
      if e.Go? && s.lock == None then Goto(s, t, s.p, if obj in s.agents then GetTake(obj, s.agents[obj]) else Idle) else s
    case GetTake(obj, q) =>
      if !e.Go? then s
      else if Items(s.p, q) != [] then Goto(s, t, TakeHead(s.p, t, q), Using(obj))
      else Goto(s, t, s.p, GetWait(obj, q))
    case GetWait(obj, q) =>
      if !e.Go? then s
      else if Items(s.p, q) != [] then Goto(s, t, TakeHead(s.p, t, q), Using(obj))
      else Goto(s, t, s.p, Idle)
    case Using(obj) =>
      if e.Fail? then s.(p := FailHead(s.p, t)) else if e.Go? then Goto(s, t, s.p, AddLookup(obj)) else s
    case _ => s
  }

  /** The keepalive daemon on the workers of a queue. */
  function BatchStep(s: State, t: nat, e: Event, max: nat): State {
    match PcOf(s.pcs, t)
    case KaSnapshot =>
      if e.Snapshot? && s.lock == None && Lists(e.order, s.agents) then Goto(s, t, s.p, KaNext(e.order)) else s
    case KaNext(todo) =>
      if !e.Go? then s
      else if todo == [] then Goto(s, t, s.p, Idle)
      else Goto(s, t, Drain(s.p, t, todo[0].q), KaWork(todo))
    case KaWork(todo) => if e.Go? then DoKaWork(s, t, todo) else s
    case KaSend(todo) => if e.Fail? then s.(p := FailHead(s.p, t)) else if e.Go? then DoKaSend(s, t, todo) else s
    case KaPut(todo) => if e.Go? && todo != [] then Goto(s, t, PutHead(s.p, t, todo[0].q, max), KaWork(todo)) else s
    case _ => s
  }

  /** The keepalive daemon on a queue that may be empty. */
  function CleanStep(s: State, t: nat, e: Event): State {
    match PcOf(s.pcs, t)
    case KaSize(todo) =>
      if e.Go? && todo != [] then Goto(s, t, s.p, if Items(s.p, todo[0].q) == [] then KaLock(todo) else KaNext(todo[1..]))
      else s
    case KaLock(todo) => if e.Go? && s.lock == None then Goto(s.(lock := Some(t)), t, s.p, KaSize2(todo)) else s
    case KaSize2(todo) =>
      if e.Go? && todo != [] then Goto(s, t, s.p, if Items(s.p, todo[0].q) == [] then KaDelete(todo) else KaUnlock(todo))
      else s
    case KaDelete(todo) =>
      if e.Go? && todo != [] then Goto(s.(agents := Unlisted(s.agents, todo[0].obj)), t, s.p, KaUnlock(todo)) else s
    case KaUnlock(todo) => if e.Go? && todo != [] then Goto(s.(lock := None), t, s.p, KaNext(todo[1..])) else s
    case _ => s
  }

  /** AgentManager.Close. */
  function ShutStep(s: State, t: nat, e: Event): State {
    match PcOf(s.pcs, t)
    case CloseStart =>
      if e.Go? && s.lock == None then Goto(s.(lock := Some(t)), t, s.p, CloseNext(s.agents.Keys)) else s
    case CloseNext(left) => DoCloseNext(s, t, left, e)
    case CloseWork(left) =>
      if !e.Go? then s
      else if Held(s.p, t) == [] then Goto(s, t, s.p, CloseNext(left))
      else s.(p := CloseHead(s.p, t))
    case _ => s
  }

  function Begin(s: State, t: nat, e: Event): State {
    match e
    case Connect(w, obj) => if w in s.p.known then s else Goto(s, t, Enter(s.p, t, w), AddLookup(obj))
    case Call(obj) => Goto(s, t, s.p, GetLookup(obj))
    case Keepalive => Goto(s, t, s.p, KaSnapshot)
    case Shutdown => Goto(s, t, s.p, CloseStart)
    case _ => s
  }

  function DoAddLookup(s: State, t: nat, obj: ObjHash): State {
    if obj in s.agents then Goto(s, t, s.p, AddPut(s.agents[obj]))
    else if |s.agents| >= DEFAULT_MAX_AGENTS then Goto(s, t, s.p, Reject)
    else Goto(s.(agents := s.agents[obj := s.queues], queues := s.queues + 1), t, s.p, AddPut(s.queues))
  }

  function DoKaWork(s: State, t: nat, todo: seq<Listed>): State {
    if Held(s.p, t) == [] then Goto(s, t, s.p, KaSize(todo))
    else if Held(s.p, t)[0] in s.p.closed then s.(p := CloseHead(s.p, t))
    else Goto(s, t, s.p, KaSend(todo))
  }

  function DoKaSend(s: State, t: nat, todo: seq<Listed>): State {
    if Held(s.p, t) == [] then s
    else if Held(s.p, t)[0] in s.p.closed then Goto(s, t, CloseHead(s.p, t), KaWork(todo))
    else Goto(s, t, s.p, KaPut(todo))
  }

  function DoCloseNext(s: State, t: nat, left: set<ObjHash>, e: Event): State {
    match e
    case Pick(obj) =>
      if obj in left && obj in s.agents then Goto(s, t, Drain(s.p, t, s.agents[obj]), CloseWork(left - {obj})) else s
    case Go => if left == {} then Goto(s.(agents := map[], lock := None), t, s.p, Idle) else s
    case _ => s
  }

  function Unlisted(agents: map<ObjHash, nat>, obj: ObjHash): (r: map<ObjHash, nat>)
    ensures |r| <= |agents|
    ensures forall o :: o in r <==> o in agents && o != obj
    ensures forall o :: o in r ==> r[o] == agents[o]
  {
    assert (agents - {obj}).Keys == agents.Keys - {obj};
    agents - {obj}
  }

  /** A listing of the map, each entry once. */
  predicate Lists(order: seq<Listed>, agents: map<ObjHash, nat>) {
    && |order| == |agents|
    && (forall i :: 0 <= i < |order| ==> order[i].obj in agents && agents[order[i].obj] == order[i].q)
    && (forall i, j :: 0 <= i < j < |order| ==> order[i].obj != order[j].obj)
  }

  function Run(s: State, steps: seq<(nat, Event)>, max: nat): State {
    if steps == [] then s
    else
      var last := steps[|steps| - 1];
      Step(Run(s, steps[..|steps| - 1], max), last.0, last.1, max)
  }

  // ----- who refers to a queue -----------------------------------------------------------

  predicate Mentions(pc: Pc, q: nat) {
    match pc
    case AddPut(r) => r == q
    case GetTake(_, r) => r == q
    case GetWait(_, r) => r == q
    case KaNext(todo) => Listing(todo, q)
    case KaWork(todo) => Listing(todo, q)
    case KaSend(todo) => Listing(todo, q)
    case KaPut(todo) => Listing(todo, q)
    case KaSize(todo) => Listing(todo, q)
    case KaLock(todo) => Listing(todo, q)
    case KaSize2(todo) => Listing(todo, q)
    case KaDelete(todo) => Listing(todo, q)
    case KaUnlock(todo) => Listing(todo, q)
    case _ => false
  }

  predicate Listing(todo: seq<Listed>, q: nat) {
    exists i :: 0 <= i < |todo| && todo[i].q == q
  }

  predicate InMap(agents: map<ObjHash, nat>, q: nat) {
    exists obj :: obj in agents && agents[obj] == q
  }

  lemma NotInMap(agents: map<ObjHash, nat>, q: nat)
    ensures !InMap(agents, q) <==> forall obj :: obj in agents ==> agents[obj] != q
  {
  }

  lemma ListedInMap(order: seq<Listed>, agents: map<ObjHash, nat>, q: nat)
    requires Lists(order, agents) && Listing(order, q)
    ensures InMap(agents, q)
  {
  }

  lemma ListingSplits(todo: seq<Listed>, q: nat)
    requires todo != []
    ensures Listing(todo, q) <==> todo[0].q == q || Listing(todo[1..], q)
  {
    if Listing(todo[1..], q) {
      var i :| 0 <= i < |todo[1..]| && todo[1..][i].q == q;
      assert todo[i + 1].q == q;
    }
    if Listing(todo, q) {
      var i :| 0 <= i < |todo| && todo[i].q == q;
      assert i > 0 ==> todo[1..][i - 1].q == q;
    }
  }

  /** A step takes a queue out of the map. */
  predicate Removes(s: State, t: nat, e: Event, q: nat) {
    match PcOf(s.pcs, t)
    case KaDelete(todo) => e.Go? && todo != [] && todo[0].obj in s.agents && s.agents[todo[0].obj] == q
    case CloseNext(left) => e.Go? && left == {} && InMap(s.agents, q)
    case _ => false
  }

  /** A goroutine that refers to a queue lets go of it. */
  predicate Leaves(s: State, t: nat, e: Event, q: nat) {
    match PcOf(s.pcs, t)
    case AddPut(r) => e.Go? && r == q
    case GetTake(_, r) => e.Go? && r == q && Items(s.p, q) != []
    case GetWait(_, r) => e.Go? && r == q
    case KaSize(todo) => e.Go? && todo != [] && Items(s.p, todo[0].q) != [] && todo[0].q == q && !Listing(todo[1..], q)
    case KaUnlock(todo) => e.Go? && todo != [] && todo[0].q == q && !Listing(todo[1..], q)
    case _ => false
  }

  lemma NewMentions(s: State, t: nat, e: Event, max: nat, q: nat)
    ensures var s2 := Step(s, t, e, max);
      && (Mentions(PcOf(s2.pcs, t), q) ==> Mentions(PcOf(s.pcs, t), q) || InMap(s2.agents, q))
      && (Mentions(PcOf(s.pcs, t), q) && !Mentions(PcOf(s2.pcs, t), q) <==> Leaves(s, t, e, q))
  {
    hide Goto, PcOf, CloseHead, PutHead, TakeHead, Drain, FailHead, Enter, Held, Items, Lists, Listing, InMap, Unlisted,
      CallStep, BatchStep, CleanStep;
    if Calling(PcOf(s.pcs, t)) {
      CallMentions(s, t, e, max, q);
    } else if Batching(PcOf(s.pcs, t)) {
      BatchMentions(s, t, e, max, q);
    } else if Cleaning(PcOf(s.pcs, t)) {
      CleanMentions(s, t, e, q);
    }
  }

  lemma CallMentions(s: State, t: nat, e: Event, max: nat, q: nat)
    requires Calling(PcOf(s.pcs, t))
    ensures var s2 := CallStep(s, t, e, max);
      && (Mentions(PcOf(s2.pcs, t), q) ==> Mentions(PcOf(s.pcs, t), q) || InMap(s2.agents, q))
      && (Mentions(PcOf(s.pcs, t), q) && !Mentions(PcOf(s2.pcs, t), q) <==> Leaves(s, t, e, q))
  {
    hide Goto, PcOf, CloseHead, PutHead, TakeHead, Drain, FailHead, Enter, Held, Items, Listing, InMap;
    var s2 := CallStep(s, t, e, max);
    NotInMap(s2.agents, q);
    match PcOf(s.pcs, t)
    case AddLookup(obj) => assert PcOf(s2.pcs, t).AddPut? ==> obj in s2.agents && s2.agents[obj] == PcOf(s2.pcs, t).q;
    case _ =>
  }

  lemma BatchMentions(s: State, t: nat, e: Event, max: nat, q: nat)
    requires Batching(PcOf(s.pcs, t))
    ensures var s2 := BatchStep(s, t, e, max);
      && (Mentions(PcOf(s2.pcs, t), q) ==> Mentions(PcOf(s.pcs, t), q) || InMap(s2.agents, q))
      && (Mentions(PcOf(s.pcs, t), q) ==> Mentions(PcOf(s2.pcs, t), q))
  {
    hide Goto, PcOf, CloseHead, PutHead, TakeHead, Drain, FailHead, Enter, Held, Items, Lists, InMap;
    if e.Snapshot? && Lists(e.order, s.agents) && Listing(e.order, q) {
      ListedInMap(e.order, s.agents, q);
    }
  }

  lemma CleanMentions(s: State, t: nat, e: Event, q: nat)
    requires Cleaning(PcOf(s.pcs, t))
    ensures var s2 := CleanStep(s, t, e);
      && (Mentions(PcOf(s2.pcs, t), q) ==> Mentions(PcOf(s.pcs, t), q))
      && (Mentions(PcOf(s.pcs, t), q) && !Mentions(PcOf(s2.pcs, t), q) <==> Leaves(s, t, e, q))
  {
    hide Goto, PcOf, Held, Items, Lists, Listing, InMap, Unlisted;
    match PcOf(s.pcs, t)
    case KaSize(todo) =>
      if todo != [] {
        ListingSplits(todo, q);
      }
    case KaUnlock(todo) =>
      if todo != [] {
        ListingSplits(todo, q);
      }
    case _ =>
  }

  /** The map and the number of queues after a step. */
  function MapAfter(s: State, t: nat, e: Event): (map<ObjHash, nat>, nat) {
    match PcOf(s.pcs, t)
    case AddLookup(obj) =>
      if e.Go? && s.lock == None && obj !in s.agents && |s.agents| < DEFAULT_MAX_AGENTS
      then (s.agents[obj := s.queues], s.queues + 1) else (s.agents, s.queues)
    case KaDelete(todo) => (if e.Go? && todo != [] then Unlisted(s.agents, todo[0].obj) else s.agents, s.queues)
    case CloseNext(left) => (if e.Go? && left == {} then map[] else s.agents, s.queues)
    case _ => (s.agents, s.queues)
  }

  lemma MapStep(s: State, t: nat, e: Event, max: nat)
    ensures var s2 := Step(s, t, e, max);
      (s2.agents, s2.queues) == MapAfter(s, t, e)
  {
    hide Goto, PcOf, CloseHead, PutHead, TakeHead, Drain, FailHead, Enter, Held, Items, Lists, Unlisted;
  }

  lemma StaysNamed(s: State, t: nat, e: Event)
    requires Named(s.agents, s.queues)
    ensures Named(MapAfter(s, t, e).0, MapAfter(s, t, e).1)
  {
    hide PcOf, Unlisted;
  }

  /** Which queues leave the map, and that no other queue that was made comes back. */
  lemma MapChange(s: State, t: nat, e: Event, max: nat, q: nat)
    requires Named(s.agents, s.queues)
    ensures var s2 := Step(s, t, e, max);
      && (InMap(s.agents, q) && !InMap(s2.agents, q) <==> Removes(s, t, e, q))
      && (!InMap(s.agents, q) && InMap(s2.agents, q) ==> q == s.queues && s.lock == None)
      && (s2.queues == s.queues || (s2.queues == s.queues + 1 && InMap(s2.agents, s.queues)))
      && (InMap(s.agents, q) ==> q < s.queues)
  {
    hide Step, PcOf, Unlisted, InMap;
    var s2 := Step(s, t, e, max);
    MapStep(s, t, e, max);
    NotInMap(s.agents, q);
    NotInMap(s2.agents, q);
    NotInMap(s2.agents, s.queues);
    assert s2.queues != s.queues ==> PcOf(s.pcs, t).obj in s2.agents && s2.agents[PcOf(s.pcs, t).obj] == s.queues;
    if InMap(s.agents, q) && !Removes(s, t, e, q) {
      var obj :| obj in s.agents && s.agents[obj] == q;
      assert obj in s2.agents && s2.agents[obj] == q;
    }
  }

  lemma StepNumbered(s: State, t: nat, e: Event, max: nat)
    requires Numbered(s)
    ensures Numbered(Step(s, t, e, max))
  {
    hide Step, PcOf, Mentions, InMap, Named, MapAfter;
    var s2 := Step(s, t, e, max);
    MapStep(s, t, e, max);
    StaysNamed(s, t, e);
    forall u: nat, q: nat | Mentions(PcOf(s2.pcs, u), q)
      ensures q < s2.queues
    {
      MapChange(s, t, e, max, q);
      InMapNumbered(s2.agents, s2.queues, q);
      if u != t {
        Others(s, t, e, max, u);
      } else {
        NewMentions(s, t, e, max, q);
      }
    }
  }

  lemma InMapNumbered(agents: map<ObjHash, nat>, queues: nat, q: nat)
    requires Named(agents, queues)
    ensures InMap(agents, q) ==> q < queues
  {
  }

  // ----- the invariant -------------------------------------------------------------------

  /** How many workers a goroutine holds. */
  predicate HoldsRight(pc: Pc, held: seq<Worker>) {
    match pc
    case AddLookup(_) => |held| == 1
    case AddPut(_) => |held| == 1
    case Reject => |held| == 1
    case Using(_) => |held| == 1
    case KaWork(todo) => todo != []
    case KaSend(todo) => todo != [] && held != []
    case KaPut(todo) => todo != [] && held != []
    case CloseWork(_) => true
    case KaSize(todo) => todo != [] && held == []
    case KaLock(todo) => todo != [] && held == []
    case KaSize2(todo) => todo != [] && held == []
    case KaDelete(todo) => todo != [] && held == []
    case KaUnlock(todo) => todo != [] && held == []
    case _ => held == []
  }

  /** The points at which a goroutine owns the manager's lock. */
  predicate Locking(pc: Pc) {
    pc.KaSize2? || pc.KaDelete? || pc.KaUnlock? || pc.CloseNext? || pc.CloseWork?
  }

  /** Each known worker is in exactly one place, or closed and dropped; no queue exceeds its limit. */
  ghost predicate Workers(p: Places, max: nat) {
    && Unique(p.shelves)
    && (forall w :: Placed(p.shelves, w) <==> w in p.known && w !in p.gone)
    && p.gone <= p.closed && p.closed <= p.known
    && (forall q: nat :: |Items(p, q)| <= max)
  }

  /** Only the goroutine that has the lock is where the lock is needed. */
  ghost predicate Control(s: State) {
    && |s.agents| <= DEFAULT_MAX_AGENTS
    && (forall t: nat :: HoldsRight(PcOf(s.pcs, t), Held(s.p, t)))
    && (forall t: nat :: Locking(PcOf(s.pcs, t)) <==> s.lock == Some(t))
  }

  /** Each queue of the map is there under one name. */
  ghost predicate Named(agents: map<ObjHash, nat>, queues: nat) {
    && (forall obj :: obj in agents ==> agents[obj] < queues)
    && (forall a, b :: a in agents && b in agents && agents[a] == agents[b] ==> a == b)
  }

  /** No goroutine refers to a queue that was never made. */
  ghost predicate Numbered(s: State) {
    Named(s.agents, s.queues) && forall t: nat, q: nat :: Mentions(PcOf(s.pcs, t), q) ==> q < s.queues
  }

  ghost predicate Inv(s: State, max: nat) {
    Workers(s.p, max) && Control(s) && Numbered(s)
  }

  lemma InitInv(max: nat)
    ensures Inv(Init(), max)
  {
  }

  lemma HeadPlaced(p: Places, t: nat, max: nat)
    requires Workers(p, max) && Held(p, t) != []
    ensures Held(p, t)[0] in p.known && Held(p, t)[0] !in p.gone
  {
    assert Held(p, t)[0] in On(p.shelves, Thread(t));
    assert Placed(p.shelves, Held(p, t)[0]);
  }

  lemma CloseHeadWorkers(p: Places, t: nat, max: nat)
    requires Workers(p, max)
    ensures Workers(CloseHead(p, t), max)
  {
    hide Unique, Placed;
    if Held(p, t) != [] {
      HeadPlaced(p, t, max);
      DropHeadKeeps(p.shelves, Thread(t));
      assert forall q: nat :: Items(CloseHead(p, t), q) == Items(p, q);
    }
  }

  lemma PutHeadWorkers(p: Places, t: nat, q: nat, max: nat)
    requires Workers(p, max)
    ensures Workers(PutHead(p, t, q, max), max)
  {
    hide Unique, Placed;
    MoveHeadKeeps(p.shelves, Thread(t), Queue(q));
    CloseHeadWorkers(p, t, max);
    forall r: nat
      ensures |Items(PutHead(p, t, q, max), r)| <= max
    {
      assert |Items(p, r)| <= max && |Items(CloseHead(p, t), r)| <= max;
    }
  }

  lemma TakeHeadWorkers(p: Places, t: nat, q: nat, max: nat)
    requires Workers(p, max)
    ensures Workers(TakeHead(p, t, q), max)
  {
    hide Unique, Placed;
    MoveHeadKeeps(p.shelves, Queue(q), Thread(t));
    forall r: nat
      ensures |Items(TakeHead(p, t, q), r)| <= max
    {
      assert |Items(p, r)| <= max;
    }
  }

  lemma DrainWorkers(p: Places, t: nat, q: nat, max: nat)
    requires Workers(p, max)
    ensures Workers(Drain(p, t, q), max)
  {
    hide Unique, Placed;
    MoveAllKeeps(p.shelves, Queue(q), Thread(t));
    forall r: nat
      ensures |Items(Drain(p, t, q), r)| <= max
    {
      assert |Items(p, r)| <= max;
    }
  }

  lemma FailHeadWorkers(p: Places, t: nat, max: nat)
    requires Workers(p, max)
    ensures Workers(FailHead(p, t), max)
  {
    hide Unique, Placed;
    if Held(p, t) != [] {
      HeadPlaced(p, t, max);
    }
    assert forall q: nat :: Items(FailHead(p, t), q) == Items(p, q);
  }

  lemma EnterWorkers(p: Places, t: nat, w: Worker, max: nat)
    requires Workers(p, max) && w !in p.known
    ensures Workers(Enter(p, t, w), max)
  {
    hide Unique, Placed;
    ArriveKeeps(p.shelves, w, Thread(t));
    assert forall q: nat :: Items(Enter(p, t, w), q) == Items(p, q);
  }

  /** The queue and the worker that a step is about. */
  function QueueOf(s: State, t: nat, e: Event): Option<nat> {
    match PcOf(s.pcs, t)
    case AddPut(q) => Some(q)
    case GetTake(_, q) => Some(q)
    case GetWait(_, q) => Some(q)
    case KaNext(todo) => if todo != [] then Some(todo[0].q) else None
    case KaPut(todo) => if todo != [] then Some(todo[0].q) else None
    case CloseNext(_) => if e.Pick? && e.obj in s.agents then Some(s.agents[e.obj]) else None
    case _ => None
  }

  function Target(s: State, t: nat, e: Event): nat {
    match QueueOf(s, t, e) case Some(q) => q case None => 0
  }

  function Who(e: Event): Worker {
    if e.Connect? then e.w else 0
  }

  lemma StepWorkers(s: State, t: nat, e: Event, max: nat)
    requires Workers(s.p, max)
    ensures Workers(Step(s, t, e, max).p, max)
  {
    hide Goto, PcOf, Workers, CloseHead, PutHead, TakeHead, Drain, FailHead, Enter, Lists, Held, Items;
    var q := Target(s, t, e);
    CloseHeadWorkers(s.p, t, max);
    FailHeadWorkers(s.p, t, max);
    PutHeadWorkers(s.p, t, q, max);
    TakeHeadWorkers(s.p, t, q, max);
    DrainWorkers(s.p, t, q, max);
    if Who(e) !in s.p.known {
      EnterWorkers(s.p, t, Who(e), max);
    }
  }

  /** What the places of other goroutines lose or gain: nothing. */
  lemma SameHeld(p: Places, t: nat, u: nat, q: nat, w: Worker, max: nat)
    requires u != t
    ensures Held(CloseHead(p, t), u) == Held(PutHead(p, t, q, max), u) == Held(TakeHead(p, t, q), u) == Held(p, u)
    ensures Held(Drain(p, t, q), u) == Held(FailHead(p, t), u) == Held(Enter(p, t, w), u) == Held(p, u)
  {
  }

  lemma Others(s: State, t: nat, e: Event, max: nat, u: nat)
    requires u != t
    ensures PcOf(Step(s, t, e, max).pcs, u) == PcOf(s.pcs, u) && Held(Step(s, t, e, max).p, u) == Held(s.p, u)
  {
    hide Goto, PcOf, CloseHead, PutHead, TakeHead, Drain, FailHead, Enter, Lists, Held, Items;
    SameHeld(s.p, t, u, Target(s, t, e), Who(e), max);
  }

  /** What the goroutine itself holds after each operation. */
  lemma NewHeld(p: Places, t: nat, q: nat, w: Worker, max: nat)
    ensures |Held(CloseHead(p, t), t)| == |Held(PutHead(p, t, q, max), t)| == if Held(p, t) == [] then 0 else |Held(p, t)| - 1
    ensures |Held(TakeHead(p, t, q), t)| == |Held(p, t)| + if Items(p, q) == [] then 0 else 1
    ensures |Held(FailHead(p, t), t)| == |Held(p, t)| && |Held(Enter(p, t, w), t)| == |Held(p, t)| + 1
  {
  }

  /** What a step must keep of the control of its goroutine. */
  ghost predicate Keeps(s: State, t: nat, s2: State) {
    && HoldsRight(PcOf(s2.pcs, t), Held(s2.p, t))
    && (Locking(PcOf(s2.pcs, t)) <==> s2.lock == Some(t))
    && (s2.lock == s.lock || (s.lock == None && s2.lock == Some(t)) || (s.lock == Some(t) && s2.lock == None))
    && (|s.agents| <= DEFAULT_MAX_AGENTS ==> |s2.agents| <= DEFAULT_MAX_AGENTS)
  }

  ghost predicate Ready(s: State, t: nat) {
    HoldsRight(PcOf(s.pcs, t), Held(s.p, t)) && (Locking(PcOf(s.pcs, t)) <==> s.lock == Some(t))
  }

  lemma EnterHeld(p: Places, t: nat, w: Worker)
    ensures |Held(Enter(p, t, w), t)| == |Held(p, t)| + 1
  {
  }

  lemma BeginKeeps(s: State, t: nat, e: Event, max: nat)
    requires Ready(s, t) && PcOf(s.pcs, t).Idle?
    ensures Keeps(s, t, Begin(s, t, e))
  {
    hide Goto, PcOf, Enter, Lists, Held, Items;
    EnterHeld(s.p, t, Who(e));
  }

  lemma CallKeeps(s: State, t: nat, e: Event, max: nat)
    requires Ready(s, t) && Calling(PcOf(s.pcs, t))
    ensures Keeps(s, t, CallStep(s, t, e, max))
  {
    hide Goto, PcOf, CloseHead, PutHead, TakeHead, Drain, FailHead, Enter, Lists, Held, Items;
    hide DoAddLookup;
    NewHeld(s.p, t, Target(s, t, e), 0, max);
    match PcOf(s.pcs, t)
    case AddLookup(obj) => AddLookupKeeps(s, t, obj);
    case _ =>
  }

  lemma AddLookupKeeps(s: State, t: nat, obj: ObjHash)
    requires Ready(s, t) && PcOf(s.pcs, t) == AddLookup(obj)
    ensures Keeps(s, t, DoAddLookup(s, t, obj))
  {
    hide Goto, PcOf, Held;
    OneMore(s.agents, obj, s.queues);
  }

  lemma BatchKeeps(s: State, t: nat, e: Event, max: nat)
    requires Ready(s, t) && Batching(PcOf(s.pcs, t))
    ensures Keeps(s, t, BatchStep(s, t, e, max))
  {
    hide Goto, PcOf, CloseHead, PutHead, TakeHead, Drain, FailHead, Enter, Lists, Held, Items;
    NewHeld(s.p, t, Target(s, t, e), 0, max);
  }

  lemma CleanKeeps(s: State, t: nat, e: Event)
    requires Ready(s, t) && Cleaning(PcOf(s.pcs, t))
    ensures Keeps(s, t, CleanStep(s, t, e))
  {
    hide Goto, PcOf, Lists, Held, Items, Unlisted;
  }

  lemma ShutKeeps(s: State, t: nat, e: Event, max: nat)
    requires Ready(s, t) && (PcOf(s.pcs, t).CloseStart? || PcOf(s.pcs, t).CloseNext? || PcOf(s.pcs, t).CloseWork?)
    ensures Keeps(s, t, ShutStep(s, t, e))
  {
    hide Goto, PcOf, CloseHead, PutHead, TakeHead, Drain, FailHead, Enter, Lists, Held, Items;
    NewHeld(s.p, t, Target(s, t, e), 0, max);
  }

  lemma OneMore(agents: map<ObjHash, nat>, obj: ObjHash, q: nat)
    ensures |agents[obj := q]| <= |agents| + 1
  {
    assert agents[obj := q].Keys == agents.Keys + {obj};
  }

  lemma StepKeeps(s: State, t: nat, e: Event, max: nat)
    requires Ready(s, t)
    ensures Keeps(s, t, Step(s, t, e, max))
  {
    hide Ready, Keeps, CallStep, BatchStep, CleanStep, ShutStep, Begin;
    if PcOf(s.pcs, t).Idle? {
      BeginKeeps(s, t, e, max);
    } else if Calling(PcOf(s.pcs, t)) {
      CallKeeps(s, t, e, max);
    } else if Batching(PcOf(s.pcs, t)) {
      BatchKeeps(s, t, e, max);
    } else if Cleaning(PcOf(s.pcs, t)) {
      CleanKeeps(s, t, e);
    } else {
      ShutKeeps(s, t, e, max);
    }
  }

  /** Every step of every goroutine keeps the invariant. */
  lemma StepInv(s: State, t: nat, e: Event, max: nat)
    requires Inv(s, max)
    ensures Inv(Step(s, t, e, max), max)
  {
    hide Step, Workers, Numbered, HoldsRight, Locking, PcOf, Held;
    StepWorkers(s, t, e, max);
    StepNumbered(s, t, e, max);
    assert Ready(s, t);
    StepKeeps(s, t, e, max);
    forall u: nat
      ensures u != t ==> PcOf(Step(s, t, e, max).pcs, u) == PcOf(s.pcs, u) && Held(Step(s, t, e, max).p, u) == Held(s.p, u)
    {
      if u != t {
        Others(s, t, e, max, u);
      }
    }
  }

  lemma {:induction false} RunInv(s: State, steps: seq<(nat, Event)>, max: nat)
    requires Inv(s, max)
    ensures Inv(Run(s, steps, max), max)
  {
    hide Inv, Step;
    if steps != [] {
      var init, last := steps[..|steps| - 1], steps[|steps| - 1];
      RunInv(s, init, max);
      StepInv(Run(s, init, max), last.0, last.1, max);
    }
  }

  /** In every run: whoever holds a worker is alone with it; a worker is lost only after it was
      closed; queues and map keep their limits; and at most one goroutine is inside the lock. */
  lemma Exclusive(steps: seq<(nat, Event)>, max: nat)
    ensures var s := Run(Init(), steps, max);
      && (forall t: nat, u: nat, w :: w in Held(s.p, t) && w in Held(s.p, u) ==> t == u)
      && (forall t: nat, q: nat, w :: w in Held(s.p, t) ==> w !in Items(s.p, q))
      && (forall q: nat, r: nat, w :: w in Items(s.p, q) && w in Items(s.p, r) ==> q == r)
      && (forall t: nat :: NoDup(Held(s.p, t)) && NoDup(Items(s.p, t)))
      && (forall w :: w in s.p.known && w !in s.p.closed ==> Placed(s.p.shelves, w))
      && (forall q: nat :: |Items(s.p, q)| <= max) && |s.agents| <= DEFAULT_MAX_AGENTS
      && (forall t: nat, u: nat :: Locking(PcOf(s.pcs, t)) && Locking(PcOf(s.pcs, u)) ==> t == u)
  {
    hide Run, NoDup, Placed;
    InitInv(max);
    RunInv(Init(), steps, max);
    var s := Run(Init(), steps, max);
    Apart(s.p, max);
    assert forall w :: w in s.p.known && w !in s.p.closed ==> w !in s.p.gone;
  }

  lemma Apart(p: Places, max: nat)
    requires Workers(p, max)
    ensures forall t: nat, u: nat, w :: w in Held(p, t) && w in Held(p, u) ==> t == u
    ensures forall t: nat, q: nat, w :: w in Held(p, t) ==> w !in Items(p, q)
    ensures forall q: nat, r: nat, w :: w in Items(p, q) && w in Items(p, r) ==> q == r
    ensures forall t: nat :: NoDup(Held(p, t)) && NoDup(Items(p, t))
  {
    hide NoDup, Placed;
  }

  /** A queue that neither the map nor any goroutine refers to. */
  ghost predicate Stranded(s: State, q: nat) {
    q < s.queues && !InMap(s.agents, q) && forall t: nat :: !Mentions(PcOf(s.pcs, t), q)
  }

  lemma SameItems(p: Places, t: nat, r: nat, w: Worker, max: nat, q: nat)
    requires r != q
    ensures Items(CloseHead(p, t), q) == Items(PutHead(p, t, r, max), q) == Items(TakeHead(p, t, r), q) == Items(p, q)
    ensures Items(Drain(p, t, r), q) == Items(FailHead(p, t), q) == Items(Enter(p, t, w), q) == Items(p, q)
  {
  }

  lemma ItemsStay(s: State, t: nat, e: Event, max: nat, q: nat)
    requires QueueOf(s, t, e) != Some(q)
    ensures Items(Step(s, t, e, max).p, q) == Items(s.p, q)
  {
    hide Goto, PcOf, CloseHead, PutHead, TakeHead, Drain, FailHead, Enter, Lists, Held, Items;
    SameItems(s.p, t, if QueueOf(s, t, e).Some? then QueueOf(s, t, e).value else q + 1, Who(e), max, q);
  }

  /** No step of a goroutine that does not mention a stranded queue is about it. */
  lemma NotAbout(s: State, t: nat, e: Event, q: nat)
    requires Stranded(s, q)
    ensures QueueOf(s, t, e) != Some(q)
  {
    hide PcOf;
    assert !Mentions(PcOf(s.pcs, t), q);
  }

  /** The only worker that a step may close is the first that its goroutine holds. */
  lemma ClosedStays(s: State, t: nat, e: Event, max: nat)
    ensures forall w :: (Held(s.p, t) == [] || w != Held(s.p, t)[0]) ==>
      (w in Step(s, t, e, max).p.closed <==> w in s.p.closed)
  {
    hide Goto, PcOf, MoveHead, MoveAll, DropHead, Arrive, Held, Items, Lists;
  }

  /** Once stranded, a queue keeps its workers, and an open one of them open, through every step. */
  lemma StrandedStays(s: State, t: nat, e: Event, max: nat, q: nat)
    requires Inv(s, max) && Stranded(s, q)
    ensures var s2 := Step(s, t, e, max);
      Stranded(s2, q) && Items(s2.p, q) == Items(s.p, q) && forall w :: w in Items(s.p, q) ==> (w in s2.p.closed <==> w in s.p.closed)
  {
    hide Step, Workers, Items, Held, Mentions, InMap, PcOf;
    NotAbout(s, t, e, q);
    ItemsStay(s, t, e, max, q);
    NewMentions(s, t, e, max, q);
    MapChange(s, t, e, max, q);
    MapStep(s, t, e, max);
    ClosedStays(s, t, e, max);
    Apart(s.p, max);
    forall u: nat
      ensures !Mentions(PcOf(Step(s, t, e, max).pcs, u), q)
    {
      if u != t {
        Others(s, t, e, max, u);
      }
    }
  }

  /** A stranded open connection is never used, checked or closed again. */
  lemma {:induction false} StrandedForever(s: State, steps: seq<(nat, Event)>, max: nat, q: nat)
    requires Inv(s, max) && Stranded(s, q)
    ensures var s2 := Run(s, steps, max);
      Inv(s2, max) && Stranded(s2, q) && Items(s2.p, q) == Items(s.p, q)
      && forall w :: w in Items(s.p, q) ==> (w in s2.p.closed <==> w in s.p.closed)
  {
    hide Inv, Step, Stranded, Items;
    if steps != [] {
      var init, last := steps[..|steps| - 1], steps[|steps| - 1];
      StrandedForever(s, init, max, q);
      StrandedStays(Run(s, init, max), last.0, last.1, max, q);
      StepInv(Run(s, init, max), last.0, last.1, max);
    }
  }

  // ----- when a queue with workers is stranded -------------------------------------------

  ghost predicate Lost(s: State, q: nat) {
    Stranded(s, q) && Items(s.p, q) != []
  }

  /** The queue will still hold a worker after the step. */
  predicate Remains(s: State, t: nat, max: nat, q: nat) {
    match PcOf(s.pcs, t)
    case AddPut(_) => Items(s.p, q) != [] || max > 0
    case GetTake(_, _) => |Items(s.p, q)| > 1
    case GetWait(_, _) => |Items(s.p, q)| > 1
    case _ => Items(s.p, q) != []
  }

  /** The last reference to a queue with workers goes: it leaves the map and no goroutine refers to it,
      or the last goroutine that does lets go of it when it is no longer in the map. */
  ghost predicate Strands(s: State, t: nat, e: Event, max: nat, q: nat) {
    && (forall u: nat :: u != t ==> !Mentions(PcOf(s.pcs, u), q))
    && Remains(s, t, max, q)
    && if InMap(s.agents, q) then Removes(s, t, e, q) && !Mentions(PcOf(s.pcs, t), q) else Leaves(s, t, e, q)
  }

  /** In every state and for every step: a queue with workers is out of reach afterwards exactly if it
      was before or this step takes the last reference. */
  lemma StrandsIff(s: State, t: nat, e: Event, max: nat, q: nat)
    requires Inv(s, max)
    ensures Lost(Step(s, t, e, max), q) <==> Lost(s, q) || Strands(s, t, e, max, q)
  {
    hide Inv, Step, Items, Mentions, InMap, PcOf, Leaves, Removes, Remains;
    var s2 := Step(s, t, e, max);
    assert Numbered(s) by {
      InvIs(s, max);
    }
    NewMentions(s, t, e, max, q);
    MapChange(s, t, e, max, q);
    MapStep(s, t, e, max);
    if Stranded(s, q) {
      StrandedStays(s, t, e, max, q);
    }
    NotBoth(s, t, e, q);
    if Leaves(s, t, e, q) || Removes(s, t, e, q) {
      RemainsIff(s, t, e, max, q);
    }
    forall u: nat
      ensures u != t ==> PcOf(s2.pcs, u) == PcOf(s.pcs, u)
    {
      if u != t {
        Others(s, t, e, max, u);
      }
    }
  }

  lemma NotBoth(s: State, t: nat, e: Event, q: nat)
    ensures !(Leaves(s, t, e, q) && Removes(s, t, e, q))
  {
  }

  lemma InvIs(s: State, max: nat)
    requires Inv(s, max)
    ensures Workers(s.p, max) && Control(s) && Numbered(s)
  {
  }

  lemma RemainsIff(s: State, t: nat, e: Event, max: nat, q: nat)
    requires Inv(s, max) && (Leaves(s, t, e, q) || Removes(s, t, e, q))
    ensures Items(Step(s, t, e, max).p, q) != [] <==> Remains(s, t, max, q)
  {
    hide Goto, PcOf, CloseHead, PutHead, TakeHead, Lists, Workers, Numbered, Held, Items, InMap, Listing;
    assert HoldsRight(PcOf(s.pcs, t), Held(s.p, t));
    if QueueOf(s, t, e) != Some(q) {
      ItemsStay(s, t, e, max, q);
    } else {
      PutAndTake(s.p, t, q, max);
    }
  }

  lemma PutAndTake(p: Places, t: nat, q: nat, max: nat)
    ensures Held(p, t) != [] ==> (Items(PutHead(p, t, q, max), q) != [] <==> Items(p, q) != [] || max > 0)
    ensures Items(p, q) != [] ==> (Items(TakeHead(p, t, q), q) != [] <==> |Items(p, q)| > 1)
  {
  }

  /** A run leaves a queue with workers out of reach exactly if one of its steps takes the last reference. */
  lemma {:induction false} LostIff(steps: seq<(nat, Event)>, max: nat, q: nat)
    ensures Lost(Run(Init(), steps, max), q) <==>
      exists i :: 0 <= i < |steps| && Strands(Run(Init(), steps[..i], max), steps[i].0, steps[i].1, max, q)
  {
    hide Inv, Step, Lost, Strands;
    if steps == [] {
      NothingLost(max, q);
    } else {
      var init, last := steps[..|steps| - 1], steps[|steps| - 1];
      LostIff(init, max, q);
      InitInv(max);
      RunInv(Init(), init, max);
      StrandsIff(Run(Init(), init, max), last.0, last.1, max, q);
      assert forall i :: 0 <= i < |init| ==> init[..i] == steps[..i] && init[i] == steps[i];
    }
  }

  lemma NothingLost(max: nat, q: nat)
    ensures !Lost(Init(), q)
  {
  }

  // ----- when every queue with workers is in the map -------------------------------------

  /** The goroutine is on its way to put a worker into the queue. */
  predicate Pending(pc: Pc, held: seq<Worker>, q: nat) {
    match pc
    case AddPut(r) => r == q
    case KaWork(todo) => todo != [] && todo[0].q == q && held != []
    case KaSend(todo) => todo != [] && todo[0].q == q && held != []
    case KaPut(todo) => todo != [] && todo[0].q == q && held != []
    case _ => false
  }

  /** The queue is empty and nobody is about to put a worker into it. */
  ghost predicate Quiet(s: State, q: nat) {
    Items(s.p, q) == [] && forall u: nat :: !Pending(PcOf(s.pcs, u), Held(s.p, u), q)
  }

  /** All workers that are not in somebody's hands are in queues of the map, and will go there. */
  ghost predicate Settled(s: State) {
    forall q: nat :: InMap(s.agents, q) || Quiet(s, q)
  }

  ghost predicate SafeRemoval(s: State, t: nat, e: Event) {
    forall q: nat :: Removes(s, t, e, q) ==> Quiet(s, q)
  }

  /** A queue that is quiet can be woken only by a lookup that finds it in the map. */
  lemma QuietStays(s: State, t: nat, e: Event, max: nat, q: nat)
    requires Inv(s, max) && Quiet(s, q)
    requires !InMap(s.agents, q) || s.lock != None
    ensures Items(Step(s, t, e, max).p, q) == []
    ensures Pending(PcOf(Step(s, t, e, max).pcs, t), Held(Step(s, t, e, max).p, t), q) ==> q == s.queues
  {
    hide Workers, Numbered, PcOf, Held, Items, InMap, Pending, CallStep, BatchStep, CleanStep, ShutStep, Goto, Lists;
    assert HoldsRight(PcOf(s.pcs, t), Held(s.p, t));
    assert !Pending(PcOf(s.pcs, t), Held(s.p, t), q);
    if Calling(PcOf(s.pcs, t)) {
      CallQuiet(s, t, e, max, q);
    } else if Batching(PcOf(s.pcs, t)) {
      BatchQuiet(s, t, e, max, q);
    } else {
      RestQuiet(s, t, e, max, q);
    }
  }

  lemma CallQuiet(s: State, t: nat, e: Event, max: nat, q: nat)
    requires Calling(PcOf(s.pcs, t)) && !Pending(PcOf(s.pcs, t), Held(s.p, t), q) && Items(s.p, q) == []
    requires !InMap(s.agents, q) || s.lock != None
    ensures var s2 := CallStep(s, t, e, max);
      Items(s2.p, q) == [] && (Pending(PcOf(s2.pcs, t), Held(s2.p, t), q) ==> q == s.queues)
  {
    hide Goto, PcOf, CloseHead, PutHead, TakeHead, FailHead, Held, Items, InMap;
    NotInMap(s.agents, q);
    SameItems(s.p, t, if QueueOf(s, t, e).Some? && QueueOf(s, t, e).value != q then QueueOf(s, t, e).value else q + 1, 0, max, q);
  }

  lemma BatchQuiet(s: State, t: nat, e: Event, max: nat, q: nat)
    requires Batching(PcOf(s.pcs, t)) && HoldsRight(PcOf(s.pcs, t), Held(s.p, t)) && Items(s.p, q) == []
    requires !Pending(PcOf(s.pcs, t), Held(s.p, t), q)
    ensures var s2 := BatchStep(s, t, e, max);
      Items(s2.p, q) == [] && !Pending(PcOf(s2.pcs, t), Held(s2.p, t), q)
  {
    hide Goto, PcOf, CloseHead, PutHead, TakeHead, Drain, FailHead, Held, Items, Lists;
    NewHeld(s.p, t, q, 0, max);
    DrainsNothing(s.p, t, q);
    SameItems(s.p, t, if QueueOf(s, t, e).Some? && QueueOf(s, t, e).value != q then QueueOf(s, t, e).value else q + 1, 0, max, q);
  }

  lemma DrainsNothing(p: Places, t: nat, q: nat)
    ensures Items(p, q) == [] ==> Items(Drain(p, t, q), q) == [] && Held(Drain(p, t, q), t) == Held(p, t)
  {
  }

  lemma RestQuiet(s: State, t: nat, e: Event, max: nat, q: nat)
    requires !Calling(PcOf(s.pcs, t)) && !Batching(PcOf(s.pcs, t)) && Items(s.p, q) == []
    requires HoldsRight(PcOf(s.pcs, t), Held(s.p, t))
    ensures var s2 := Step(s, t, e, max);
      Items(s2.p, q) == [] && !Pending(PcOf(s2.pcs, t), Held(s2.p, t), q)
  {
    hide Goto, PcOf, Enter, Held, Items, CleanStep, ShutStep;
    if PcOf(s.pcs, t).Idle? {
      SameItems(s.p, t, q + 1, Who(e), max, q);
    } else if Cleaning(PcOf(s.pcs, t)) {
      CleanQuiet(s, t, e, q);
    } else {
      ShutQuiet(s, t, e, max, q);
    }
  }

  lemma CleanQuiet(s: State, t: nat, e: Event, q: nat)
    requires Cleaning(PcOf(s.pcs, t))
    ensures var s2 := CleanStep(s, t, e);
      s2.p == s.p && !Pending(PcOf(s2.pcs, t), Held(s2.p, t), q)
  {
    hide Goto, PcOf, Held, Items, Unlisted;
  }

  lemma ShutQuiet(s: State, t: nat, e: Event, max: nat, q: nat)
    requires (PcOf(s.pcs, t).CloseStart? || PcOf(s.pcs, t).CloseNext? || PcOf(s.pcs, t).CloseWork?) && Items(s.p, q) == []
    ensures var s2 := ShutStep(s, t, e);
      Items(s2.p, q) == [] && !Pending(PcOf(s2.pcs, t), Held(s2.p, t), q)
  {
    hide Goto, PcOf, CloseHead, Drain, Held, Items;
    var r := if e.Pick? && e.obj in s.agents then s.agents[e.obj] else q + 1;
    DrainsNothing(s.p, t, q);
    if r != q {
      SameItems(s.p, t, r, 0, max, q);
    }
    SameItems(s.p, t, q + 1, 0, max, q);
  }

  /** In every settled state and for every step: the next state is settled exactly if the queues that
      the step removes are quiet. */
  lemma SettledIff(s: State, t: nat, e: Event, max: nat)
    requires Inv(s, max) && Settled(s)
    ensures Settled(Step(s, t, e, max)) <==> SafeRemoval(s, t, e)
  {
    hide Inv, Step, Removes, Quiet, InMap;
    var s2 := Step(s, t, e, max);
    InvIs(s, max);
    forall q: nat
      ensures InMap(s2.agents, q) || Quiet(s2, q) <==> Removes(s, t, e, q) ==> Quiet(s, q)
    {
      MapChange(s, t, e, max, q);
      if Removes(s, t, e, q) {
        RemovalIsQuiet(s, t, e, max, q);
      } else if !InMap(s2.agents, q) {
        QuietNext(s, t, e, max, q);
      }
    }
  }

  lemma QuietNext(s: State, t: nat, e: Event, max: nat, q: nat)
    requires Inv(s, max) && Quiet(s, q) && !InMap(s.agents, q) && !InMap(Step(s, t, e, max).agents, q)
    ensures Quiet(Step(s, t, e, max), q)
  {
    hide Inv, Step, PcOf, Held, Items, InMap, Pending;
    var s2 := Step(s, t, e, max);
    QuietStays(s, t, e, max, q);
    PendingRefers(s2, t, q);
    NewMentions(s, t, e, max, q);
    InvIs(s, max);
    forall u: nat
      ensures !Pending(PcOf(s2.pcs, u), Held(s2.p, u), q)
    {
      if u != t {
        Others(s, t, e, max, u);
      }
    }
  }

  lemma PendingRefers(s: State, t: nat, q: nat)
    ensures Pending(PcOf(s.pcs, t), Held(s.p, t), q) ==> Mentions(PcOf(s.pcs, t), q)
  {
    hide PcOf, Held;
  }

  lemma RemovalIsQuiet(s: State, t: nat, e: Event, max: nat, q: nat)
    requires Removes(s, t, e, q)
    ensures Quiet(Step(s, t, e, max), q) <==> Quiet(s, q)
  {
    hide Goto, PcOf, Held, Items, InMap;
    var s2 := Step(s, t, e, max);
    assert s2.p == s.p && !Pending(PcOf(s.pcs, t), Held(s.p, t), q) && !Pending(PcOf(s2.pcs, t), Held(s2.p, t), q);
    forall u: nat
      ensures Pending(PcOf(s2.pcs, u), Held(s2.p, u), q) <==> Pending(PcOf(s.pcs, u), Held(s.p, u), q)
    {
      if u != t {
        Others(s, t, e, max, u);
      }
    }
  }

  /** A run is settled all along exactly if it only ever removes quiet queues. */
  lemma {:induction false} SettledRunIff(steps: seq<(nat, Event)>, max: nat)
    ensures (forall i :: 0 <= i <= |steps| ==> SettledAfter(steps, i, max)) <==>
      (forall i :: 0 <= i < |steps| ==> SafeAt(steps, i, max))
  {
    hide Inv, Step, Run, SettledAfter, SafeAt;
    if steps == [] {
      InitSettled(max);
    } else {
      var n := |steps| - 1;
      SettledRunIff(steps[..n], max);
      forall i | 0 <= i <= n
        ensures SettledAfter(steps[..n], i, max) <==> SettledAfter(steps, i, max)
        ensures i < n ==> (SafeAt(steps[..n], i, max) <==> SafeAt(steps, i, max))
      {
        Prefixes(steps, i, max);
      }
      if SettledAfter(steps, n, max) {
        OneStepMore(steps, max);
      }
    }
  }

  /** The state after the first i steps is settled, and step i removes only quiet queues. */
  ghost predicate SettledAfter(steps: seq<(nat, Event)>, i: nat, max: nat)
    requires i <= |steps|
  {
    Settled(Run(Init(), steps[..i], max))
  }

  ghost predicate SafeAt(steps: seq<(nat, Event)>, i: nat, max: nat)
    requires i < |steps|
  {
    SafeRemoval(Run(Init(), steps[..i], max), steps[i].0, steps[i].1)
  }

  lemma Prefixes(steps: seq<(nat, Event)>, i: nat, max: nat)
    requires i < |steps|
    ensures SettledAfter(steps[..|steps| - 1], i, max) <==> SettledAfter(steps, i, max)
    ensures i < |steps| - 1 ==> (SafeAt(steps[..|steps| - 1], i, max) <==> SafeAt(steps, i, max))
  {
    hide Settled, SafeRemoval, Run;
    assert steps[..|steps| - 1][..i] == steps[..i];
  }

  lemma OneStepMore(steps: seq<(nat, Event)>, max: nat)
    requires steps != [] && SettledAfter(steps, |steps| - 1, max)
    ensures SettledAfter(steps, |steps|, max) <==> SafeAt(steps, |steps| - 1, max)
  {
    hide Inv, Step, Settled, SafeRemoval;
    var init, last := steps[..|steps| - 1], steps[|steps| - 1];
    assert steps[..|steps|] == steps;
    InitInv(max);
    RunInv(Init(), init, max);
    SettledIff(Run(Init(), init, max), last.0, last.1, max);
  }

  lemma InitSettled(max: nat)
    ensures SettledAfter([], 0, max)
  {
  }

  /** In a settled state no queue with workers is out of reach, and every worker that was not closed and
      dropped is in a queue of the map or in somebody's hands. */
  lemma SettledMeans(s: State, max: nat, w: Worker)
    requires Inv(s, max) && Settled(s)
    ensures forall q: nat :: !Lost(s, q)
    ensures w in s.p.known && w !in s.p.gone ==>
      (exists obj :: obj in s.agents && w in Items(s.p, s.agents[obj])) || exists t: nat :: w in Held(s.p, t)
  {
    hide Mentions, PcOf, Control, Numbered;
    if w in s.p.known && w !in s.p.gone {
      var x :| w in On(s.p.shelves, x);
      match x
      case Queue(q) =>
        assert w in Items(s.p, q);
        assert !Quiet(s, q) && InMap(s.agents, q);
        var obj :| obj in s.agents && s.agents[obj] == q;
      case Thread(t) =>
        assert w in Held(s.p, t);
    }
  }

  /** The daemon's size check under the lock makes its removal safe if at the time of the check nobody is
      on the way to the queue: whatever the other goroutines do in between, the queue stays quiet. */
  lemma {:induction false} LockProtects(s: State, t: nat, todo: seq<Listed>, steps: seq<(nat, Event)>, max: nat)
    requires Inv(s, max) && PcOf(s.pcs, t) == KaSize2(todo) && todo != []
    requires todo[0].obj in s.agents && s.agents[todo[0].obj] == todo[0].q && Quiet(s, todo[0].q)
    requires forall i :: 0 <= i < |steps| ==> steps[i].0 != t
    ensures var s2 := Run(Step(s, t, Go, max), steps, max);
      && Inv(s2, max) && PcOf(s2.pcs, t) == KaDelete(todo) && s2.agents == s.agents && Quiet(s2, todo[0].q)
      && SafeRemoval(s2, t, Go)
  {
    hide Inv, Step, Quiet;
    var q := todo[0].q;
    StepInv(s, t, Go, max);
    if steps == [] {
      SizeChecked(s, t, todo, max);
      OnlyThis(Step(s, t, Go, max), t, todo);
    } else {
      var init, last := steps[..|steps| - 1], steps[|steps| - 1];
      LockProtects(s, t, todo, init, max);
      var s1 := Run(Step(s, t, Go, max), init, max);
      StepInv(s1, last.0, last.1, max);
      UnderLock(s1, t, last.0, last.1, max, q);
      OnlyThis(Step(s1, last.0, last.1, max), t, todo);
    }
  }

  lemma OnlyThis(s: State, t: nat, todo: seq<Listed>)
    requires PcOf(s.pcs, t) == KaDelete(todo) && todo != []
    requires todo[0].obj in s.agents && s.agents[todo[0].obj] == todo[0].q && Quiet(s, todo[0].q)
    ensures SafeRemoval(s, t, Go)
  {
    hide Quiet;
  }

  lemma SizeChecked(s: State, t: nat, todo: seq<Listed>, max: nat)
    requires PcOf(s.pcs, t) == KaSize2(todo) && todo != [] && Quiet(s, todo[0].q)
    ensures var s2 := Step(s, t, Go, max);
      PcOf(s2.pcs, t) == KaDelete(todo) && s2.agents == s.agents && Quiet(s2, todo[0].q)
  {
    hide Goto, PcOf, Held, Items;
    var s2 := Step(s, t, Go, max);
    assert s2.p == s.p;
    forall u: nat
      ensures !Pending(PcOf(s2.pcs, u), Held(s2.p, u), todo[0].q)
    {
      if u != t {
        Others(s, t, Go, max, u);
      }
    }
  }

  /** While one goroutine has the lock, the steps of others change nothing in the map and wake no queue. */
  lemma UnderLock(s: State, t: nat, u: nat, e: Event, max: nat, q: nat)
    requires Inv(s, max) && u != t && PcOf(s.pcs, t).KaDelete? && InMap(s.agents, q) && Quiet(s, q)
    ensures var s2 := Step(s, u, e, max);
      PcOf(s2.pcs, t) == PcOf(s.pcs, t) && s2.agents == s.agents && Quiet(s2, q)
  {
    hide Step, Workers, Mentions, Named, PcOf, Held, Items, InMap, Pending, Unlisted, HoldsRight;
    var s2 := Step(s, u, e, max);
    assert Locking(PcOf(s.pcs, t)) && s.lock == Some(t);
    assert !Locking(PcOf(s.pcs, u));
    MapStep(s, u, e, max);
    QuietStays(s, u, e, max, q);
    assert q < s.queues by {
      InMapNumbered(s.agents, s.queues, q);
    }
    forall v: nat
      ensures !Pending(PcOf(s2.pcs, v), Held(s2.p, v), q) && (v == t ==> PcOf(s2.pcs, v) == PcOf(s.pcs, v))
    {
      if v != u {
        Others(s, u, e, max, v);
      }
    }
  }

  // ----- such runs exist -----------------------------------------------------------------

  /** Where goroutines 0, 1 and 2 stand, what queue 0 and they hold, the map and the lock. */
  datatype Scene =
    Scene(pc0: Pc, pc1: Pc, pc2: Pc, items: seq<Worker>, held0: seq<Worker>, held1: seq<Worker>, queues: nat, agents: map<ObjHash, nat>, lock: Option<nat>)

  ghost predicate Shows(s: State, c: Scene) {
    && PcOf(s.pcs, 0) == c.pc0 && PcOf(s.pcs, 1) == c.pc1 && PcOf(s.pcs, 2) == c.pc2
    && (forall u: nat :: u > 2 ==> PcOf(s.pcs, u) == Idle)
    && Items(s.p, 0) == c.items && Held(s.p, 0) == c.held0 && Held(s.p, 1) == c.held1 && Held(s.p, 2) == []
    && s.agents == c.agents && s.lock == c.lock && s.p.closed == {} && s.queues == c.queues
    && (c.queues == 0 && c.held0 == [] ==> s.p.known == {})
  }

  const ONE := [Listed(1, 0)]
  const LENGTH := 18

  function PutAt(early: bool): nat {
    if early then 15 else 17
  }

  function DeleteAt(early: bool): nat {
    if early then 16 else 15
  }

  /** One connection registers and a caller takes it. While the caller is on its way back, between the
      lookup and the put, the keepalive daemon finds the queue empty and removes it from the map. The
      put comes either after the removal or, early, between the daemon's size check and the removal. */
  function WhoAt(k: nat, early: bool): nat {
    if k < 3 then 0 else if k < 8 || k == PutAt(early) then 1 else 2
  }

  function EventAt(k: nat, early: bool): Event {
    if k == 0 then Connect(7, 1)
    else if k == 3 then Call(1)
    else if k == 8 then Keepalive
    else if k == 9 then Snapshot(ONE)
    else Go
  }

  function SceneAt(k: nat, early: bool): Scene {
    match k
    case 0 => Scene(Idle, Idle, Idle, [], [], [], 0, map[], None)
    case 1 => Scene(AddLookup(1), Idle, Idle, [], [7], [], 0, map[], None)
    case 2 => Scene(AddPut(0), Idle, Idle, [], [7], [], 1, map[1 := 0], None)
    case 3 => Scene(Idle, Idle, Idle, [7], [], [], 1, map[1 := 0], None)
    case 4 => Scene(Idle, GetLookup(1), Idle, [7], [], [], 1, map[1 := 0], None)
    case 5 => Scene(Idle, GetTake(1, 0), Idle, [7], [], [], 1, map[1 := 0], None)
    case 6 => Scene(Idle, Using(1), Idle, [], [], [7], 1, map[1 := 0], None)
    case 7 => Scene(Idle, AddLookup(1), Idle, [], [], [7], 1, map[1 := 0], None)
    case 8 => Scene(Idle, AddPut(0), Idle, [], [], [7], 1, map[1 := 0], None)
    case 9 => Scene(Idle, AddPut(0), KaSnapshot, [], [], [7], 1, map[1 := 0], None)
    case 10 => Scene(Idle, AddPut(0), KaNext(ONE), [], [], [7], 1, map[1 := 0], None)
    case 11 => Scene(Idle, AddPut(0), KaWork(ONE), [], [], [7], 1, map[1 := 0], None)
    case 12 => Scene(Idle, AddPut(0), KaSize(ONE), [], [], [7], 1, map[1 := 0], None)
    case 13 => Scene(Idle, AddPut(0), KaLock(ONE), [], [], [7], 1, map[1 := 0], None)
    case 14 => Scene(Idle, AddPut(0), KaSize2(ONE), [], [], [7], 1, map[1 := 0], Some(2))
    case 15 => Scene(Idle, AddPut(0), KaDelete(ONE), [], [], [7], 1, map[1 := 0], Some(2))
    case 16 =>
      if early then Scene(Idle, Idle, KaDelete(ONE), [7], [], [], 1, map[1 := 0], Some(2))
      else Scene(Idle, AddPut(0), KaUnlock(ONE), [], [], [7], 1, map[], Some(2))
    case 17 =>
      if early then Scene(Idle, Idle, KaUnlock(ONE), [7], [], [], 1, map[], Some(2))
      else Scene(Idle, AddPut(0), KaNext([]), [], [], [7], 1, map[], None)
    case _ => Scene(Idle, Idle, KaNext([]), [7], [], [], 1, map[], None)
  }

  function PcIn(c: Scene, t: nat): Pc {
    if t == 0 then c.pc0 else if t == 1 then c.pc1 else c.pc2
  }

  lemma ShowsThat(s: State, c: Scene)
    requires Shows(s, c)
    ensures forall t: nat :: t <= 2 ==> PcOf(s.pcs, t) == PcIn(c, t)
    ensures Items(s.p, 0) == c.items && Held(s.p, 0) == c.held0 && Held(s.p, 1) == c.held1 && Held(s.p, 2) == []
    ensures s.agents == c.agents && s.lock == c.lock && s.p.closed == {} && s.queues == c.queues
  {
  }

  /** A step that only moves a goroutine on, in the map and in the lock. */
  lemma Turn(s: State, c: Scene, t: nat, pc: Pc, agents: map<ObjHash, nat>, lock: Option<nat>)
    requires Shows(s, c) && t <= 2 && c.queues == 1
    ensures Shows(Goto(s.(agents := agents, lock := lock), t, s.p, pc),
      c.(pc0 := if t == 0 then pc else c.pc0, pc1 := if t == 1 then pc else c.pc1, pc2 := if t == 2 then pc else c.pc2,
         agents := agents, lock := lock))
  {
    hide Goto, PcOf, Items, Held;
  }

  lemma StoryStep(s: State, k: nat, early: bool, max: nat)
    requires k < LENGTH && max > 0 && Shows(s, SceneAt(k, early))
    ensures Shows(Step(s, WhoAt(k, early), EventAt(k, early), max), SceneAt(k + 1, early))
  {
    hide Step, Shows, SceneAt, WhoAt, EventAt;
    if k == 0 {
      Connecting(s, k, early, max);
    } else if k < 3 {
      Entering(s, k, early, max);
    } else if k == 5 {
      Taking(s, k, early, max);
    } else if k < 8 {
      Finding(s, k, early, max);
    } else if k == 10 {
      Draining(s, k, early, max);
    } else if k == 9 {
      Surveying(s, k, early, max);
    } else if k < 12 {
      Waking(s, k, early, max);
    } else if k < 15 {
      SeeingEmpty(s, k, early, max);
    } else if k == PutAt(early) {
      Putting(s, k, early, max);
    } else if k == DeleteAt(early) {
      Removing(s, k, early, max);
    } else {
      Unlocking(s, k, early, max);
    }
  }

  lemma Connecting(s: State, k: nat, early: bool, max: nat)
    requires k == 0 && max > 0 && Shows(s, SceneAt(k, early))
    ensures Shows(Step(s, WhoAt(k, early), EventAt(k, early), max), SceneAt(k + 1, early))
  {
    hide CallStep, BatchStep, CleanStep, ShutStep, CloseHead, PutHead, TakeHead, Drain, FailHead;
  }

  lemma Entering(s: State, k: nat, early: bool, max: nat)
    requires 1 <= k < 3 && max > 0 && Shows(s, SceneAt(k, early))
    ensures Shows(Step(s, WhoAt(k, early), EventAt(k, early), max), SceneAt(k + 1, early))
  {
    hide BatchStep, CleanStep, ShutStep, TakeHead, Drain, Enter, FailHead;
  }

  lemma Finding(s: State, k: nat, early: bool, max: nat)
    requires 3 <= k < 8 && k != 5 && max > 0 && Shows(s, SceneAt(k, early))
    ensures Shows(Step(s, WhoAt(k, early), EventAt(k, early), max), SceneAt(k + 1, early))
  {
    hide Goto, PcOf, Held, Items, Shows, BatchStep, CleanStep, ShutStep, CloseHead, PutHead, TakeHead, Drain, Enter, FailHead;
    var c, t := SceneAt(k, early), WhoAt(k, early);
    var c2 := SceneAt(k + 1, early);
    ShowsThat(s, c);
    Turn(s, c, t, PcIn(c2, t), c2.agents, c2.lock);
  }

  lemma Taking(s: State, k: nat, early: bool, max: nat)
    requires k == 5 && max > 0 && Shows(s, SceneAt(k, early))
    ensures Shows(Step(s, WhoAt(k, early), EventAt(k, early), max), SceneAt(k + 1, early))
  {
    hide Goto, PcOf, Held, Items, MoveHead, BatchStep, CleanStep, ShutStep, CloseHead, PutHead, Drain, Enter, FailHead;
    QueueSteps(s.p, 1, 0, max);
    SameHeld(s.p, 1, 0, 0, 0, max);
    SameHeld(s.p, 1, 2, 0, 0, max);
    assert [7 as Worker][1..] == [] && [] + [7 as Worker] == [7];
  }

  lemma Waking(s: State, k: nat, early: bool, max: nat)
    requires (k == 8 || k == 11) && max > 0 && Shows(s, SceneAt(k, early))
    ensures Shows(Step(s, WhoAt(k, early), EventAt(k, early), max), SceneAt(k + 1, early))
  {
    hide Goto, PcOf, Held, Items, Shows, CallStep, CleanStep, ShutStep, CloseHead, PutHead, TakeHead, Drain, Enter, FailHead;
    var c, t := SceneAt(k, early), WhoAt(k, early);
    var c2 := SceneAt(k + 1, early);
    ShowsThat(s, c);
    Turn(s, c, t, PcIn(c2, t), c2.agents, c2.lock);
  }

  lemma Surveying(s: State, k: nat, early: bool, max: nat)
    requires k == 9 && max > 0 && Shows(s, SceneAt(k, early))
    ensures Shows(Step(s, WhoAt(k, early), EventAt(k, early), max), SceneAt(k + 1, early))
  {
    hide Goto, PcOf, Held, Items, Shows, CallStep, CleanStep, ShutStep, CloseHead, PutHead, TakeHead, Drain, Enter, FailHead;
    var c, t := SceneAt(k, early), WhoAt(k, early);
    var c2 := SceneAt(k + 1, early);
    ShowsThat(s, c);
    Turn(s, c, t, PcIn(c2, t), c2.agents, c2.lock);
  }

  lemma Draining(s: State, k: nat, early: bool, max: nat)
    requires k == 10 && max > 0 && Shows(s, SceneAt(k, early))
    ensures Shows(Step(s, WhoAt(k, early), EventAt(k, early), max), SceneAt(k + 1, early))
  {
    hide Goto, PcOf, Held, Items, MoveAll, CallStep, CleanStep, ShutStep, CloseHead, PutHead, TakeHead, Enter, FailHead;
    DrainsNothing(s.p, 2, 0);
    SameHeld(s.p, 2, 0, 0, 0, max);
    SameHeld(s.p, 2, 1, 0, 0, max);
  }

  lemma SeeingEmpty(s: State, k: nat, early: bool, max: nat)
    requires 12 <= k < 15 && max > 0 && Shows(s, SceneAt(k, early))
    ensures Shows(Step(s, WhoAt(k, early), EventAt(k, early), max), SceneAt(k + 1, early))
  {
    hide Goto, PcOf, Held, Items, Shows, CallStep, BatchStep, ShutStep, Unlisted, CloseHead, PutHead, TakeHead, Drain, Enter, FailHead;
    var c, t := SceneAt(k, early), WhoAt(k, early);
    var c2 := SceneAt(k + 1, early);
    ShowsThat(s, c);
    Turn(s, c, t, PcIn(c2, t), c2.agents, c2.lock);
  }

  lemma Putting(s: State, k: nat, early: bool, max: nat)
    requires k == PutAt(early) && max > 0 && Shows(s, SceneAt(k, early))
    ensures Shows(Step(s, WhoAt(k, early), EventAt(k, early), max), SceneAt(k + 1, early))
  {
    hide Goto, PcOf, Held, Items, PutHead, Shows, BatchStep, CleanStep, ShutStep, TakeHead, Drain, Enter, FailHead;
    ShowsThat(s, SceneAt(k, early));
    PutBySecond(s, SceneAt(k, early), max);
  }

  lemma PutBySecond(s: State, c: Scene, max: nat)
    requires Shows(s, c) && max > 0 && c.items == [] && c.held1 == [7] && c.queues == 1
    ensures Shows(Goto(s, 1, PutHead(s.p, 1, 0, max), Idle), c.(pc1 := Idle, items := [7], held1 := []))
  {
    hide Goto, PcOf;
    var s2 := Goto(s, 1, PutHead(s.p, 1, 0, max), Idle);
    SameHeld(s.p, 1, 0, 0, 0, max);
    SameHeld(s.p, 1, 2, 0, 0, max);
    assert Items(s2.p, 0) == [7] && Held(s2.p, 1) == [];
  }

  lemma Removing(s: State, k: nat, early: bool, max: nat)
    requires k == DeleteAt(early) && max > 0 && Shows(s, SceneAt(k, early))
    ensures Shows(Step(s, WhoAt(k, early), EventAt(k, early), max), SceneAt(k + 1, early))
  {
    hide Goto, PcOf, Held, Items, Shows, CallStep, BatchStep, ShutStep, Unlisted, CloseHead, PutHead, TakeHead, Drain, Enter, FailHead;
    var c, t := SceneAt(k, early), WhoAt(k, early);
    var c2 := SceneAt(k + 1, early);
    ShowsThat(s, c);
    Turn(s, c, t, PcIn(c2, t), c2.agents, c2.lock);
    assert Unlisted(map[1 := 0], 1) == map[];
  }

  lemma Unlocking(s: State, k: nat, early: bool, max: nat)
    requires k == DeleteAt(early) + 1 && max > 0 && Shows(s, SceneAt(k, early))
    ensures Shows(Step(s, WhoAt(k, early), EventAt(k, early), max), SceneAt(k + 1, early))
  {
    hide Goto, PcOf, Held, Items, Shows, CallStep, BatchStep, ShutStep, Unlisted, CloseHead, PutHead, TakeHead, Drain, Enter, FailHead;
    var c, t := SceneAt(k, early), WhoAt(k, early);
    var c2 := SceneAt(k + 1, early);
    ShowsThat(s, c);
    Turn(s, c, t, PcIn(c2, t), c2.agents, c2.lock);
    assert ONE[1..] == [];
  }

  lemma {:induction false} Played(k: nat, early: bool, max: nat) returns (steps: seq<(nat, Event)>)
    requires k <= LENGTH && max > 0
    ensures Shows(Run(Init(), steps, max), SceneAt(k, early))
  {
    hide Step, Shows, SceneAt, EventAt;
    if k == 0 {
      steps := [];
      Opening(early, max);
    } else {
      var init := Played(k - 1, early, max);
      steps := init + [(WhoAt(k - 1, early), EventAt(k - 1, early))];
      assert steps[..|steps| - 1] == init;
      StoryStep(Run(Init(), init, max), k - 1, early, max);
    }
  }

  lemma Opening(early: bool, max: nat)
    ensures Shows(Run(Init(), [], max), SceneAt(0, early))
  {
  }

  /** Both runs leave an open connection in a queue that nobody can find: late, the put goes to a queue
      that has left the map; early, it goes to a queue of the map that the daemon is about to remove. */
  lemma StrandingRun(early: bool, max: nat) returns (steps: seq<(nat, Event)>)
    requires max > 0
    ensures var s := Run(Init(), steps, max);
      Inv(s, max) && Lost(s, 0) && Items(s.p, 0) == [7] && 7 !in s.p.closed
  {
    hide Run, Inv;
    steps := Played(LENGTH, early, max);
    InitInv(max);
    RunInv(Init(), steps, max);
  }
}

/** The pool of agent connections (internal/netio/tcp/agent_manager.go): the queue as a class, and
    the places in which a connection can be while callers, registrations and daemons pass it on. */
module Pool {
  import Endian
  import opened Results

  type ObjHash = Endian.int32

  const DEFAULT_MAX_AGENTS := 5000

  // ----- one queue -----------------------------------------------------------------------

  class AgentWorker {
    var closed: bool

    constructor ()
      ensures !closed
    {
      closed := false;
    }

    method Close()
      modifies this
      ensures closed
    {
      closed := true;
    }
  }

  /** What put leaves in a queue. */
  function Put<T>(items: seq<T>, w: T, maxSize: nat): (r: seq<T>)
    ensures |items| <= maxSize ==> |r| <= maxSize
  {
    if |items| < maxSize then items + [w] else items
  }

  class AgentQueue {
    var items: seq<AgentWorker>

    constructor ()
      ensures items == []
    {
      items := [];
    }

    /** A worker that finds the queue full is closed. */
    method PutBack(w: AgentWorker, maxSize: nat)
      modifies this, w
      ensures items == if |old(items)| < maxSize then old(items) + [w] else old(items)
      ensures w.closed <==> old(w.closed) || |old(items)| >= maxSize
    {
      if |items| < maxSize {
        items := items + [w];
      } else {
        w.Close();
      }
    }

    /** The oldest worker, as get takes it on entry and again after its wait. */
    method GetNoWait() returns (w: Option<AgentWorker>)
      modifies this
      ensures if old(items) == [] then w == None && items == [] else w == Some(old(items)[0]) && items == old(items)[1..]
    {
      if |items| == 0 {
        return None;
      }
      w := Some(items[0]);
      items := items[1..];
    }

    method DrainAll() returns (result: seq<AgentWorker>)
      modifies this
      ensures result == old(items) && items == []
    {
      result := items;
      items := [];
    }
  }

  // ----- where the workers are -----------------------------------------------------------

  type Worker = nat

  /** A queue, in the map or not, or the local variables of a goroutine. */
  datatype Shelf = Queue(id: nat) | Thread(id: nat)

  type Shelves = map<Shelf, seq<Worker>>

  function On(sh: Shelves, x: Shelf): seq<Worker> {
    if x in sh then sh[x] else []
  }

  predicate NoDup(ws: seq<Worker>) {
    forall i, j :: 0 <= i < j < |ws| ==> ws[i] != ws[j]
  }

  /** No worker is in two places, or twice in one. */
  ghost predicate Unique(sh: Shelves) {
    && (forall x :: NoDup(On(sh, x)))
    && (forall w, x, y :: w in On(sh, x) && w in On(sh, y) ==> x == y)
  }

  ghost predicate Placed(sh: Shelves, w: Worker) {
    exists x :: w in On(sh, x)
  }

  /** The first worker of one place goes to the end of another. */
  function MoveHead(sh: Shelves, from: Shelf, to: Shelf): Shelves {
    if On(sh, from) == [] || from == to then sh
    else sh[from := On(sh, from)[1..]][to := On(sh, to) + [On(sh, from)[0]]]
  }

  function MoveAll(sh: Shelves, from: Shelf, to: Shelf): Shelves {
    if from == to then sh else sh[from := []][to := On(sh, to) + On(sh, from)]
  }

  function DropHead(sh: Shelves, from: Shelf): Shelves {
    if On(sh, from) == [] then sh else sh[from := On(sh, from)[1..]]
  }

  function Arrive(sh: Shelves, w: Worker, to: Shelf): Shelves {
    sh[to := On(sh, to) + [w]]
  }

  lemma Tail(ws: seq<Worker>)
    requires NoDup(ws) && ws != []
    ensures NoDup(ws[1..]) && ws[0] in ws && forall w :: w in ws[1..] <==> w in ws && w != ws[0]
  {
    forall w
      ensures w in ws[1..] <==> w in ws && w != ws[0]
    {
      if w in ws && w != ws[0] {
        var i :| 0 <= i < |ws| && ws[i] == w;
        assert ws[1..][i - 1] == w;
      }
    }
  }

  lemma Append(s: seq<Worker>, t: seq<Worker>)
    requires NoDup(s) && NoDup(t) && forall w :: w in s ==> w !in t
    ensures NoDup(s + t) && forall w :: w in s + t <==> w in s || w in t
  {
    forall i, j | 0 <= i < j < |s + t|
      ensures (s + t)[i] != (s + t)[j]
    {
      if i < |s| <= j {
        assert s[i] in s && t[j - |s|] in t;
      }
    }
  }

  /** Where a worker was before a move. */
  function Before(w: Worker, x: Shelf, from: Shelf, to: Shelf, moved: seq<Worker>): Shelf {
    if x == to && w in moved then from else x
  }

  /** A move changes two places; what the one loses the other gains. */
  lemma Moved(sh: Shelves, from: Shelf, to: Shelf, rest: seq<Worker>, moved: seq<Worker>)
    requires Unique(sh) && from != to && NoDup(rest) && NoDup(moved)
    requires forall w :: w in On(sh, from) <==> w in rest || w in moved
    requires forall w :: w in rest ==> w !in moved
    ensures var sh2 := sh[from := rest][to := On(sh, to) + moved];
      Unique(sh2) && forall w :: Placed(sh2, w) <==> Placed(sh, w)
  {
    hide NoDup, On;
    var sh2 := sh[from := rest][to := On(sh, to) + moved];
    MovedOn(sh, from, to, rest, moved);
    forall x
      ensures NoDup(On(sh2, x))
    {
      if x == to {
        assert forall w :: w in moved ==> w in On(sh, from);
        Append(On(sh, to), moved);
      }
    }
    forall w, x, y | w in On(sh2, x) && w in On(sh2, y)
      ensures x == y
    {
      assert w in On(sh, Before(w, x, from, to, moved)) && w in On(sh, Before(w, y, from, to, moved));
      assert (x == from ==> w !in moved) && (y == from ==> w !in moved);
    }
    forall w
      ensures Placed(sh2, w) <==> Placed(sh, w)
    {
      if Placed(sh, w) {
        var x :| w in On(sh, x);
        assert w in On(sh2, if x == from && w in moved then to else x);
      }
      if Placed(sh2, w) {
        var x :| w in On(sh2, x);
        assert w in On(sh, Before(w, x, from, to, moved));
      }
    }
  }

  lemma MovedOn(sh: Shelves, from: Shelf, to: Shelf, rest: seq<Worker>, moved: seq<Worker>)
    requires from != to
    ensures var sh2 := sh[from := rest][to := On(sh, to) + moved];
      On(sh2, from) == rest && On(sh2, to) == On(sh, to) + moved && forall x :: x != from && x != to ==> On(sh2, x) == On(sh, x)
  {
  }

  lemma MoveHeadKeeps(sh: Shelves, from: Shelf, to: Shelf)
    requires Unique(sh)
    ensures Unique(MoveHead(sh, from, to))
    ensures forall w :: Placed(MoveHead(sh, from, to), w) <==> Placed(sh, w)
  {
    hide Unique;
    var ws := On(sh, from);
    if ws != [] && from != to {
      NoDupOn(sh, from);
      Tail(ws);
      Moved(sh, from, to, ws[1..], [ws[0]]);
    }
  }

  lemma NoDupOn(sh: Shelves, x: Shelf)
    requires Unique(sh)
    ensures NoDup(On(sh, x))
  {
  }

  lemma MoveAllKeeps(sh: Shelves, from: Shelf, to: Shelf)
    requires Unique(sh)
    ensures Unique(MoveAll(sh, from, to))
    ensures forall w :: Placed(MoveAll(sh, from, to), w) <==> Placed(sh, w)
  {
    hide Unique;
    if from != to {
      NoDupOn(sh, from);
      Moved(sh, from, to, [], On(sh, from));
    }
  }

  lemma DropHeadKeeps(sh: Shelves, from: Shelf)
    requires Unique(sh) && On(sh, from) != []
    ensures Unique(DropHead(sh, from))
    ensures forall w :: Placed(DropHead(sh, from), w) <==> Placed(sh, w) && w != On(sh, from)[0]
  {
    hide NoDup;
    var sh2, ws := DropHead(sh, from), On(sh, from);
    Tail(ws);
    forall x
      ensures NoDup(On(sh2, x)) && forall w :: w in On(sh2, x) <==> w in On(sh, x) && w != ws[0]
    {
      assert x != from ==> On(sh2, x) == On(sh, x);
    }
    forall w
      ensures Placed(sh2, w) <==> Placed(sh, w) && w != ws[0]
    {
      if Placed(sh, w) && w != ws[0] {
        var x :| w in On(sh, x);
        assert w in On(sh2, x);
      }
      if Placed(sh2, w) {
        var x :| w in On(sh2, x);
        assert w in On(sh, x);
      }
    }
  }

  lemma ArriveKeeps(sh: Shelves, w: Worker, to: Shelf)
    requires Unique(sh) && !Placed(sh, w)
    ensures Unique(Arrive(sh, w, to))
    ensures forall v :: Placed(Arrive(sh, w, to), v) <==> Placed(sh, v) || v == w
  {
    hide NoDup;
    var sh2 := Arrive(sh, w, to);
    assert forall x :: w !in On(sh, x);
    One(w);
    Append(On(sh, to), [w]);
    forall x
      ensures NoDup(On(sh2, x)) && forall v :: v in On(sh2, x) <==> v in On(sh, x) || (v == w && x == to)
    {
      assert x != to ==> On(sh2, x) == On(sh, x);
    }
    forall v
      ensures Placed(sh2, v) <==> Placed(sh, v) || v == w
    {
      if Placed(sh, v) {
        var x :| v in On(sh, x);
        assert v in On(sh2, x);
      }
      if v == w {
        assert w in On(sh2, to);
      }
      if Placed(sh2, v) {
        var x :| v in On(sh2, x);
        assert v in On(sh, x) || v == w;
      }
    }
  }

  lemma One(w: Worker)
    ensures NoDup([w])
  {
  }
}

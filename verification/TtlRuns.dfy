/** Whole runs of the index with expiry times against a plain map and a clock. */
module TtlRuns {
  import opened Endian
  import opened DataStream
  import opened Layout
  import opened Results
  import opened KeyFile2
  import opened HashBlock
  import opened IndexKeyFile2

  datatype Op =
    | PutTTL(key: bytes, val: bytes, ttl: int)
    | UpdateOrPutTTL(key: bytes, val: bytes, ttl: int)
    | SetTTL(key: bytes, ttl: int)
    | Delete(key: bytes)
    | Get(key: bytes)
    | HasKey(key: bytes)
    | GetAndRefreshTTL(key: bytes, ttl: int)
    | FlushRecords
    | FlushTable
    | Reopen(memSize: nat)

  datatype Answer = Done | Flag(b: bool) | Count(n: nat) | Value(v: Option<bytes>)

  /** An operation and the clock when it runs. */
  datatype Timed = Timed(op: Op, now: int)

  type State = map<bytes, Entry>

  function Refreshed(m: State, key: bytes, ttl: int, now: int): State {
    if LiveValue(m, key, now).Some? then m[key := m[key].(expire := Expiry(now, ttl))] else m
  }

  function NextState(m: State, t: Timed): State {
    match t.op
    case PutTTL(k, v, ttl) => m[k := Entry(v, Expiry(t.now, ttl))]
    case UpdateOrPutTTL(k, v, ttl) => m[k := Entry(v, Expiry(t.now, ttl))]
    case SetTTL(k, ttl) => Refreshed(m, k, ttl, t.now)
    case Delete(k) => m - {k}
    case GetAndRefreshTTL(k, ttl) => Refreshed(m, k, ttl, t.now)
    case _ => m
  }

  function AnswerOf(m: State, t: Timed): Answer {
    match t.op
    case SetTTL(k, ttl) => Flag(LiveValue(m, k, t.now).Some?)
    case Delete(k) => Count(if k in m then 1 else 0)
    case Get(k) => Value(LiveValue(m, k, t.now))
    case HasKey(k) => Flag(LiveValue(m, k, t.now).Some?)
    case GetAndRefreshTTL(k, ttl) => Value(LiveValue(m, k, t.now))
    case _ => Done
  }

  function StateAfter(run: seq<Timed>): State {
    if run == [] then map[] else NextState(StateAfter(run[..|run| - 1]), run[|run| - 1])
  }

  function Answers(run: seq<Timed>): (a: seq<Answer>)
    ensures |a| == |run|
  {
    if run == [] then []
    else Answers(run[..|run| - 1]) + [AnswerOf(StateAfter(run[..|run| - 1]), run[|run| - 1])]
  }

  function FileBound(run: seq<Timed>): nat {
    if run == [] then 2
    else
      FileBound(run[..|run| - 1]) +
      match run[|run| - 1].op {
        case PutTTL(k, v, ttl) => |Enc(Rec2(false, 0, 0, k, v))|
        case UpdateOrPutTTL(k, v, ttl) => |Enc(Rec2(false, 0, 0, k, v))|
        case _ => 0
      }
  }

  predicate Legal(op: Op) {
    match op
    case PutTTL(k, v, _) => |k| < 0x1_0000 && |v| < 0x8000_0000
    case UpdateOrPutTTL(k, v, _) => |k| < 0x1_0000 && |v| < 0x8000_0000
    case Reopen(memSize) => memSize >= KEY_LENGTH
    case _ => true
  }

  lemma {:induction false} BoundGrows(run: seq<Timed>, i: nat)
    requires i <= |run|
    ensures FileBound(run[..i]) <= FileBound(run)
    decreases |run| - i
  {
    if i < |run| {
      assert run[..i + 1][..i] == run[..i];
      BoundGrows(run, i + 1);
    } else {
      assert run[..i] == run;
    }
  }

  /** Closes an index and opens it again on the same files. */
  method Reopened(idx: IndexKeyFile2, memSize: nat) returns (again: IndexKeyFile2)
    requires idx.Valid() && idx.TableSaved() && memSize >= KEY_LENGTH
    modifies idx.keyFile, idx.keyFile.raf, idx.hashBlock`dirty, idx.hashBlock.file`data
    ensures again.Valid() && again.TableSaved() && again.Map() == old(idx.Map())
    ensures fresh(again) && fresh(again.hashBlock) && fresh(again.hashBlock.buf) && fresh(again.keyFile)
    ensures again.keyFile.raf == idx.keyFile.raf && again.hashBlock.file == idx.hashBlock.file
    ensures again.keyFile.Length() == old(idx.keyFile.Length())
  {
    hide SlotPos, Slots, HeadPos, Linked, HeadsIn, HeadIn, BucketOf, RealKeyFile2.Length;
    idx.keyFile.LengthIsPos();
    idx.Flush();
    again := new IndexKeyFile2(idx.hashBlock.file, idx.keyFile.raf, memSize, idx.hash);
  }

  /** One operation on the stored index answers and changes the map as the reference does. */
  method Step(idx: IndexKeyFile2, t: Timed) returns (a: Answer, next: IndexKeyFile2)
    requires idx.Valid() && idx.TableSaved() && Legal(t.op) && idx.keyFile.Length() <= LONG5_MAX
    modifies idx, idx.hashBlock, idx.hashBlock.buf, idx.hashBlock.file, idx.keyFile, idx.keyFile.raf
    ensures next.Valid() && next.TableSaved()
    ensures next.Map() == NextState(old(idx.Map()), t) && a == AnswerOf(old(idx.Map()), t)
    ensures next.keyFile.Length() <= old(idx.keyFile.Length()) +
      (if t.op.PutTTL? || t.op.UpdateOrPutTTL? then |Enc(Rec2(false, 0, 0, t.op.key, t.op.val))| else 0)
    ensures next == idx || (fresh(next) && fresh(next.hashBlock) && fresh(next.keyFile))
    ensures next.hashBlock.buf == old(idx.hashBlock.buf) || fresh(next.hashBlock.buf)
    ensures next.keyFile.raf == idx.keyFile.raf && next.hashBlock.file == idx.hashBlock.file
  {
    hide Entries, Expiry, Enc, SlotPos, HeadsIn, IndexKeyFile2.Valid, RealKeyFile2.Log, RealKeyFile2.Length;
    a, next := Done, idx;
    match t.op
    case PutTTL(k, v, ttl) =>
      idx.PutTTL(k, v, ttl, t.now);
    case UpdateOrPutTTL(k, v, ttl) =>
      idx.UpdateOrPutTTL(k, v, ttl, t.now);
    case SetTTL(k, ttl) =>
      var b := idx.SetTTL(k, ttl, t.now);
      a := Flag(b);
    case Delete(k) =>
      var n := idx.Delete(k);
      a := Count(n);
    case Get(k) =>
      var v := idx.Get(k, t.now);
      a := Value(v);
    case HasKey(k) =>
      var b := idx.HasKey(k, t.now);
      a := Flag(b);
    case GetAndRefreshTTL(k, ttl) =>
      var v := idx.GetAndRefreshTTL(k, ttl, t.now);
      a := Value(v);
    case FlushRecords =>
      idx.FlushRecords();
    case FlushTable =>
      idx.FlushTable();
    case Reopen(memSize) =>
      next := Reopened(idx, memSize);
  }

  lemma NoRun()
    ensures StateAfter([]) == map[] && Answers([]) == [] && FileBound([]) == 2
  {
  }

  lemma RunNext(run: seq<Timed>, i: nat)
    requires i < |run|
    ensures StateAfter(run[..i + 1]) == NextState(StateAfter(run[..i]), run[i])
    ensures Answers(run[..i + 1]) == Answers(run[..i]) + [AnswerOf(StateAfter(run[..i]), run[i])]
    ensures FileBound(run[..i + 1]) == FileBound(run[..i]) +
      (if run[i].op.PutTTL? || run[i].op.UpdateOrPutTTL? then |Enc(Rec2(false, 0, 0, run[i].op.key, run[i].op.val))| else 0)
  {
    assert run[..i + 1][..i] == run[..i] && run[..i + 1][i] == run[i];
  }

  lemma StartsEmpty(log: seq<Slot>)
    requires log == []
    ensures Entries(log) == map[] && SlotPos(log, |log|) == 2
  {
  }

  /** Every run from an empty file, whatever the hash: all answers are those of the map. */
  method Run(run: seq<Timed>, hash: bytes -> int32, memSize: nat) returns (answers: seq<Answer>)
    requires memSize >= KEY_LENGTH && FileBound(run) <= LONG5_MAX
    requires forall i :: 0 <= i < |run| ==> Legal(run[i].op)
    ensures answers == Answers(run)
  {
    hide Entries, Expiry, Enc, IndexKeyFile2.Valid, IndexKeyFile2.TableSaved, RealKeyFile2.Log, RealKeyFile2.Length,
      StateAfter, Answers, FileBound, NextState, AnswerOf, SlotPos;
    var hfile := new OsFile<()>();
    var kfile := new OsFile<Slot>();
    var idx := new IndexKeyFile2(hfile, kfile, memSize, hash);
    StartsEmpty(idx.Log());
    NoRun();
    answers := [];
    for i := 0 to |run|
      invariant idx.Valid() && idx.TableSaved() && idx.Map() == StateAfter(run[..i]) && answers == Answers(run[..i])
      invariant idx.keyFile.Length() <= FileBound(run[..i])
      invariant fresh(idx) && fresh(idx.hashBlock) && fresh(idx.hashBlock.buf) && fresh(idx.hashBlock.file)
      invariant fresh(idx.keyFile) && fresh(idx.keyFile.raf)
    {
      RunNext(run, i);
      BoundGrows(run, i);
      var a;
      a, idx := Step(idx, run[i]);
      answers := answers + [a];
    }
    assert run[..|run|] == run;
  }

  // ----- the clock -----------------------------------------------------------------------

  predicate Rebinds(op: Op, key: bytes) {
    (op.PutTTL? || op.UpdateOrPutTTL?) && op.key == key
  }

  /** The clock of step i, or of a question asked after the run. */
  function ClockAt(run: seq<Timed>, i: nat, now: int): int {
    if i < |run| then run[i].now else now
  }

  /** With a clock that never goes back, a key that is gone stays gone until it is put again:
      nothing else revives an expired or deleted key. */
  lemma {:induction false} GoneStaysGone(run: seq<Timed>, i: nat, key: bytes, now: int)
    requires i <= |run|
    requires forall j, k :: 0 <= j <= k <= |run| ==> ClockAt(run, j, now) <= ClockAt(run, k, now)
    requires forall j :: i <= j < |run| ==> !Rebinds(run[j].op, key)
    requires LiveValue(StateAfter(run[..i]), key, ClockAt(run, i, now)) == None
    ensures LiveValue(StateAfter(run), key, now) == None
    decreases |run| - i
  {
    if i < |run| {
      assert run[..i + 1][..i] == run[..i] && run[..i + 1][i] == run[i];
      assert ClockAt(run, i, now) <= ClockAt(run, i + 1, now);
      GoneStaysGone(run, i + 1, key, now);
    } else {
      assert run[..i] == run;
    }
  }

  // ----- what single operations mean for the answers -------------------------------------

  /** What a run answers to one more operation. */
  function Asked(run: seq<Timed>, op: Op, now: int): Answer {
    var more := run + [Timed(op, now)];
    Answers(more)[|run|]
  }

  lemma AskedIs(run: seq<Timed>, op: Op, now: int)
    ensures Asked(run, op, now) == AnswerOf(StateAfter(run), Timed(op, now))
    ensures StateAfter(run + [Timed(op, now)]) == NextState(StateAfter(run), Timed(op, now))
  {
    assert (run + [Timed(op, now)])[..|run|] == run;
  }

  /** The end of a time-to-live as the five-byte format keeps it. */
  lemma ExpiryIs(now: int, ttl: int)
    ensures ttl < 0 ==> Expiry(now, ttl) == 0x7f_ffff_ffff
    ensures ttl >= 0 ==> Expiry(now, ttl) == (now + ttl + 0x80_0000_0000) % 0x100_0000_0000 - 0x80_0000_0000
    ensures ttl >= 0 && -0x80_0000_0000 <= now + ttl <= 0x7f_ffff_ffff ==> Expiry(now, ttl) == now + ttl
  {
    hide Int5, PutInt5;
    Int5Wraps(now + ttl);
    Int5RoundTrip(now + ttl);
  }

  /** After a put or an update with a time-to-live, a lookup gives the value up to the last second of it;
      a negative one never ends before the largest time that the format holds. */
  lemma PutLives(run: seq<Timed>, op: Op, key: bytes, val: bytes, ttl: int, now: int, t: int)
    requires op == PutTTL(key, val, ttl) || op == UpdateOrPutTTL(key, val, ttl)
    ensures ttl < 0 ==> Asked(run + [Timed(op, now)], Get(key), t) == Value(if t <= 0x7f_ffff_ffff then Some(val) else None)
    ensures ttl >= 0 && -0x80_0000_0000 <= now + ttl <= 0x7f_ffff_ffff ==>
      Asked(run + [Timed(op, now)], Get(key), t) == Value(if t <= now + ttl then Some(val) else None)
    ensures ttl >= 0 ==>
      Asked(run + [Timed(op, now)], Get(key), t) ==
        Value(if t <= (now + ttl + 0x80_0000_0000) % 0x100_0000_0000 - 0x80_0000_0000 then Some(val) else None)
  {
    hide StateAfter, Answers, Asked, Expiry;
    AskedIs(run, op, now);
    AskedIs(run + [Timed(op, now)], Get(key), t);
    ExpiryIs(now, ttl);
  }

  /** Setting or refreshing the time-to-live of a live key moves its end, and of no other. */
  lemma RefreshLives(run: seq<Timed>, op: Op, key: bytes, val: bytes, ttl: int, now: int, t: int)
    requires op == SetTTL(key, ttl) || op == GetAndRefreshTTL(key, ttl)
    ensures Asked(run, Get(key), now) == Value(None) ==>
      Asked(run + [Timed(op, now)], Get(key), t) == Asked(run, Get(key), t)
    ensures Asked(run, Get(key), now) == Value(Some(val)) && ttl < 0 ==>
      Asked(run + [Timed(op, now)], Get(key), t) == Value(if t <= 0x7f_ffff_ffff then Some(val) else None)
    ensures Asked(run, Get(key), now) == Value(Some(val)) && ttl >= 0 && -0x80_0000_0000 <= now + ttl <= 0x7f_ffff_ffff ==>
      Asked(run + [Timed(op, now)], Get(key), t) == Value(if t <= now + ttl then Some(val) else None)
  {
    hide StateAfter, Answers, Asked, Expiry;
    AskedIs(run, op, now);
    AskedIs(run, Get(key), now);
    AskedIs(run, Get(key), t);
    AskedIs(run + [Timed(op, now)], Get(key), t);
    ExpiryIs(now, ttl);
  }

  predicate About(op: Op, key: bytes) {
    match op
    case PutTTL(k, _, _) => k == key
    case UpdateOrPutTTL(k, _, _) => k == key
    case SetTTL(k, _) => k == key
    case Delete(k) => k == key
    case GetAndRefreshTTL(k, _) => k == key
    case _ => false
  }

  /** An operation that is not about a key leaves the answers about it as they are; a deleted key is gone. */
  lemma OthersStay(run: seq<Timed>, op: Op, now: int, key: bytes, t: int)
    ensures !About(op, key) ==> Asked(run + [Timed(op, now)], Get(key), t) == Asked(run, Get(key), t)
    ensures op == Delete(key) ==> Asked(run + [Timed(op, now)], Get(key), t) == Value(None)
  {
    hide StateAfter, Answers, Asked, Expiry;
    AskedIs(run, op, now);
    AskedIs(run, Get(key), t);
    AskedIs(run + [Timed(op, now)], Get(key), t);
  }

  /** The other answers, in terms of those of Get. */
  lemma AnswersAgree(run: seq<Timed>, key: bytes, ttl: int, now: int)
    ensures Asked([], Get(key), now) == Value(None)
    ensures Asked(run, HasKey(key), now) == Flag(Asked(run, Get(key), now) != Value(None))
    ensures Asked(run, SetTTL(key, ttl), now) == Flag(Asked(run, Get(key), now) != Value(None))
    ensures Asked(run, GetAndRefreshTTL(key, ttl), now) == Asked(run, Get(key), now)
    ensures Asked(run, Delete(key), now) == Count(if exists t :: Asked(run, Get(key), t) != Value(None) then 1 else 0)
  {
    NoRun();
    hide StateAfter, Answers, Asked;
    AskedIs([], Get(key), now);
    AskedIs(run, Get(key), now);
    AskedIs(run, HasKey(key), now);
    AskedIs(run, SetTTL(key, ttl), now);
    AskedIs(run, GetAndRefreshTTL(key, ttl), now);
    AskedIs(run, Delete(key), now);
    forall t: int
      ensures Asked(run, Get(key), t) == AnswerOf(StateAfter(run), Timed(Get(key), t))
    {
      AskedIs(run, Get(key), t);
    }
    if key in StateAfter(run) {
      assert Asked(run, Get(key), StateAfter(run)[key].expire) != Value(None);
    }
  }
}

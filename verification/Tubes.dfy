/** The bookkeeping of one tube: serial-numbered queues with their counters. */
module Tubes {
  import opened Base

  type JobId = n: u64 | n > 0 witness 1

  /** Moments are only ever compared and stored. */
  type Instant = nat

  // ---------- one serial-numbered queue, as a value ----------

  /** Entries by position, the next position, and the published counter. */
  datatype Queue = Queue(entries: map<u64, JobId>, sn: u64, count: u64)

  const EMPTY: Queue := Queue(map[], 0, 0)

  /** Appending; nothing when it panics, on an overflow or an occupied position. */
  function Put(q: Queue, id: JobId): Option<Queue> {
    if q.sn + 1 >= U64_LIMIT || q.sn in q.entries || q.count + 1 >= U64_LIMIT then None
    else Some(Queue(q.entries[q.sn := id], q.sn + 1, q.count + 1))
  }

  /** Removing; nothing when it panics, on a free position or an underflow. */
  function Take(q: Queue, pos: u64): Option<Queue> {
    if pos !in q.entries || q.count == 0 then None
    else Some(Queue(q.entries - {pos}, q.sn, q.count - 1))
  }

  /** Positions are below the serial number, and the counter counts entries. */
  ghost predicate Sound(q: Queue) {
    (forall pos :: pos in q.entries ==> pos < q.sn) && q.count == |q.entries|
  }

  lemma {:induction false} FewerThanBound(s: set<u64>, n: nat)
    requires forall x :: x in s ==> x < n
    ensures |s| <= n
  {
    if n == 0 {
      assert s == {};
    } else if s != {} && exists x :: x in s && x == n - 1 {
      var x: u64 := n - 1;
      FewerThanBound(s - {x}, n - 1);
    } else {
      FewerThanBound(s, n - 1);
    }
  }

  /** On a sound queue the insertion assert never fires and the counter never
      overflows: appending panics exactly when serial numbers run out. */
  lemma PutSucceeds(q: Queue, id: JobId)
    requires Sound(q)
    ensures Put(q, id).Some? <==> q.sn + 1 < U64_LIMIT
    ensures Put(q, id).Some? ==> Sound(Put(q, id).value)
  {
    FewerThanBound(q.entries.Keys, q.sn);
    assert |q.entries| == |q.entries.Keys|;
  }

  /** On a sound queue the counter never underflows: removing panics exactly
      when nothing is at the position. */
  lemma TakeSucceeds(q: Queue, pos: u64)
    requires Sound(q)
    ensures Take(q, pos).Some? <==> pos in q.entries
    ensures Take(q, pos).Some? ==> Sound(Take(q, pos).value)
  {
    if pos in q.entries {
      RemovalSize(q.entries, pos);
    }
  }

  // ---------- the order of a queue ----------

  /** The jobs at positions below `n`, traversed in order of position. */
  function InOrder(entries: map<u64, JobId>, n: nat): seq<JobId>
    requires n <= U64_LIMIT
  {
    if n == 0 then []
    else InOrder(entries, n - 1) + if n - 1 in entries then [entries[n - 1]] else []
  }

  /** A queue from front to back. */
  function Contents(q: Queue): seq<JobId> {
    InOrder(q.entries, q.sn)
  }

  lemma {:induction false} InOrderDepends(m1: map<u64, JobId>, m2: map<u64, JobId>, n: nat)
    requires n <= U64_LIMIT
    requires forall pos: u64 :: pos < n ==> (pos in m1 <==> pos in m2) && (pos in m1 ==> m1[pos] == m2[pos])
    ensures InOrder(m1, n) == InOrder(m2, n)
  {
    if n > 0 {
      InOrderDepends(m1, m2, n - 1);
    }
  }

  /** Appending puts the job at the very back. */
  lemma PutAppends(q: Queue, id: JobId)
    requires Sound(q) && Put(q, id).Some?
    ensures Contents(Put(q, id).value) == Contents(q) + [id]
  {
    InOrderDepends(q.entries, Put(q, id).value.entries, q.sn);
  }

  /** Nothing stops the same job from being appended twice: only positions are
      checked, and they are always new. */
  lemma SameJobTwice(q: Queue, id: JobId)
    requires Sound(q) && q.sn + 2 < U64_LIMIT
    ensures Put(q, id).Some? && Put(Put(q, id).value, id).Some?
    ensures Contents(Put(Put(q, id).value, id).value) == Contents(q) + [id, id]
  {
    PutSucceeds(q, id);
    var once := Put(q, id).value;
    PutSucceeds(once, id);
    PutAppends(q, id);
    PutAppends(once, id);
    assert Contents(q) + [id] + [id] == Contents(q) + [id, id];
  }

  lemma {:induction false} InOrderDrops(entries: map<u64, JobId>, pos: u64, n: nat)
    requires pos in entries && pos < n <= U64_LIMIT
    ensures |InOrder(entries, pos)| < |InOrder(entries, n)|
    ensures InOrder(entries, n)[|InOrder(entries, pos)|] == entries[pos]
    ensures InOrder(entries - {pos}, n)
         == InOrder(entries, n)[..|InOrder(entries, pos)|] + InOrder(entries, n)[|InOrder(entries, pos)| + 1..]
  {
    var k := |InOrder(entries, pos)|;
    if pos == n - 1 {
      InOrderDepends(entries, entries - {pos}, n - 1);
      assert InOrder(entries, n) == InOrder(entries, n - 1) + [entries[pos]];
      assert InOrder(entries, n)[k + 1..] == [];
    } else {
      InOrderDrops(entries, pos, n - 1);
      var last := if n - 1 in entries then [entries[n - 1]] else [];
      var before := InOrder(entries, n - 1);
      assert InOrder(entries, n) == before + last;
      assert (before + last)[..k] == before[..k];
      assert (before + last)[k + 1..] == before[k + 1..] + last;
    }
  }

  /** Removing a position deletes exactly the element there, which stands
      behind as many others as there are jobs at earlier positions. */
  lemma TakeDeletesOne(q: Queue, pos: u64)
    requires Sound(q) && pos in q.entries && Take(q, pos).Some?
    ensures var k := |InOrder(q.entries, pos)|;
            && k < |Contents(q)| && Contents(q)[k] == q.entries[pos]
            && Contents(Take(q, pos).value) == Contents(q)[..k] + Contents(q)[k + 1..]
  {
    InOrderDrops(q.entries, pos, q.sn);
  }

  lemma RemovalSize(entries: map<u64, JobId>, pos: u64)
    requires pos in entries
    ensures |entries - {pos}| == |entries| - 1
  {
    var rest := entries - {pos};
    assert pos in entries.Keys;
    assert rest.Keys == entries.Keys - {pos};
    assert |entries| == |entries.Keys| && |rest| == |rest.Keys|;
  }

  lemma {:induction false} InOrderLength(entries: map<u64, JobId>, n: nat)
    requires n <= U64_LIMIT && forall pos :: pos in entries ==> pos < n
    ensures |InOrder(entries, n)| == |entries|
  {
    if n == 0 {
      assert entries.Keys == {};
      assert entries == map[];
    } else if n - 1 in entries {
      var pos: u64 := n - 1;
      RemovalSize(entries, pos);
      InOrderLength(entries - {pos}, n - 1);
      InOrderDepends(entries, entries - {pos}, n - 1);
    } else {
      InOrderLength(entries, n - 1);
    }
  }

  // ---------- runs of one queue ----------

  datatype QueueOp = QPut(id: JobId) | QTake(pos: u64)

  function QueueStep(q: Queue, op: QueueOp): Option<Queue> {
    match op
    case QPut(id) => Put(q, id)
    case QTake(pos) => Take(q, pos)
  }

  function QueueRun(ops: seq<QueueOp>): Option<Queue> {
    if ops == [] then Some(EMPTY)
    else
      var q := QueueRun(ops[..|ops| - 1]);
      if q.None? then None else QueueStep(q.value, ops[|ops| - 1])
  }

  /** Every job ever appended, in order. */
  function Puts(ops: seq<QueueOp>): seq<JobId> {
    if ops == [] then []
    else Puts(ops[..|ops| - 1]) + if ops[|ops| - 1].QPut? then [ops[|ops| - 1].id] else []
  }

  function TakenPositions(ops: seq<QueueOp>): set<u64> {
    set i | 0 <= i < |ops| && ops[i].QTake? :: ops[i].pos
  }

  /** The jobs not taken, in the order they were put: the n-th job put has
      position n. */
  function Survivors(puts: seq<JobId>, taken: set<u64>): seq<JobId>
    requires |puts| <= U64_LIMIT
  {
    if puts == [] then []
    else
      var n: u64 := |puts| - 1;
      Survivors(puts[..n], taken) + if n in taken then [] else [puts[n]]
  }

  /** What a caller has to respect: positions of jobs put and not yet taken,
      and fewer puts than there are serial numbers. */
  predicate LegalNext(before: seq<QueueOp>, op: QueueOp) {
    match op
    case QPut(_) => |Puts(before)| + 1 < U64_LIMIT
    case QTake(pos) => pos < |Puts(before)| && pos !in TakenPositions(before)
  }

  predicate Legal(ops: seq<QueueOp>) {
    ops == [] || (Legal(ops[..|ops| - 1]) && LegalNext(ops[..|ops| - 1], ops[|ops| - 1]))
  }

  /** The queue holds precisely the jobs put and not taken, each at the position
      it was given. */
  ghost predicate Holds(q: Queue, puts: seq<JobId>, taken: set<u64>) {
    && Sound(q)
    && q.sn == |puts|
    && (forall pos: u64 :: pos in q.entries <==> pos < |puts| && pos !in taken)
    && (forall pos: u64 :: pos in q.entries ==> q.entries[pos] == puts[pos])
  }

  ghost predicate Records(q: Queue, ops: seq<QueueOp>) {
    Holds(q, Puts(ops), TakenPositions(ops))
  }

  lemma PutHolds(q: Queue, puts: seq<JobId>, taken: set<u64>, id: JobId)
    requires Holds(q, puts, taken) && forall pos :: pos in taken ==> pos < |puts|
    ensures Put(q, id).Some? <==> |puts| + 1 < U64_LIMIT
    ensures Put(q, id).Some? ==> Holds(Put(q, id).value, puts + [id], taken)
  {
    PutSucceeds(q, id);
  }

  lemma TakeHolds(q: Queue, puts: seq<JobId>, taken: set<u64>, pos: u64)
    requires Holds(q, puts, taken)
    ensures Take(q, pos).Some? <==> pos < |puts| && pos !in taken
    ensures Take(q, pos).Some? ==> Holds(Take(q, pos).value, puts, taken + {pos})
  {
    TakeSucceeds(q, pos);
  }

  lemma TakenSnoc(ops: seq<QueueOp>)
    requires ops != []
    ensures var before, op := ops[..|ops| - 1], ops[|ops| - 1];
            TakenPositions(ops) == TakenPositions(before) + if op.QTake? then {op.pos} else {}
  {
    var before, op := ops[..|ops| - 1], ops[|ops| - 1];
    forall pos | pos in TakenPositions(ops) ensures pos in TakenPositions(before) || (op.QTake? && op.pos == pos) {
      var i :| 0 <= i < |ops| && ops[i].QTake? && ops[i].pos == pos;
      if i < |before| {
        assert before[i] == ops[i];
      }
    }
    forall pos | pos in TakenPositions(before) ensures pos in TakenPositions(ops) {
      var i :| 0 <= i < |before| && before[i].QTake? && before[i].pos == pos;
      assert ops[i] == before[i];
    }
  }

  lemma Snoc(before: seq<QueueOp>, op: QueueOp)
    ensures Puts(before + [op]) == Puts(before) + if op.QPut? then [op.id] else []
    ensures TakenPositions(before + [op]) == TakenPositions(before) + if op.QTake? then {op.pos} else {}
    ensures Legal(before + [op]) <==> Legal(before) && LegalNext(before, op)
  {
    assert (before + [op])[..|before|] == before;
    TakenSnoc(before + [op]);
  }

  lemma LegalStep(q: Queue, before: seq<QueueOp>, op: QueueOp)
    requires Legal(before) && Records(q, before)
    ensures QueueStep(q, op).Some? <==> Legal(before + [op])
    ensures QueueStep(q, op).Some? ==> Records(QueueStep(q, op).value, before + [op])
  {
    Snoc(before, op);
    TakenBelowPuts(before);
    hide Holds, Legal, Put, Take, Puts, TakenPositions;
    match op
    case QPut(id) =>
      assert TakenPositions(before) + {} == TakenPositions(before);
      PutHolds(q, Puts(before), TakenPositions(before), id);
    case QTake(pos) =>
      assert Puts(before) + [] == Puts(before);
      TakeHolds(q, Puts(before), TakenPositions(before), pos);
  }

  /** A run goes through without a panic exactly when it is legal, and then the
      queue records it. */
  lemma {:induction false} LegalRuns(ops: seq<QueueOp>)
    ensures QueueRun(ops).Some? <==> Legal(ops)
    ensures Legal(ops) ==> Records(QueueRun(ops).value, ops)
    decreases |ops|
  {
    assert ops == [] ==> Records(EMPTY, ops);
    hide Records, QueueStep, LegalNext, Puts, TakenPositions;
    if ops != [] {
      var before, op := ops[..|ops| - 1], ops[|ops| - 1];
      LegalRuns(before);
      if Legal(before) {
        LegalStep(QueueRun(before).value, before, op);
        assert before + [op] == ops;
      }
    }
  }

  lemma {:induction false} TakenBelowPuts(ops: seq<QueueOp>)
    requires Legal(ops)
    ensures forall pos :: pos in TakenPositions(ops) ==> pos < |Puts(ops)|
    decreases |ops|
  {
    if ops != [] {
      TakenBelowPuts(ops[..|ops| - 1]);
      TakenSnoc(ops);
    }
  }

  lemma {:induction false} InOrderSurvives(entries: map<u64, JobId>, puts: seq<JobId>, taken: set<u64>)
    requires |puts| <= U64_LIMIT
    requires forall pos: u64 :: pos < |puts| ==> (pos in entries <==> pos !in taken)
    requires forall pos: u64 :: pos < |puts| && pos in entries ==> entries[pos] == puts[pos]
    ensures InOrder(entries, |puts|) == Survivors(puts, taken)
    decreases |puts|
  {
    if puts != [] {
      var n: u64 := |puts| - 1;
      InOrderSurvives(entries, puts[..n], taken);
    }
  }

  /** First in, first out: after any legal run, the queue in order of position
      is the jobs put, in that order, without those taken; the counter is
      their number. */
  lemma QueueIsFifo(ops: seq<QueueOp>)
    requires Legal(ops)
    ensures QueueRun(ops).Some? && |Puts(ops)| <= U64_LIMIT
    ensures Contents(QueueRun(ops).value) == Survivors(Puts(ops), TakenPositions(ops))
    ensures QueueRun(ops).value.count == |Survivors(Puts(ops), TakenPositions(ops))|
  {
    LegalRuns(ops);
    var q := QueueRun(ops).value;
    InOrderSurvives(q.entries, Puts(ops), TakenPositions(ops));
    InOrderLength(q.entries, q.sn);
  }

  // ---------- the tube ----------

  datatype Tube = Tube(buried: Queue, ready: Queue, delayed: set<(Instant, JobId)>, delayedCount: u64)

  ghost predicate SoundTube(t: Tube) {
    Sound(t.buried) && Sound(t.ready) && t.delayedCount == |t.delayed|
  }

  const EMPTY_TUBE: Tube := Tube(EMPTY, EMPTY, {}, 0)

  datatype TubeOp =
    | OnReady(op: QueueOp)
    | OnBuried(op: QueueOp)
    | PutLater(id: JobId, until: Instant)

  function TubeStep(t: Tube, op: TubeOp): Option<Tube> {
    match op
    case OnReady(qop) =>
      var q := QueueStep(t.ready, qop);
      if q.None? then None else Some(t.(ready := q.value))
    case OnBuried(qop) =>
      var q := QueueStep(t.buried, qop);
      if q.None? then None else Some(t.(buried := q.value))
    case PutLater(id, until) =>
      if (until, id) in t.delayed || t.delayedCount + 1 >= U64_LIMIT then None
      else Some(t.(delayed := t.delayed + {(until, id)}, delayedCount := t.delayedCount + 1))
  }

  function TubeRun(ops: seq<TubeOp>): Option<Tube> {
    if ops == [] then Some(EMPTY_TUBE)
    else
      var t := TubeRun(ops[..|ops| - 1]);
      if t.None? then None else TubeStep(t.value, ops[|ops| - 1])
  }

  function ReadyOps(ops: seq<TubeOp>): seq<QueueOp> {
    if ops == [] then []
    else ReadyOps(ops[..|ops| - 1]) + if ops[|ops| - 1].OnReady? then [ops[|ops| - 1].op] else []
  }

  function BuriedOps(ops: seq<TubeOp>): seq<QueueOp> {
    if ops == [] then []
    else BuriedOps(ops[..|ops| - 1]) + if ops[|ops| - 1].OnBuried? then [ops[|ops| - 1].op] else []
  }

  function Delays(ops: seq<TubeOp>): seq<(Instant, JobId)> {
    if ops == [] then []
    else
      var op := ops[|ops| - 1];
      Delays(ops[..|ops| - 1]) + if op.PutLater? then [(op.until, op.id)] else []
  }

  /** No job is delayed to the same moment twice. */
  predicate DelaysLegal(delays: seq<(Instant, JobId)>) {
    delays == [] ||
    var before := delays[..|delays| - 1];
    DelaysLegal(before) && delays[|delays| - 1] !in before && |delays| < U64_LIMIT
  }

  /** A run goes through exactly when its part on each collection is legal; the
      queues are then those of the separate runs, and every counter is the size
      of its collection. */
  ghost predicate Independent(ops: seq<TubeOp>) {
    && (TubeRun(ops).Some? <==>
          Legal(ReadyOps(ops)) && Legal(BuriedOps(ops)) && DelaysLegal(Delays(ops)))
    && (TubeRun(ops).Some? ==>
          var t := TubeRun(ops).value;
          && QueueRun(ReadyOps(ops)) == Some(t.ready)
          && QueueRun(BuriedOps(ops)) == Some(t.buried)
          && t.delayed == (set d | d in Delays(ops))
          && SoundTube(t) && t.delayedCount == |Delays(ops)|)
  }

  lemma QueueRunSnoc(ops: seq<QueueOp>, op: QueueOp)
    ensures QueueRun(ops).Some? <==> Legal(ops)
    ensures QueueRun(ops + [op]).Some? <==> Legal(ops + [op])
    ensures QueueRun(ops + [op]) ==
            if QueueRun(ops).None? then None else QueueStep(QueueRun(ops).value, op)
    ensures QueueRun(ops + [op]).Some? ==> Sound(QueueRun(ops + [op]).value)
  {
    LegalRuns(ops);
    LegalRuns(ops + [op]);
    assert (ops + [op])[..|ops|] == ops;
  }

  lemma TubeSnoc(ops: seq<TubeOp>, op: TubeOp)
    ensures var all := ops + [op];
            && TubeRun(all) == (if TubeRun(ops).None? then None else TubeStep(TubeRun(ops).value, op))
            && ReadyOps(all) == (if op.OnReady? then ReadyOps(ops) + [op.op] else ReadyOps(ops))
            && BuriedOps(all) == (if op.OnBuried? then BuriedOps(ops) + [op.op] else BuriedOps(ops))
            && Delays(all) == (if op.PutLater? then Delays(ops) + [(op.until, op.id)] else Delays(ops))
  {
    assert (ops + [op])[..|ops|] == ops;
    assert ReadyOps(ops) + [] == ReadyOps(ops);
    assert BuriedOps(ops) + [] == BuriedOps(ops);
    assert Delays(ops) + [] == Delays(ops);
  }

  lemma QueueOpKeepsIndependence(ops: seq<TubeOp>, op: TubeOp)
    requires Independent(ops) && !op.PutLater?
    ensures Independent(ops + [op])
  {
    hide Legal, QueueStep, QueueRun, Sound, TubeRun, ReadyOps, BuriedOps, Delays, DelaysLegal;
    TubeSnoc(ops, op);
    QueueRunSnoc(if op.OnReady? then ReadyOps(ops) else BuriedOps(ops), op.op);
  }

  lemma DelayKeepsIndependence(ops: seq<TubeOp>, op: TubeOp)
    requires Independent(ops) && op.PutLater?
    ensures Independent(ops + [op])
  {
    hide Legal, QueueStep, QueueRun, Sound, TubeRun, ReadyOps, BuriedOps, Delays;
    TubeSnoc(ops, op);
    var d := (op.until, op.id);
    assert (Delays(ops) + [d])[..|Delays(ops)|] == Delays(ops);
    assert (set x | x in Delays(ops) + [d]) == (set x | x in Delays(ops)) + {d};
  }

  /** The three collections of a tube do not interfere with one another. */
  lemma {:induction false} TubePartsAreIndependent(ops: seq<TubeOp>)
    ensures Independent(ops)
    decreases |ops|
  {
    if ops != [] {
      hide Independent;
      var before, op := ops[..|ops| - 1], ops[|ops| - 1];
      TubePartsAreIndependent(before);
      assert ops == before + [op];
      if op.PutLater? {
        DelayKeepsIndependence(before, op);
      } else {
        QueueOpKeepsIndependence(before, op);
      }
    }
  }

  class TubeState {
    var buried: map<u64, JobId>
    var buriedSn: u64
    var ready: map<u64, JobId>
    var readySn: u64
    var delayed: set<(Instant, JobId)>
    var currentJobsReady: u64
    var currentJobsDelayed: u64
    var currentJobsBuried: u64

    ghost function View(): Tube
      reads this
    {
      Tube(Queue(buried, buriedSn, currentJobsBuried), Queue(ready, readySn, currentJobsReady),
           delayed, currentJobsDelayed)
    }

    ghost predicate Valid()
      reads this
    {
      && SoundTube(View())
      && currentJobsReady == |ready| && currentJobsBuried == |buried| && currentJobsDelayed == |delayed|
      && (forall pos :: pos in ready ==> pos < readySn)
      && (forall pos :: pos in buried ==> pos < buriedSn)
    }

    constructor ()
      ensures Valid() && View() == EMPTY_TUBE
      ensures ready == map[] && buried == map[] && delayed == {} && readySn == buriedSn == 0
    {
      buried, buriedSn, currentJobsBuried := map[], 0, 0;
      ready, readySn, currentJobsReady := map[], 0, 0;
      delayed, currentJobsDelayed := {}, 0;
    }

    /** Appends a ready job; the serial number must not overflow. */
    method PutReady(jobId: JobId) returns (rp: u64)
      requires Valid() && readySn + 1 < U64_LIMIT
      modifies this
      ensures Valid() && rp == old(readySn) && rp !in old(ready)
      ensures ready == old(ready)[rp := jobId] && readySn == old(readySn) + 1
      ensures currentJobsReady == old(currentJobsReady) + 1
      ensures unchanged(this`buried, this`buriedSn, this`currentJobsBuried, this`delayed, this`currentJobsDelayed)
      ensures TubeStep(old(View()), OnReady(QPut(jobId))) == Some(View())
    {
      PutSucceeds(View().ready, jobId);
      rp := readySn;
      readySn := readySn + 1;
      assert rp !in ready;
      ready := ready[rp := jobId];
      currentJobsReady := currentJobsReady + 1;
    }

    /** Appends a buried job; the serial number must not overflow. */
    method PutBuried(jobId: JobId) returns (bp: u64)
      requires Valid() && buriedSn + 1 < U64_LIMIT
      modifies this
      ensures Valid() && bp == old(buriedSn) && bp !in old(buried)
      ensures buried == old(buried)[bp := jobId] && buriedSn == old(buriedSn) + 1
      ensures currentJobsBuried == old(currentJobsBuried) + 1
      ensures unchanged(this`ready, this`readySn, this`currentJobsReady, this`delayed, this`currentJobsDelayed)
      ensures TubeStep(old(View()), OnBuried(QPut(jobId))) == Some(View())
    {
      PutSucceeds(View().buried, jobId);
      bp := buriedSn;
      buriedSn := buriedSn + 1;
      assert bp !in buried;
      buried := buried[bp := jobId];
      currentJobsBuried := currentJobsBuried + 1;
    }

    /** Adds a delayed job; panics when it is there already. */
    method PutDelayed(jobId: JobId, until: Instant)
      requires Valid() && (until, jobId) !in delayed && currentJobsDelayed + 1 < U64_LIMIT
      modifies this
      ensures Valid() && delayed == old(delayed) + {(until, jobId)}
      ensures currentJobsDelayed == old(currentJobsDelayed) + 1
      ensures unchanged(this`ready, this`readySn, this`currentJobsReady)
      ensures unchanged(this`buried, this`buriedSn, this`currentJobsBuried)
      ensures TubeStep(old(View()), PutLater(jobId, until)) == Some(View())
    {
      delayed := delayed + {(until, jobId)};
      currentJobsDelayed := currentJobsDelayed + 1;
    }

    /** Removes the buried job at a position; panics when there is none. */
    method TakeBuried(pos: u64)
      requires Valid() && pos in buried
      modifies this
      ensures Valid() && buried == old(buried) - {pos}
      ensures currentJobsBuried == old(currentJobsBuried) - 1
      ensures unchanged(this`ready, this`readySn, this`currentJobsReady, this`delayed, this`currentJobsDelayed)
      ensures buriedSn == old(buriedSn)
      ensures TubeStep(old(View()), OnBuried(QTake(pos))) == Some(View())
    {
      TakeSucceeds(View().buried, pos);
      buried := buried - {pos};
      currentJobsBuried := currentJobsBuried - 1;
    }

    /** Removes the ready job at a position; panics when there is none. */
    method TakeReady(pos: u64)
      requires Valid() && pos in ready
      modifies this
      ensures Valid() && ready == old(ready) - {pos}
      ensures currentJobsReady == old(currentJobsReady) - 1
      ensures unchanged(this`buried, this`buriedSn, this`currentJobsBuried, this`delayed, this`currentJobsDelayed)
      ensures readySn == old(readySn)
      ensures TubeStep(old(View()), OnReady(QTake(pos))) == Some(View())
    {
      TakeSucceeds(View().ready, pos);
      ready := ready - {pos};
      currentJobsReady := currentJobsReady - 1;
    }
  }
}

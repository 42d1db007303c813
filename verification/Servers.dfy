/** Jobs and the tubes that index them; reserving a job by its id. */
module Servers {
  import opened Base
  import opened Tubes

  datatype JobState =
    | Ready(pos: u64)
    | Delayed(until: Instant)
    | Reserved(deadline: Instant)
    | Buried(pos: u64)

  datatype Job = Job(pri: u32, data: seq<byte>, state: JobState, created: Instant, ttr: u32,
                     reserves: u64, timeouts: u64, releases: u64, buries: u64, kicks: u64)

  type QueueName = seq<byte>

  /** Every job with the name of its tube, and every tube. */
  datatype ServerView = ServerView(jobs: map<JobId, (QueueName, Job)>, queues: map<QueueName, Tube>)

  /** A call that returns normally, with the state it leaves. */
  datatype Reserving = Reserving(server: ServerView, job: Option<Job>)

  /** The server without the ready entry at a position of a tube. */
  function Dequeue(s: ServerView, name: QueueName, pos: u64): Option<ServerView> {
    if name !in s.queues then None
    else
      var q := Take(s.queues[name].ready, pos);
      if q.None? then None else Some(s.(queues := s.queues[name := s.queues[name].(ready := q.value)]))
  }

  /** Reserving by id; nothing when it panics, because the job's tube is
      missing or has nothing at the job's position. */
  function Reserve(s: ServerView, id: JobId): Option<Reserving> {
    if id !in s.jobs then Some(Reserving(s, None))
    else
      var (name, job) := s.jobs[id];
      if !job.state.Ready? then Some(Reserving(s, None))
      else
        var after := Dequeue(s, name, job.state.pos);
        if after.None? then None else Some(Reserving(after.value, Some(job)))
  }

  /** The tube's index entry that a job's state points to. */
  ghost predicate Indexed(s: ServerView, id: JobId)
    requires id in s.jobs
  {
    var (name, job) := s.jobs[id];
    && name in s.queues
    && var t := s.queues[name];
       match job.state
       case Ready(pos) => pos in t.ready.entries && t.ready.entries[pos] == id
       case Buried(pos) => pos in t.buried.entries && t.buried.entries[pos] == id
       case Delayed(until) => (until, id) in t.delayed
       case Reserved(_) => true
  }

  ghost predicate JobIs(s: ServerView, id: JobId, name: QueueName, state: JobState) {
    id in s.jobs && s.jobs[id].0 == name && s.jobs[id].1.state == state
  }

  /** Every entry of a tube's indexes is a job of that tube in that state. */
  ghost predicate Backed(s: ServerView, name: QueueName)
    requires name in s.queues
  {
    var t := s.queues[name];
    && (forall pos :: pos in t.ready.entries ==> JobIs(s, t.ready.entries[pos], name, Ready(pos)))
    && (forall pos :: pos in t.buried.entries ==> JobIs(s, t.buried.entries[pos], name, Buried(pos)))
    && (forall d :: d in t.delayed ==> JobIs(s, d.1, name, Delayed(d.0)))
  }

  /** A job whose state still says ready although its index entry is gone. */
  ghost predicate Stale(s: ServerView, id: JobId) {
    && id in s.jobs && s.jobs[id].1.state.Ready?
    && s.jobs[id].0 in s.queues
    && s.jobs[id].1.state.pos !in s.queues[s.jobs[id].0].ready.entries
  }

  ghost predicate TubesBacked(s: ServerView) {
    forall name :: name in s.queues ==> SoundTube(s.queues[name]) && Backed(s, name)
  }

  ghost predicate JobsIndexed(s: ServerView, but: set<JobId>) {
    forall id :: id in s.jobs && id !in but ==> Indexed(s, id)
  }

  ghost predicate AllStale(s: ServerView, ids: set<JobId>) {
    forall id :: id in ids ==> Stale(s, id)
  }

  /** Jobs and indexes agree, but for the stale jobs. */
  ghost predicate CoherentBut(s: ServerView, stale: set<JobId>) {
    TubesBacked(s) && JobsIndexed(s, stale) && AllStale(s, stale)
  }

  /** Of a coherent server, reserving panics exactly for a stale job. */
  lemma ReservePanicsWhenStale(s: ServerView, stale: set<JobId>, id: JobId)
    requires CoherentBut(s, stale)
    ensures Reserve(s, id).None? <==> id in stale
  {
    if id in stale {
      assert Stale(s, id);
    } else if id in s.jobs {
      assert Indexed(s, id);
      if s.jobs[id].1.state.Ready? {
        TakeSucceeds(s.queues[s.jobs[id].0].ready, s.jobs[id].1.state.pos);
      }
    }
  }

  /** Between two servers, exactly one ready entry of one tube has gone. */
  ghost predicate OnlyEntryGone(s: ServerView, s': ServerView, name: QueueName, pos: u64) {
    && s'.jobs == s.jobs && s'.queues.Keys == s.queues.Keys
    && (forall other :: other in s.queues && other != name ==> s'.queues[other] == s.queues[other])
    && name in s.queues
    && s'.queues[name] == s.queues[name].(ready := s'.queues[name].ready)
    && s'.queues[name].ready.entries == s.queues[name].ready.entries - {pos}
    && s'.queues[name].ready.sn == s.queues[name].ready.sn
  }

  ghost predicate HasEntry(s: ServerView, name: QueueName, pos: u64) {
    name in s.queues && SoundTube(s.queues[name]) && pos in s.queues[name].ready.entries
  }

  lemma DequeueChanges(s: ServerView, name: QueueName, pos: u64)
    requires HasEntry(s, name, pos)
    ensures Dequeue(s, name, pos).Some?
    ensures OnlyEntryGone(s, Dequeue(s, name, pos).value, name, pos)
    ensures SoundTube(Dequeue(s, name, pos).value.queues[name])
  {
    TakeSucceeds(s.queues[name].ready, pos);
  }

  lemma DequeueKeepsBacked(s: ServerView, name: QueueName, pos: u64, other: QueueName)
    requires HasEntry(s, name, pos)
    requires other in s.queues && Backed(s, other)
    ensures Dequeue(s, name, pos).Some? && other in Dequeue(s, name, pos).value.queues
    ensures Backed(Dequeue(s, name, pos).value, other)
    ensures SoundTube(s.queues[other]) ==> SoundTube(Dequeue(s, name, pos).value.queues[other])
  {
    DequeueChanges(s, name, pos);
    hide Dequeue, Sound;
    var s' := Dequeue(s, name, pos).value;
    assert forall id, n, state :: JobIs(s', id, n, state) == JobIs(s, id, n, state);
  }

  lemma DequeueKeepsIndexed(s: ServerView, name: QueueName, pos: u64, other: JobId)
    requires HasEntry(s, name, pos)
    requires other in s.jobs && Indexed(s, other) && s.queues[name].ready.entries[pos] != other
    ensures Dequeue(s, name, pos).Some? && other in Dequeue(s, name, pos).value.jobs
    ensures Indexed(Dequeue(s, name, pos).value, other)
  {
    DequeueChanges(s, name, pos);
    hide Dequeue, Sound;
  }

  lemma DequeueKeepsStale(s: ServerView, name: QueueName, pos: u64, other: JobId)
    requires HasEntry(s, name, pos)
    requires Stale(s, other) || JobIs(s, other, name, Ready(pos))
    ensures Dequeue(s, name, pos).Some? && Stale(Dequeue(s, name, pos).value, other)
  {
    DequeueChanges(s, name, pos);
    hide Dequeue, Sound;
  }

  lemma DequeueKeepsTubes(s: ServerView, name: QueueName, pos: u64)
    requires TubesBacked(s) && HasEntry(s, name, pos)
    ensures Dequeue(s, name, pos).Some? && TubesBacked(Dequeue(s, name, pos).value)
  {
    DequeueChanges(s, name, pos);
    var s' := Dequeue(s, name, pos).value;
    assert s'.queues.Keys == s.queues.Keys;
    hide Dequeue, SoundTube, Backed, OnlyEntryGone, HasEntry;
    forall other | other in s'.queues ensures SoundTube(s'.queues[other]) && Backed(s', other) {
      DequeueKeepsBacked(s, name, pos, other);
    }
  }

  lemma DequeueKeepsJobs(s: ServerView, name: QueueName, pos: u64, id: JobId, stale: set<JobId>)
    requires JobsIndexed(s, stale) && HasEntry(s, name, pos) && s.queues[name].ready.entries[pos] == id
    ensures Dequeue(s, name, pos).Some? && JobsIndexed(Dequeue(s, name, pos).value, stale + {id})
  {
    DequeueChanges(s, name, pos);
    var s' := Dequeue(s, name, pos).value;
    assert s'.jobs == s.jobs;
    hide Dequeue, SoundTube, Indexed, OnlyEntryGone;
    forall other | other in s'.jobs && other !in stale + {id} ensures Indexed(s', other) {
      DequeueKeepsIndexed(s, name, pos, other);
    }
  }

  lemma DequeueMakesStale(s: ServerView, name: QueueName, pos: u64, id: JobId, stale: set<JobId>)
    requires AllStale(s, stale) && HasEntry(s, name, pos) && JobIs(s, id, name, Ready(pos))
    ensures Dequeue(s, name, pos).Some? && AllStale(Dequeue(s, name, pos).value, stale + {id})
  {
    DequeueChanges(s, name, pos);
    hide Dequeue, Stale, OnlyEntryGone, HasEntry, JobIs;
    forall other | other in stale + {id} ensures Stale(Dequeue(s, name, pos).value, other) {
      DequeueKeepsStale(s, name, pos, other);
    }
  }

  /** Reserving a ready job returns it, removes exactly its entry from exactly
      its tube, and makes it, and no other job, stale. */
  lemma ReserveKeepsTheOthers(s: ServerView, stale: set<JobId>, id: JobId)
    requires CoherentBut(s, stale) && id !in stale
    requires id in s.jobs && s.jobs[id].1.state.Ready?
    ensures var (name, job) := s.jobs[id];
            var r := Reserve(s, id);
            && r.Some? && r.value.job == Some(job)
            && OnlyEntryGone(s, r.value.server, name, job.state.pos)
            && CoherentBut(r.value.server, stale + {id})
  {
    var name, pos := s.jobs[id].0, s.jobs[id].1.state.pos;
    assert Indexed(s, id);
    DequeueChanges(s, name, pos);
    DequeueKeepsTubes(s, name, pos);
    DequeueKeepsJobs(s, name, pos, id, stale);
    DequeueMakesStale(s, name, pos, id, stale);
    hide TubesBacked, JobsIndexed, AllStale, OnlyEntryGone, Dequeue;
  }

  /** Any other job is not reserved, and nothing changes. */
  lemma ReserveRefuses(s: ServerView, id: JobId)
    ensures id !in s.jobs || !s.jobs[id].1.state.Ready? <==> Reserve(s, id) == Some(Reserving(s, None))
  {
  }

  /** A server of one delayed job, which cannot be reserved by its id. */
  lemma DelayedJobIsRefused(until: Instant)
    ensures var job := Job(0, [], Delayed(until), 0, 1, 0, 0, 0, 0, 0);
            var tube := EMPTY_TUBE.(delayed := {(until, 1)}, delayedCount := 1);
            var s := ServerView(map[1 := ([], job)], map[[] := tube]);
            CoherentBut(s, {}) && Reserve(s, 1) == Some(Reserving(s, None))
  {
    var job := Job(0, [], Delayed(until), 0, 1, 0, 0, 0, 0, 0);
    var tube := EMPTY_TUBE.(delayed := {(until, 1)}, delayedCount := 1);
    var s := ServerView(map[1 := ([], job)], map[[] := tube]);
    assert Indexed(s, 1) && Backed(s, []);
    ReserveRefuses(s, 1);
  }

  /** Reserving each of a list of ids in turn. */
  function ReserveAll(s: ServerView, ids: seq<JobId>): Option<ServerView>
    decreases |ids|
  {
    if ids == [] then Some(s)
    else
      var r := Reserve(s, ids[0]);
      if r.None? then None else ReserveAll(r.value.server, ids[1..])
  }

  predicate IsReady(jobs: map<JobId, (QueueName, Job)>, id: JobId) {
    id in jobs && jobs[id].1.state.Ready?
  }

  /** No ready job is asked for a second time. */
  predicate NoRepeats(jobs: map<JobId, (QueueName, Job)>, ids: seq<JobId>) {
    ids == [] || ((IsReady(jobs, ids[0]) ==> ids[0] !in ids[1..]) && NoRepeats(jobs, ids[1..]))
  }

  function ReadyOnes(jobs: map<JobId, (QueueName, Job)>, ids: seq<JobId>): set<JobId> {
    if ids == [] then {}
    else (if IsReady(jobs, ids[0]) then {ids[0]} else {}) + ReadyOnes(jobs, ids[1..])
  }

  predicate Avoids(ids: seq<JobId>, stale: set<JobId>) {
    forall i :: 0 <= i < |ids| ==> ids[i] !in stale
  }

  lemma AvoidsCons(ids: seq<JobId>, stale: set<JobId>, added: set<JobId>)
    requires ids != [] && added <= {ids[0]}
    ensures ids[0] !in stale && Avoids(ids[1..], stale + added)
       <==> Avoids(ids, stale) && (added != {} ==> ids[0] !in ids[1..])
  {
    var tail := ids[1..];
    assert forall i :: 0 < i < |ids| ==> ids[i] == tail[i - 1];
    if Avoids(ids, stale) && (added != {} ==> ids[0] !in tail) {
      forall i | 0 <= i < |tail| ensures tail[i] !in stale + added {
        assert tail[i] == ids[i + 1];
      }
    }
    if ids[0] !in stale && Avoids(tail, stale + added) && added != {} && ids[0] in tail {
      assert ids[0] in added;
    }
  }

  lemma {:induction false} ReserveAllFrom(s: ServerView, stale: set<JobId>, ids: seq<JobId>)
    requires CoherentBut(s, stale)
    ensures ReserveAll(s, ids).Some? <==> NoRepeats(s.jobs, ids) && Avoids(ids, stale)
    ensures ReserveAll(s, ids).Some? ==>
            CoherentBut(ReserveAll(s, ids).value, stale + ReadyOnes(s.jobs, ids))
    decreases |ids|
  {
    hide CoherentBut, Reserve;
    if ids == [] {
      assert stale + ReadyOnes(s.jobs, ids) == stale;
    } else {
      var id, tail := ids[0], ids[1..];
      var added: set<JobId> := if IsReady(s.jobs, id) then {id} else {};
      assert id in stale ==> !Avoids(ids, stale);
      hide Avoids;
      AvoidsCons(ids, stale, added);
      ReservePanicsWhenStale(s, stale, id);
      if id !in stale {
        var s' := Reserve(s, id).value.server;
        if IsReady(s.jobs, id) {
          ReserveKeepsTheOthers(s, stale, id);
        } else {
          ReserveRefuses(s, id);
          assert stale + added == stale;
        }
        ReserveAllFrom(s', stale + added, tail);
        assert (stale + added) + ReadyOnes(s.jobs, tail) == stale + ReadyOnes(s.jobs, ids);
      }
    }
  }

  /** From a coherent server, a list of reservations goes through without a
      panic exactly when no ready job occurs in it twice: `reserve_by_id` leaves
      the job marked ready, so that it does not refuse the job a second time. */
  lemma ReservationsPanic(s: ServerView, ids: seq<JobId>)
    requires CoherentBut(s, {})
    ensures ReserveAll(s, ids).Some? <==> NoRepeats(s.jobs, ids)
    ensures ReserveAll(s, ids).Some? ==> CoherentBut(ReserveAll(s, ids).value, ReadyOnes(s.jobs, ids))
  {
    hide CoherentBut;
    ReserveAllFrom(s, {}, ids);
    assert {} + ReadyOnes(s.jobs, ids) == ReadyOnes(s.jobs, ids);
  }

  /** A server of one ready job, on which asking twice panics. */
  lemma SecondReservationPanics()
    ensures var job := Job(0, [], Ready(0), 0, 1, 0, 0, 0, 0, 0);
            var tube := EMPTY_TUBE.(ready := Queue(map[0 := 1], 1, 1));
            var s := ServerView(map[1 := ([], job)], map[[] := tube]);
            CoherentBut(s, {}) && ReserveAll(s, [1]).Some? && ReserveAll(s, [1, 1]).None?
  {
    var job := Job(0, [], Ready(0), 0, 1, 0, 0, 0, 0, 0);
    var tube := EMPTY_TUBE.(ready := Queue(map[0 := 1], 1, 1));
    var s := ServerView(map[1 := ([], job)], map[[] := tube]);
    assert IsReady(s.jobs, 1);
    assert CoherentBut(s, {}) by {
      assert Indexed(s, 1);
      assert Backed(s, []);
    }
    ReservationsPanic(s, [1]);
    ReservationsPanic(s, [1, 1]);
    assert 1 in [1, 1][1..];
  }

  class Server {
    var jobs: map<JobId, (QueueName, Job)>
    var queues: map<QueueName, TubeState>
    var isDraining: bool

    ghost predicate Valid()
      reads this, queues.Values
    {
      && (forall name :: name in queues ==> queues[name].Valid())
      && (forall a, b :: a in queues && b in queues && a != b ==> queues[a] != queues[b])
    }

    ghost function View(): ServerView
      reads this, queues.Values
    {
      ServerView(jobs, map name | name in queues :: queues[name].View())
    }

    constructor ()
      ensures Valid() && View() == ServerView(map[], map[]) && !isDraining
    {
      jobs, queues, isDraining := map[], map[], false;
    }

    /** Takes a ready job out of its tube's queue and returns it. */
    method ReserveById(id: JobId) returns (r: Option<Job>)
      requires Valid() && Reserve(View(), id).Some?
      modifies queues.Values
      ensures Valid() && Reserve(old(View()), id) == Some(Reserving(View(), r))
      ensures IsReady(jobs, id) ==> r == Some(jobs[id].1) && jobs[id].0 in queues
      ensures IsReady(jobs, id) ==>
                var tube: TubeState, pos := queues[jobs[id].0], jobs[id].1.state.pos;
                && pos in old(tube.ready) && tube.ready == old(tube.ready) - {pos}
                && tube.currentJobsReady == old(tube.currentJobsReady) - 1
                && unchanged(tube`readySn, tube`buried, tube`buriedSn, tube`currentJobsBuried,
                             tube`delayed, tube`currentJobsDelayed)
      ensures !IsReady(jobs, id) ==> r == None
      ensures forall name :: name in queues && !(IsReady(jobs, id) && name == jobs[id].0) ==> unchanged(queues[name])
    {
      if id !in jobs {
        return None;
      }
      var (name, job) := jobs[id];
      if !job.state.Ready? {
        return None;
      }
      var queue := queues[name];
      ghost var before := View();
      queue.TakeReady(job.state.pos);
      assert View().queues == before.queues[name := queue.View()];
      return Some(job);
    }
  }
}

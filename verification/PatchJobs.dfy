/**
 The agent side of patch builds (sparkdeck/image_patch_jobs.py): a bounded,
 durable job history with idempotent submission. A request's fingerprint is taken
 to be injective, so a job carries its request's content instead. `created` and
 `built` are histories: every job ever created, in order, and for the creations
 whose build succeeded the image that was built.
 */
module PatchJobs {
  import opened Wrappers

  datatype Status = Queued | Building | Succeeded | Failed

  /** Target and sha256 of a submitted file, and everything else in the request. */
  datatype Content = Content(files: seq<(string, string)>, rest: string)

  /** `serial` is the job's place in the history of creations. */
  datatype Job = Job(id: string, content: Content, status: Status, image: string, serial: nat)

  datatype Creation = Creation(id: string, content: Content)

  datatype Snapshot = Snapshot(generation: nat, jobs: seq<Job>)

  /** What start() and get() answer over HTTP. */
  datatype Reply = Accepted(job: Job) | Refused(code: int)

  const HISTORY := 100

  datatype Agent = Agent(jobs: seq<Job>, generation: nat, written: nat, disk: seq<Job>, flushes: set<Snapshot>,
                         created: seq<Creation>, built: map<nat, string>)

  const NEW_AGENT := Agent([], 0, 0, [], {}, [], map[])

  predicate IsActive(j: Job) {
    j.status == Queued || j.status == Building
  }

  function FindJob(jobs: seq<Job>, id: string): (r: Option<Job>)
    ensures r.Some? ==> r.value in jobs && r.value.id == id
    ensures r.None? ==> forall i :: 0 <= i < |jobs| ==> jobs[i].id != id
  {
    if jobs == [] then None
    else if jobs[0].id == id then Some(jobs[0])
    else FindJob(jobs[1..], id)
  }

  predicate AnyActive(jobs: seq<Job>) {
    exists i :: 0 <= i < |jobs| && IsActive(jobs[i])
  }

  // ----- the operations, on values -----------------------------------------------

  /** _write_snapshot: an older snapshot never overwrites a newer one. */
  function WriteSnapshot(a: Agent, s: Snapshot): Agent {
    if s.generation <= a.written then a else a.(disk := s.jobs, written := s.generation)
  }

  /** _save; when the file cannot be written only the generation counts up. */
  function Save(a: Agent, writable: bool): Agent {
    var b := a.(generation := a.generation + 1);
    if writable then WriteSnapshot(b, Snapshot(b.generation, b.jobs)) else b
  }

  function Prepend(jobs: seq<Job>, job: Job): seq<Job> {
    [job] + (if |jobs| > HISTORY - 1 then jobs[..HISTORY - 1] else jobs)
  }

  /** start() on an agent. */
  function Start(a: Agent, id: string, content: Content, writable: bool): (Agent, Reply) {
    var existing := FindJob(a.jobs, id);
    if existing.Some? then
      (a, if existing.value.content == content then Accepted(existing.value) else Refused(400))
    else if AnyActive(a.jobs) then (a, Refused(400))
    else
      var job := Job(id, content, Queued, "", |a.created|);
      var saved := Save(a.(jobs := Prepend(a.jobs, job)), writable);
      if writable then (saved.(created := a.created + [Creation(id, content)]), Accepted(job))
      else (saved.(jobs := a.jobs), Refused(500))
  }

  function Get(a: Agent, id: string): Reply {
    var job := FindJob(a.jobs, id);
    if job.Some? then Accepted(job.value) else Refused(404)
  }

  /** One change of the running job's status by _run, and the attempt to save it. */
  function Progress(a: Agent, status: Status, image: string, writable: bool): Agent {
    if a.jobs == [] || !IsActive(a.jobs[0]) then a
    else
      var job := a.jobs[0].(status := status, image := image);
      Save(a.(jobs := a.jobs[0 := job], built := if status == Succeeded then a.built[job.serial := image] else a.built), writable)
  }

  /** _begin_log_flush takes a snapshot; a thread writes it later. */
  function BeginFlush(a: Agent): Agent {
    a.(generation := a.generation + 1, flushes := a.flushes + {Snapshot(a.generation + 1, a.jobs)})
  }

  function EndFlush(a: Agent, s: Snapshot): Agent {
    WriteSnapshot(a, s).(flushes := a.flushes - {s})
  }

  /** __init__: an interrupted build has failed. */
  function Interrupted(j: Job): Job {
    if IsActive(j) then j.(status := Failed) else j
  }

  function Loaded(jobs: seq<Job>): (r: seq<Job>)
    ensures |r| == |jobs| && forall i :: 0 <= i < |jobs| ==> r[i] == Interrupted(jobs[i])
  {
    seq(|jobs|, i requires 0 <= i < |jobs| => Interrupted(jobs[i]))
  }

  function Restart(a: Agent): Agent {
    a.(jobs := Loaded(a.disk), generation := 0, written := 0, flushes := {})
  }

  // ----- the agent itself -----------------------------------------------------------

  class PatchAgent {
    var jobs: seq<Job>
    var generation: nat
    var written: nat
    var disk: seq<Job>
    var flushes: set<Snapshot>
    var created: seq<Creation>
    var built: map<nat, string>

    function State(): Agent
      reads this
    {
      Agent(jobs, generation, written, disk, flushes, created, built)
    }

    constructor ()
      ensures State() == NEW_AGENT
    {
      jobs, generation, written, disk := [], 0, 0, [];
      flushes, created, built := {}, [], map[];
    }

    method FindById(id: string) returns (found: Option<Job>)
      ensures found == FindJob(jobs, id)
    {
      for i := 0 to |jobs|
        invariant FindJob(jobs, id) == FindJob(jobs[i..], id)
      {
        assert jobs[i..][1..] == jobs[i + 1..];
        if jobs[i].id == id {
          return Some(jobs[i]);
        }
      }
      found := None;
    }

    method WriteFile(snapshot: seq<Job>, number: nat)
      modifies this`disk, this`written
      ensures State() == WriteSnapshot(old(State()), Snapshot(number, snapshot))
    {
      if number <= written {
        return;
      }
      disk, written := snapshot, number;
    }

    method SaveJobs(writable: bool)
      modifies this`disk, this`written, this`generation
      ensures State() == Save(old(State()), writable)
    {
      generation := generation + 1;
      if writable {
        WriteFile(jobs, generation);
      }
    }

    method StartJob(id: string, content: Content, writable: bool) returns (reply: Reply)
      modifies this
      ensures (State(), reply) == Start(old(State()), id, content, writable)
    {
      hide FindJob;
      var existing := FindById(id);
      if existing.Some? {
        return if existing.value.content == content then Accepted(existing.value) else Refused(400);
      }
      if exists i :: 0 <= i < |jobs| && IsActive(jobs[i]) {
        return Refused(400);
      }
      var job := Job(id, content, Queued, "", |created|);
      var previous := jobs;
      jobs := Prepend(previous, job);
      SaveJobs(writable);
      if !writable {
        jobs := previous;
        return Refused(500);
      }
      created := created + [Creation(id, content)];
      reply := Accepted(job);
    }

    /** A status change of the running job in _run, with _save_progress. */
    method Advance(status: Status, image: string, writable: bool)
      modifies this
      ensures State() == Progress(old(State()), status, image, writable)
    {
      if jobs == [] || !IsActive(jobs[0]) {
        return;
      }
      var job := jobs[0].(status := status, image := image);
      jobs := jobs[0 := job];
      if status == Succeeded {
        built := built[job.serial := image];
      }
      SaveJobs(writable);
    }

    /** __init__ on the file that the previous process left. */
    method Reload()
      modifies this
      ensures State() == Restart(old(State()))
    {
      jobs := disk;
      for i := 0 to |jobs|
        invariant |jobs| == |disk|
        invariant forall j :: 0 <= j < |disk| ==> jobs[j] == if j < i then Interrupted(disk[j]) else disk[j]
        invariant State() == old(State()).(jobs := jobs)
      {
        if IsActive(jobs[i]) {
          jobs := jobs[i := jobs[i].(status := Failed)];
        }
      }
      assert jobs == Loaded(disk);
      generation, written, flushes := 0, 0, {};
    }
  }

  // ----- what every operation keeps -----------------------------------------------------

  function Least(a: nat, b: nat): nat {
    if a < b then a else b
  }

  /** The table lists the latest creations, newest first, and as succeeded only built ones, with their images. */
  predicate Lists(jobs: seq<Job>, created: seq<Creation>, built: map<nat, string>) {
    && |jobs| == Least(HISTORY, |created|)
    && forall i :: 0 <= i < |jobs| ==> IsListed(jobs[i], i, created, built)
  }

  predicate HasImage(built: map<nat, string>, serial: nat, image: string) {
    serial in built && built[serial] == image
  }

  predicate IsListed(j: Job, i: nat, created: seq<Creation>, built: map<nat, string>) {
    && i < |created| && j.serial == |created| - 1 - i
    && Creation(j.id, j.content) == created[j.serial]
    && (j.status == Succeeded ==> HasImage(built, j.serial, j.image))
  }

  /** Two creations with one id have at least 100 others between them. */
  predicate FarApart(created: seq<Creation>) {
    forall p, q :: 0 <= p < q < |created| && created[p].id == created[q].id ==> q - p > 100
  }

  /** Only the newest job can be running, and it has not been built yet. */
  predicate OneActive(jobs: seq<Job>, built: map<nat, string>) {
    && (forall i :: 0 < i < |jobs| ==> !IsActive(jobs[i]))
    && (jobs != [] && IsActive(jobs[0]) ==> jobs[0].serial !in built)
  }

  /** Only creations were built. */
  predicate BuiltAreCreated(built: map<nat, string>, created: seq<Creation>) {
    forall n :: n in built ==> n < |created|
  }

  predicate FlushesFit(a: Agent) {
    forall s :: s in a.flushes ==> s.generation <= a.generation && (s.generation > a.written ==> Lists(s.jobs, a.created, a.built))
  }

  predicate Sound(a: Agent) {
    && Lists(a.jobs, a.created, a.built) && Lists(a.disk, a.created, a.built)
    && OneActive(a.jobs, a.built) && BuiltAreCreated(a.built, a.created) && FarApart(a.created)
    && a.written <= a.generation && FlushesFit(a)
  }

  lemma PrependLists(jobs: seq<Job>, created: seq<Creation>, built: map<nat, string>, job: Job)
    requires Lists(jobs, created, built) && job.serial == |created| && job.status != Succeeded
    ensures Lists(Prepend(jobs, job), created + [Creation(job.id, job.content)], built)
  {
    var after, more := Prepend(jobs, job), created + [Creation(job.id, job.content)];
    forall i | 0 <= i < |after| ensures IsListed(after[i], i, more, built) {
      if i > 0 {
        assert after[i] == jobs[i - 1] && IsListed(jobs[i - 1], i - 1, created, built);
      }
    }
  }

  lemma NewIdIsFar(a: Agent, id: string, content: Content)
    requires Sound(a) && FindJob(a.jobs, id).None?
    ensures FarApart(a.created + [Creation(id, content)])
  {
    hide FindJob;
    forall p | |a.created| - |a.jobs| <= p < |a.created| ensures a.created[p].id != id {
      var i := CreationIsListed(a, p);
      assert a.jobs[i].id != id;
    }
  }

  lemma CreationIsListed(a: Agent, p: nat) returns (i: nat)
    requires Sound(a) && |a.created| - |a.jobs| <= p < |a.created|
    ensures i < |a.jobs| && a.jobs[i].id == a.created[p].id
  {
    i := |a.created| - 1 - p;
    assert IsListed(a.jobs[i], i, a.created, a.built);
  }

  /** One of the last 100 creations has this id. */
  predicate AmongLast(created: seq<Creation>, id: string) {
    exists p :: 0 <= p < |created| && |created| - 100 <= p && created[p].id == id
  }

  lemma KnownIff(a: Agent, id: string)
    requires Sound(a)
    ensures FindJob(a.jobs, id).Some? <==> AmongLast(a.created, id)
  {
    hide FindJob, FarApart;
    if FindJob(a.jobs, id).Some? {
      var i :| 0 <= i < |a.jobs| && a.jobs[i] == FindJob(a.jobs, id).value;
      assert IsListed(a.jobs[i], i, a.created, a.built);
      assert a.created[|a.created| - 1 - i].id == id;
    }
    if AmongLast(a.created, id) {
      var p :| 0 <= p < |a.created| && |a.created| - 100 <= p && a.created[p].id == id;
      var i := CreationIsListed(a, p);
    }
  }

  /**
   A submission creates a job if and only if its file can be saved, no job is running
   and its id is not among the last 100 creations.
   */
  lemma CreatesIff(a: Agent, id: string, content: Content, writable: bool)
    requires Sound(a)
    ensures Start(a, id, content, writable).0.created
         == a.created + if writable && !AnyActive(a.jobs) && !AmongLast(a.created, id) then [Creation(id, content)] else []
  {
    hide FindJob, Sound, AmongLast;
    KnownIff(a, id);
  }

  predicate IsUnfinished(j: Job) {
    j.status == Queued || j.status == Building
  }

  /** At most one listed job is unfinished, and that is the newest. */
  lemma OneAtATime(a: Agent, i: nat)
    requires Sound(a) && i < |a.jobs| && IsUnfinished(a.jobs[i])
    ensures i == 0
  {
    hide FarApart, Lists;
  }

  /**
   What a submission is answered, and what it leaves: a listed id with the same content
   its job, with other content 400; while a job is unfinished 400; when the file cannot
   be saved 500; and none of these changes the jobs. Any other is answered with its new
   job, queued in front.
   */
  lemma StartReplies(a: Agent, id: string, content: Content, writable: bool)
    requires Sound(a)
    ensures var (b, reply) := Start(a, id, content, writable);
            if AmongLast(a.created, id) then
              && b == a
              && (reply.Accepted? ==> reply.job in a.jobs && reply.job.id == id && reply.job.content == content)
              && (reply.Refused? ==> reply.code == 400 && !(exists i :: IsJob(a.jobs, i, id, content)))
            else if exists i :: 0 <= i < |a.jobs| && IsUnfinished(a.jobs[i]) then b == a && reply == Refused(400)
            else if !writable then b.jobs == a.jobs && b.disk == a.disk && b.created == a.created && reply == Refused(500)
            else
              && reply == Accepted(Job(id, content, Queued, "", |a.created|))
              && b.jobs != [] && b.jobs[0] == reply.job && b.jobs[1..] <= a.jobs
              && b.created == a.created + [Creation(id, content)]
              && (a.generation >= a.written ==> b.disk == b.jobs)
  {
    hide FindJob, Sound, AmongLast;
    KnownIff(a, id);
    UnfinishedIff(a.jobs);
    var found := FindJob(a.jobs, id);
    if found.Some? && found.value.content != content {
      forall i ensures !IsJob(a.jobs, i, id, content) {
        if 0 <= i < |a.jobs| && a.jobs[i].id == id {
          FoundIsListed(a, i);
        }
      }
    }
  }

  /** A poll is answered with the listed job, and with 404 if the id is not among the last 100 creations. */
  lemma GetReplies(a: Agent, id: string)
    requires Sound(a)
    ensures if AmongLast(a.created, id) then Get(a, id).Accepted? && Get(a, id).job in a.jobs && Get(a, id).job.id == id
            else Get(a, id) == Refused(404)
  {
    hide FindJob, Sound, AmongLast;
    KnownIff(a, id);
  }

  predicate IsJob(jobs: seq<Job>, i: int, id: string, content: Content) {
    0 <= i < |jobs| && jobs[i].id == id && jobs[i].content == content
  }

  lemma UnfinishedIff(jobs: seq<Job>)
    ensures AnyActive(jobs) <==> exists i :: 0 <= i < |jobs| && IsUnfinished(jobs[i])
  {
    forall i | 0 <= i < |jobs| ensures IsActive(jobs[i]) <==> IsUnfinished(jobs[i]) {
    }
  }

  /** An id is listed once. */
  lemma FoundIsListed(a: Agent, i: nat)
    requires Sound(a) && i < |a.jobs|
    ensures FindJob(a.jobs, a.jobs[i].id) == Some(a.jobs[i])
  {
    hide FindJob;
    var found := FindJob(a.jobs, a.jobs[i].id);
    var j :| 0 <= j < |a.jobs| && a.jobs[j] == found.value;
    assert IsListed(a.jobs[i], i, a.created, a.built) && IsListed(a.jobs[j], j, a.created, a.built);
    assert a.created[|a.created| - 1 - i].id == a.created[|a.created| - 1 - j].id;
  }

  /**
   A status change of the running job, which it finishes or not; the file has it at once
   if it can be saved. Without an unfinished job nothing changes.
   */
  lemma ProgressEffect(a: Agent, status: Status, image: string, writable: bool)
    requires Sound(a)
    ensures var b := Progress(a, status, image, writable);
            if a.jobs != [] && IsUnfinished(a.jobs[0]) then
              && b.jobs == a.jobs[0 := a.jobs[0].(status := status, image := image)] && b.created == a.created
              && b.disk == (if writable then b.jobs else a.disk)
              && b.built == (if status == Succeeded then a.built[a.jobs[0].serial := image] else a.built)
            else b == a
  {
    hide Lists, FarApart, OneActive;
  }

  /** A restart loads the saved jobs: the unfinished ones have failed, the others are as they were, and the histories stay. */
  lemma RestartEffect(a: Agent)
    ensures var b := Restart(a);
            && |b.jobs| == |a.disk| && b.disk == a.disk && b.created == a.created && b.built == a.built && b.flushes == {}
            && b.generation == b.written == 0
            && forall i :: 0 <= i < |a.disk| ==>
                 b.jobs[i] == if IsUnfinished(a.disk[i]) then a.disk[i].(status := Failed) else a.disk[i]
  {
  }

  /** The file is only ever replaced by a snapshot that was taken later than the one it holds. */
  lemma FlushEffect(a: Agent, s: Snapshot)
    ensures var b := EndFlush(a, s);
            && b.disk == (if s.generation > a.written then s.jobs else a.disk)
            && b.written == (if s.generation > a.written then s.generation else a.written)
            && s !in b.flushes && b.jobs == a.jobs && b.created == a.created
    ensures var b := BeginFlush(a);
            Snapshot(b.generation, a.jobs) in b.flushes && b.generation > a.generation && b.jobs == a.jobs && b.disk == a.disk
  {
  }

  lemma StartKeeps(a: Agent, id: string, content: Content, writable: bool)
    requires Sound(a)
    ensures Sound(Start(a, id, content, writable).0)
  {
    hide FindJob, Lists, FarApart;
    if FindJob(a.jobs, id).None? && !AnyActive(a.jobs) && writable {
      var job := Job(id, content, Queued, "", |a.created|);
      PrependLists(a.jobs, a.created, a.built, job);
      NewIdIsFar(a, id, content);
    }
  }

  lemma ProgressKeeps(a: Agent, status: Status, image: string, writable: bool)
    requires Sound(a)
    ensures Sound(Progress(a, status, image, writable))
    ensures Outlives(a.built, Progress(a, status, image, writable).built)
  {
    hide FarApart, Lists, IsListed;
    if a.jobs != [] && IsActive(a.jobs[0]) {
      var job := a.jobs[0].(status := status, image := image);
      var built := if status == Succeeded then a.built[job.serial := image] else a.built;
      FirstIsListed(a.jobs, a.created, a.built);
      ListsOutlive(a.jobs, a.created, a.built, built);
      ListsOutlive(a.disk, a.created, a.built, built);
      ListsChanged(a.jobs, a.created, built, job);
      forall s | s in a.flushes && s.generation > a.written ensures Lists(s.jobs, a.created, built) {
        ListsOutlive(s.jobs, a.created, a.built, built);
      }
    }
  }

  /** What was built stays built, with its image. */
  predicate Outlives(built: map<nat, string>, more: map<nat, string>) {
    forall n :: n in built ==> n in more && more[n] == built[n]
  }

  lemma FirstIsListed(jobs: seq<Job>, created: seq<Creation>, built: map<nat, string>)
    requires Lists(jobs, created, built) && jobs != []
    ensures jobs[0].serial < |created|
  {
    assert IsListed(jobs[0], 0, created, built);
  }

  lemma ListsOutlive(jobs: seq<Job>, created: seq<Creation>, built: map<nat, string>, more: map<nat, string>)
    requires Lists(jobs, created, built) && Outlives(built, more)
    ensures Lists(jobs, created, more)
  {
    forall i | 0 <= i < |jobs| ensures IsListed(jobs[i], i, created, more) {
      assert IsListed(jobs[i], i, created, built);
    }
  }

  lemma ListsChanged(jobs: seq<Job>, created: seq<Creation>, built: map<nat, string>, job: Job)
    requires Lists(jobs, created, built) && jobs != []
    requires job.id == jobs[0].id && job.content == jobs[0].content && job.serial == jobs[0].serial
    requires job.status == Succeeded ==> HasImage(built, job.serial, job.image)
    ensures Lists(jobs[0 := job], created, built)
  {
    var after := jobs[0 := job];
    forall i | 0 <= i < |after| ensures IsListed(after[i], i, created, built) {
      assert IsListed(jobs[i], i, created, built);
    }
  }

  lemma FlushKeeps(a: Agent, s: Snapshot)
    requires Sound(a)
    ensures Sound(BeginFlush(a))
    ensures s in a.flushes ==> Sound(EndFlush(a, s))
  {
    hide Lists, FarApart, OneActive;
  }

  lemma RestartKeeps(a: Agent)
    requires Sound(a)
    ensures Sound(Restart(a))
  {
    hide FarApart;
    forall i | 0 <= i < |a.disk| ensures IsListed(Interrupted(a.disk[i]), i, a.created, a.built) {
      assert IsListed(a.disk[i], i, a.created, a.built);
    }
  }
}

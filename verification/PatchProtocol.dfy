/**
 A controller that submits one remote build (sparkdeck/image_patch_jobs.py,
 _remote) against an agent over a network that loses, delays and duplicates
 requests and replies: a request that was once sent can be served any number of
 times, and a reply that was once made can arrive at any later time.
 */
module PatchProtocol {
  import opened Wrappers
  import opened PatchJobs

  /** POST submits the request, GET polls its id. */
  datatype Verb = Post | Poll

  /** What _remote returns: image and files, or an exception. */
  datatype Outcome = Waiting | Returned(image: string, files: seq<(string, string)>) | Raised

  /** The variables of the retry loop; `view` is the last job that the agent reported. */
  datatype Remote = Remote(id: string, content: Content, verb: Verb, accepted: bool, view: Option<Job>, outcome: Outcome)

  function NewRemote(id: string, content: Content): Remote {
    Remote(id, content, Post, false, None, Waiting)
  }

  /** The end of a turn: the last reported status decides. */
  function Conclude(r: Remote): Remote {
    if r.view.Some? && r.view.value.status == Succeeded then
      r.(outcome := Returned(r.view.value.image, r.view.value.content.files))
    else if r.view.Some? && r.view.value.status == Failed then r.(outcome := Raised)
    else r
  }

  /** A turn whose request is answered with a job. */
  function OnJob(r: Remote, job: Job): Remote {
    Conclude(r.(view := Some(job), accepted := true, verb := Poll))
  }

  /** A turn whose request fails: without an HTTP answer (None), or with an error status. */
  function OnError(r: Remote, code: Option<int>, unsupported: bool): Remote {
    if r.verb == Post && code == Some(400) && unsupported then r.(outcome := Raised)
    else if r.verb == Poll && !r.accepted && code == Some(404) then Conclude(r.(verb := Post))
    else if code.Some? && code.value < 500 && code.value != 408 && code.value != 429 then r.(outcome := Raised)
    else Conclude(r.(verb := Poll))
  }

  // ----- the retry loop as an object -----------------------------------------------

  class RemoteBuild {
    const id: string
    const content: Content
    var verb: Verb
    var accepted: bool
    var view: Option<Job>
    var outcome: Outcome

    function State(): Remote
      reads this
    {
      Remote(id, content, verb, accepted, view, outcome)
    }

    constructor (id: string, content: Content)
      ensures this.id == id && this.content == content && State() == NewRemote(id, content)
    {
      this.id, this.content := id, content;
      verb, accepted, view, outcome := Post, false, None, Waiting;
    }

    /** One turn of the loop, with what its request came to. */
    method Turn(answer: Result<Job, Option<int>>, unsupported: bool)
      modifies this
      ensures answer.Success? ==> State() == OnJob(old(State()), answer.value)
      ensures answer.Failure? ==> State() == OnError(old(State()), answer.error, unsupported)
    {
      match answer {
        case Success(job) =>
          view, accepted, verb := Some(job), true, Poll;
        case Failure(code) =>
          if verb == Post && code == Some(400) && unsupported {
            outcome := Raised;
            return;
          }
          if verb == Poll && !accepted && code == Some(404) {
            verb := Post;
          } else if code.Some? && code.value < 500 && code.value != 408 && code.value != 429 {
            outcome := Raised;
            return;
          } else {
            verb := Poll;
          }
      }
      if view.Some? && view.value.status == Succeeded {
        outcome := Returned(view.value.image, view.value.content.files);
      } else if view.Some? && view.value.status == Failed {
        outcome := Raised;
      }
    }
  }

  // ----- the whole system ------------------------------------------------------------

  /** `sent` are the requests ever sent, `replies` the answers ever made, each with its request. */
  datatype System = System(agent: Agent, remote: Remote, sent: set<Verb>, replies: set<(Verb, Reply)>)

  datatype Event =
    | Send                                              // the controller's loop sends its request
    | Serve(m: Verb, writable: bool)                  // the agent processes a copy of a sent request
    | Receive(m: Verb, reply: Reply, unsupported: bool)
    | Trouble(code: Option<int>, unsupported: bool)     // the request fails on the way, with any status or none
    | TimeOut
    | OtherStart(id: string, content: Content, writable: bool)
    | Work(status: Status, image: string, writable: bool)
    | StartFlush
    | FinishFlush(s: Snapshot)
    | Crash

  function Initial(id: string, content: Content): System {
    System(NEW_AGENT, NewRemote(id, content), {}, {})
  }

  predicate Enabled(s: System, e: Event) {
    match e
    case Send => s.remote.outcome == Waiting
    case Serve(m, _) => m in s.sent
    case Receive(m, reply, _) => s.remote.outcome == Waiting && m == s.remote.verb && (m, reply) in s.replies
    case Trouble(_, _) => s.remote.outcome == Waiting
    case TimeOut => s.remote.outcome == Waiting
    case OtherStart(id, _, _) => id != s.remote.id
    case FinishFlush(f) => f in s.agent.flushes
    case _ => true
  }

  function OnReply(r: Remote, reply: Reply, unsupported: bool): Remote {
    match reply
    case Accepted(job) => OnJob(r, job)
    case Refused(code) => OnError(r, Some(code), unsupported)
  }

  function Next(s: System, e: Event): System {
    if !Enabled(s, e) then s
    else
      match e
      case Send => s.(sent := s.sent + {s.remote.verb})
      case Serve(m, writable) =>
        if m == Post then
          var (agent, reply) := Start(s.agent, s.remote.id, s.remote.content, writable);
          s.(agent := agent, replies := s.replies + {(Post, reply)})
        else s.(replies := s.replies + {(Poll, Get(s.agent, s.remote.id))})
      case Receive(_, reply, unsupported) => s.(remote := OnReply(s.remote, reply, unsupported))
      case Trouble(code, unsupported) => s.(remote := OnError(s.remote, code, unsupported))
      case TimeOut => s.(remote := s.remote.(outcome := Raised))
      case OtherStart(id, content, writable) => s.(agent := Start(s.agent, id, content, writable).0)
      case Work(status, image, writable) => s.(agent := Progress(s.agent, status, image, writable))
      case StartFlush => s.(agent := BeginFlush(s.agent))
      case FinishFlush(f) => s.(agent := EndFlush(s.agent, f))
      case Crash => s.(agent := Restart(s.agent))
  }

  function Run(s: System, events: seq<Event>): System {
    if |events| == 0 then s else Next(Run(s, events[..|events| - 1]), events[|events| - 1])
  }

  // ----- safety -----------------------------------------------------------------------

  /** A job that was reported to the controller is its own, and was built if it is reported as succeeded. */
  predicate IsOwn(j: Job, a: Agent, r: Remote) {
    && j.serial < |a.created| && a.created[j.serial] == Creation(r.id, r.content)
    && j.id == r.id && j.content == r.content
    && (j.status == Succeeded ==> HasImage(a.built, j.serial, j.image))
  }

  /** Every creation with the controller's id is for its request. */
  predicate OwnId(a: Agent, r: Remote) {
    forall p :: 0 <= p < |a.created| && a.created[p].id == r.id ==> a.created[p].content == r.content
  }

  /** A creation of the controller's request, whose build succeeded with this image. */
  predicate BuiltAs(a: Agent, r: Remote, serial: nat, image: string) {
    serial < |a.created| && a.created[serial] == Creation(r.id, r.content) && HasImage(a.built, serial, image)
  }

  predicate Safe(s: System) {
    && Sound(s.agent) && OwnId(s.agent, s.remote)
    && (forall x :: x in s.replies && x.1.Accepted? ==> IsOwn(x.1.job, s.agent, s.remote))
    && (s.remote.view.Some? ==> IsOwn(s.remote.view.value, s.agent, s.remote))
    && (s.remote.accepted ==> s.remote.verb == Poll)
    && (s.remote.outcome.Returned? ==>
          && s.remote.view.Some? && s.remote.view.value.status == Succeeded
          && s.remote.outcome == Returned(s.remote.view.value.image, s.remote.content.files))
  }

  /** The histories only grow. */
  predicate Grows(a: Agent, b: Agent) {
    a.created <= b.created && Outlives(a.built, b.built)
  }

  lemma OwnStays(j: Job, a: Agent, b: Agent, r: Remote)
    requires IsOwn(j, a, r) && Grows(a, b)
    ensures IsOwn(j, b, r)
  {
  }

  /** A job found under the controller's id is its own. */
  lemma FoundIsOwn(a: Agent, r: Remote)
    requires Sound(a) && OwnId(a, r) && FindJob(a.jobs, r.id).Some?
    ensures IsOwn(FindJob(a.jobs, r.id).value, a, r)
  {
    hide FindJob;
    var j := FindJob(a.jobs, r.id).value;
    var i :| 0 <= i < |a.jobs| && a.jobs[i] == j;
    assert IsListed(j, i, a.created, a.built);
  }

  lemma StartIsOwn(a: Agent, r: Remote, writable: bool)
    requires Sound(a) && OwnId(a, r)
    ensures var (b, reply) := Start(a, r.id, r.content, writable);
            Grows(a, b) && OwnId(b, r) && (reply.Accepted? ==> IsOwn(reply.job, b, r))
  {
    hide FindJob, Sound;
    if FindJob(a.jobs, r.id).Some? {
      FoundIsOwn(a, r);
    }
  }

  lemma OtherKeepsOwn(a: Agent, r: Remote, id: string, content: Content, writable: bool)
    requires OwnId(a, r) && id != r.id
    ensures var b := Start(a, id, content, writable).0; Grows(a, b) && OwnId(b, r)
  {
    hide FindJob;
  }

  /** The agent moves on: what was reported stays true. */
  lemma AgentMoves(s: System, b: Agent)
    requires Safe(s) && Sound(b) && OwnId(b, s.remote) && Grows(s.agent, b)
    ensures Safe(s.(agent := b))
  {
    hide Sound, OwnId, IsOwn, Grows;
    forall x | x in s.replies && x.1.Accepted? ensures IsOwn(x.1.job, b, s.remote) {
      OwnStays(x.1.job, s.agent, b, s.remote);
    }
    if s.remote.view.Some? {
      OwnStays(s.remote.view.value, s.agent, b, s.remote);
    }
  }

  lemma ServeKeeps(s: System, m: Verb, writable: bool)
    requires Safe(s) && Enabled(s, Serve(m, writable))
    ensures Safe(Next(s, Serve(m, writable)))
  {
    hide Sound, OwnId, IsOwn, Grows, Start;
    if m == Post {
      StartIsOwn(s.agent, s.remote, writable);
      StartKeeps(s.agent, s.remote.id, s.remote.content, writable);
      AgentMoves(s, Start(s.agent, s.remote.id, s.remote.content, writable).0);
    } else if FindJob(s.agent.jobs, s.remote.id).Some? {
      FoundIsOwn(s.agent, s.remote);
    }
  }

  lemma ProgressGrows(a: Agent, status: Status, image: string, writable: bool)
    requires Outlives(a.built, Progress(a, status, image, writable).built)
    ensures Grows(a, Progress(a, status, image, writable)) && Progress(a, status, image, writable).created == a.created
  {
  }

  lemma NextKeeps(s: System, e: Event)
    requires Safe(s)
    ensures Safe(Next(s, e))
  {
    hide Sound, OwnId, Start, Progress, FindJob;
    if Enabled(s, e) {
      match e {
        case Serve(m, writable) => ServeKeeps(s, m, writable);
        case OtherStart(id, content, writable) =>
          StartKeeps(s.agent, id, content, writable);
          OtherKeepsOwn(s.agent, s.remote, id, content, writable);
          AgentMoves(s, Start(s.agent, id, content, writable).0);
        case Work(status, image, writable) =>
          ProgressKeeps(s.agent, status, image, writable);
          ProgressGrows(s.agent, status, image, writable);
          SameCreations(s.agent, Progress(s.agent, status, image, writable), s.remote);
          AgentMoves(s, Progress(s.agent, status, image, writable));
        case StartFlush =>
          FlushKeeps(s.agent, Snapshot(0, []));
          SameCreations(s.agent, BeginFlush(s.agent), s.remote);
          AgentMoves(s, BeginFlush(s.agent));
        case FinishFlush(f) =>
          FlushKeeps(s.agent, f);
          SameCreations(s.agent, EndFlush(s.agent, f), s.remote);
          AgentMoves(s, EndFlush(s.agent, f));
        case Crash =>
          RestartKeeps(s.agent);
          SameCreations(s.agent, Restart(s.agent), s.remote);
          AgentMoves(s, Restart(s.agent));
        case Send =>
        case _ => LoopKeeps(s, e);
      }
    }
  }

  /** The controller's own turns. */
  lemma LoopKeeps(s: System, e: Event)
    requires Safe(s) && (e.Receive? || e.Trouble? || e.TimeOut?) && Enabled(s, e)
    ensures Safe(Next(s, e))
  {
    hide Sound, OwnId, IsOwn;
    var r := Next(s, e).remote;
    SameOwner(s.agent, s.remote, r);
    if e.Receive? {
      assert (e.m, e.reply).1 == e.reply;
      if e.reply.Accepted? {
        OwnContent(e.reply.job, s.agent, s.remote);
      }
    }
    if s.remote.view.Some? {
      OwnContent(s.remote.view.value, s.agent, s.remote);
    }
  }

  lemma OwnContent(j: Job, a: Agent, r: Remote)
    requires IsOwn(j, a, r)
    ensures j.content == r.content
  {
  }

  lemma SameOwner(a: Agent, r: Remote, t: Remote)
    requires t.id == r.id && t.content == r.content
    ensures OwnId(a, r) <==> OwnId(a, t)
    ensures forall j :: IsOwn(j, a, r) <==> IsOwn(j, a, t)
  {
  }

  lemma SameCreations(a: Agent, b: Agent, r: Remote)
    requires OwnId(a, r) && b.created == a.created
    ensures OwnId(b, r)
  {
  }

  lemma {:induction false} RunIsSafe(id: string, content: Content, events: seq<Event>)
    ensures Safe(Run(Initial(id, content), events))
    ensures Run(Initial(id, content), events).remote.id == id && Run(Initial(id, content), events).remote.content == content
  {
    hide Safe, Next;
    if |events| == 0 {
      InitialIsSafe(id, content);
    } else {
      var init := events[..|events| - 1];
      RunIsSafe(id, content, init);
      NextKeeps(Run(Initial(id, content), init), events[|events| - 1]);
      SameRequest(Run(Initial(id, content), init), events[|events| - 1]);
    }
  }

  lemma InitialIsSafe(id: string, content: Content)
    ensures Safe(Initial(id, content))
  {
  }

  lemma SameRequest(s: System, e: Event)
    ensures Next(s, e).remote.id == s.remote.id && Next(s, e).remote.content == s.remote.content
  {
    hide Start, Progress, FindJob;
  }

  /**
   In every run, if the controller's call returns, it returns the submitted file
   hashes and the image of a build of exactly this request that succeeded on the agent.
   */
  lemma ReturnedMeansBuilt(id: string, content: Content, events: seq<Event>)
    ensures var s := Run(Initial(id, content), events);
            s.remote.outcome.Returned? ==>
              s.remote.outcome.files == content.files
              && exists serial: nat :: BuiltAs(s.agent, s.remote, serial, s.remote.outcome.image)
  {
    hide Run, Initial, Sound;
    RunIsSafe(id, content, events);
    var s := Run(Initial(id, content), events);
    if s.remote.outcome.Returned? {
      assert BuiltAs(s.agent, s.remote, s.remote.view.value.serial, s.remote.outcome.image);
    }
  }

  /** In every run two builds of one id have at least 100 other creations between them. */
  lemma AtMostOnce(id: string, content: Content, events: seq<Event>, p: nat, q: nat)
    requires var created := Run(Initial(id, content), events).agent.created;
             p < q < |created| && created[p].id == created[q].id
    ensures q - p > 100
  {
    hide Run, Initial;
    RunIsSafe(id, content, events);
  }

  /** With at most 100 later jobs on the agent, the build that returned is the only one of its id, and the image is its. */
  lemma ReturnedMeansBuiltOnce(id: string, content: Content, events: seq<Event>, serial: nat)
    requires var s := Run(Initial(id, content), events);
             && s.remote.outcome.Returned?
             && serial < |s.agent.created| && s.agent.created[serial].id == id && |s.agent.created| - 1 - serial <= 100
             && forall p :: 0 <= p < serial ==> s.agent.created[p].id != id
    ensures var s := Run(Initial(id, content), events);
            && BuiltAs(s.agent, s.remote, serial, s.remote.outcome.image)
            && forall p: nat :: p < |s.agent.created| && s.agent.created[p].id == id ==> p == serial
  {
    hide Run, Initial;
    RunIsSafe(id, content, events);
    ReturnedMeansBuilt(id, content, events);
  }

  /** After the agent has once accepted, the request is never submitted again. */
  lemma AcceptedOnlyPolls(id: string, content: Content, events: seq<Event>)
    ensures var s := Run(Initial(id, content), events); s.remote.accepted ==> s.remote.verb == Poll
  {
    hide Run, Initial, Sound;
    RunIsSafe(id, content, events);
  }

  // ----- what ends the controller's call ------------------------------------------------

  /** What a status request comes to that may be tried again: no answer, too early or too many, or a fault of the server. */
  predicate IsTransient(code: Option<int>) {
    code == None || code == Some(408) || code == Some(429) || (code.Some? && code.value >= 500)
  }

  /** While the controller waits, nothing that it has been told ends its call. */
  predicate StillWaits(s: System) {
    s.remote.outcome == Waiting && s.remote.view.Some? ==> s.remote.view.value.status == Queued || s.remote.view.value.status == Building
  }

  lemma NextStillWaits(s: System, e: Event)
    requires StillWaits(s)
    ensures StillWaits(Next(s, e))
  {
    hide Start, Progress, FindJob;
  }

  lemma {:induction false} RunStillWaits(id: string, content: Content, events: seq<Event>)
    ensures StillWaits(Run(Initial(id, content), events))
  {
    hide Next, StillWaits;
    if |events| == 0 {
      assert StillWaits(Initial(id, content)) by { InitialStillWaits(id, content); }
    } else {
      RunStillWaits(id, content, events[..|events| - 1]);
      NextStillWaits(Run(Initial(id, content), events[..|events| - 1]), events[|events| - 1]);
    }
  }

  lemma InitialStillWaits(id: string, content: Content)
    ensures StillWaits(Initial(id, content))
  {
  }

  /**
   After every run: a waiting controller that receives an accepted job returns its
   image and the submitted files if the job succeeded, raises if it failed, and
   otherwise keeps waiting and polls.
   */
  lemma JobDecides(id: string, content: Content, events: seq<Event>, job: Job, unsupported: bool)
    requires Enabled(Run(Initial(id, content), events), Receive(Run(Initial(id, content), events).remote.verb, Accepted(job), unsupported))
    ensures var s := Run(Initial(id, content), events);
            var t := Run(Initial(id, content), events + [Receive(s.remote.verb, Accepted(job), unsupported)]).remote;
            match job.status
            case Succeeded => t.outcome == Returned(job.image, content.files)
            case Failed => t.outcome == Raised
            case _ => t.outcome == Waiting && t.verb == Poll && t.accepted && t.view == Some(job)
  {
    hide Run, Initial, Sound, OwnId, IsOwn;
    RunIsSafe(id, content, events);
    var s := Run(Initial(id, content), events);
    RunOn(Initial(id, content), events, Receive(s.remote.verb, Accepted(job), unsupported));
    assert (s.remote.verb, Accepted(job)).1 == Accepted(job);
    OwnContent(job, s.agent, s.remote);
  }

  /**
   After every run: a request that fails on the way or is refused is tried again as a
   poll if its fault is transient; an unknown id under an unaccepted poll is submitted
   again; every other refusal is raised.
   */
  lemma FailureDecides(id: string, content: Content, events: seq<Event>, code: Option<int>, unsupported: bool, e: Event)
    requires var s := Run(Initial(id, content), events);
             && s.remote.outcome == Waiting && Enabled(s, e)
             && (e == Trouble(code, unsupported)
                 || (code.Some? && e == Receive(s.remote.verb, Refused(code.value), unsupported)))
    ensures var s := Run(Initial(id, content), events);
            var t := Run(Initial(id, content), events + [e]).remote;
            && t.accepted == s.remote.accepted && t.view == s.remote.view
            && if IsTransient(code) then t.outcome == Waiting && t.verb == Poll
               else if code == Some(404) && s.remote.verb == Poll && !s.remote.accepted then t.outcome == Waiting && t.verb == Post
               else t.outcome == Raised
  {
    hide Run, Initial;
    RunStillWaits(id, content, events);
    RunOn(Initial(id, content), events, e);
  }

  /**
   After every run: running out of time raises; a crash leaves the agent with its saved
   jobs, the unfinished ones failed; a snapshot that is begun holds the jobs as they
   are, and one that is written replaces the file if it is later than that. None of
   them reaches the controller otherwise.
   */
  lemma QuietEvents(id: string, content: Content, events: seq<Event>, f: Snapshot)
    ensures var s, t := Run(Initial(id, content), events), Run(Initial(id, content), events + [TimeOut]);
            t == if s.remote.outcome == Waiting then s.(remote := s.remote.(outcome := Raised)) else s
    ensures var s, t := Run(Initial(id, content), events), Run(Initial(id, content), events + [Crash]);
            && t.remote == s.remote && t.sent == s.sent && t.replies == s.replies
            && t.agent.created == s.agent.created && t.agent.disk == s.agent.disk
            && |t.agent.jobs| == |s.agent.disk|
            && forall i :: 0 <= i < |s.agent.disk| ==>
                 t.agent.jobs[i] == if IsUnfinished(s.agent.disk[i]) then s.agent.disk[i].(status := Failed) else s.agent.disk[i]
    ensures var s, t := Run(Initial(id, content), events), Run(Initial(id, content), events + [StartFlush]);
            && t.remote == s.remote && t.agent.jobs == s.agent.jobs && t.agent.disk == s.agent.disk
            && exists g :: g in t.agent.flushes && g.jobs == s.agent.jobs && g.generation > s.agent.generation
    ensures f in Run(Initial(id, content), events).agent.flushes ==>
              var s, t := Run(Initial(id, content), events), Run(Initial(id, content), events + [FinishFlush(f)]);
              && t.remote == s.remote && t.agent.jobs == s.agent.jobs && f !in t.agent.flushes
              && t.agent.disk == if f.generation > s.agent.written then f.jobs else s.agent.disk
  {
    hide Run, Initial, Restart, BeginFlush, EndFlush;
    var s := Run(Initial(id, content), events);
    RunOn(Initial(id, content), events, TimeOut);
    RunOn(Initial(id, content), events, Crash);
    RunOn(Initial(id, content), events, StartFlush);
    RunOn(Initial(id, content), events, FinishFlush(f));
    RestartEffect(s.agent);
    FlushEffect(s.agent, f);
  }

  /** A call that has ended stays as it ended, and sends nothing more; one that waits sends what is its turn. */
  lemma EndedStays(s: System, e: Event)
    ensures s.remote.outcome != Waiting ==> Next(s, e).remote == s.remote && Next(s, e).sent == s.sent
    ensures s.remote.outcome == Waiting ==> Next(s, Send) == s.(sent := s.sent + {s.remote.verb})
  {
    hide Start, Progress, FindJob;
  }

  /** The agent lists a job of this id as built with this image. */
  predicate ListsBuilt(a: Agent, id: string, image: string) {
    exists i :: 0 <= i < |a.jobs| && a.jobs[i].id == id && a.jobs[i].status == Succeeded && a.jobs[i].image == image
  }

  /**
   After every run: if the agent lists the controller's job as built and the controller
   waits, then its next request, whether it polls or submits again, is answered with
   that job, and its call returns the image and the submitted files.
   */
  lemma BuiltIsReturned(id: string, content: Content, events: seq<Event>, image: string) returns (reply: Reply)
    requires var s := Run(Initial(id, content), events); s.remote.outcome == Waiting && ListsBuilt(s.agent, id, image)
    ensures var verb := Run(Initial(id, content), events).remote.verb;
            Run(Initial(id, content), events + [Send] + [Serve(verb, true)] + [Receive(verb, reply, false)]).remote.outcome
              == Returned(image, content.files)
  {
    hide Run, Initial, FindJob, Sound, OwnId;
    RunIsSafe(id, content, events);
    var s := Run(Initial(id, content), events);
    var verb := s.remote.verb;
    var i :| 0 <= i < |s.agent.jobs| && s.agent.jobs[i].id == id && s.agent.jobs[i].status == Succeeded && s.agent.jobs[i].image == image;
    var job := s.agent.jobs[i];
    FoundIsListed(s.agent, i);
    FoundIsOwn(s.agent, s.remote);
    OwnContent(job, s.agent, s.remote);
    reply := Accepted(job);
    RunOn(Initial(id, content), events, Send);
    RunOn(Initial(id, content), events + [Send], Serve(verb, true));
    var served := Run(Initial(id, content), events + [Send] + [Serve(verb, true)]);
    assert served == s.(sent := s.sent + {verb}, replies := s.replies + {(verb, reply)});
    JobDecides(id, content, events + [Send] + [Serve(verb, true)], job, false);
  }

  // ----- the history cap is where at-most-once ends --------------------------------------

  /**
   After every run, a copy of the submission that the agent serves creates a job if
   and only if its file can be saved, no job is running and the id is not among the
   last 100 creations.
   */
  lemma CopyCreatesIff(id: string, content: Content, events: seq<Event>, writable: bool)
    requires Post in Run(Initial(id, content), events).sent
    ensures var s := Run(Initial(id, content), events);
            var creates := writable && !AnyActive(s.agent.jobs) && !AmongLast(s.agent.created, id);
            Run(Initial(id, content), events + [Serve(Post, writable)]).agent.created
              == s.agent.created + if creates then [Creation(id, content)] else []
  {
    hide Run, Initial, Sound, Start, AmongLast;
    RunIsSafe(id, content, events);
    RunOn(Initial(id, content), events, Serve(Post, writable));
    CreatesIff(Run(Initial(id, content), events).agent, id, content, writable);
  }

  lemma RunOn(s: System, events: seq<Event>, e: Event)
    ensures Run(s, events + [e]) == Next(Run(s, events), e)
  {
    hide Next;
    assert (events + [e])[..|events|] == events;
  }

  /** Other submissions, each with an id of its own, each built without success. */
  function Others(ids: seq<string>, content: Content): seq<Event> {
    if |ids| == 0 then []
    else Others(ids[..|ids| - 1], content) + [OtherStart(ids[|ids| - 1], content, true)] + [Work(Failed, "", true)]
  }

  function Creations(ids: seq<string>, content: Content): (r: seq<Creation>)
    ensures |r| == |ids| && forall i :: 0 <= i < |ids| ==> r[i] == Creation(ids[i], content)
  {
    seq(|ids|, i requires 0 <= i < |ids| => Creation(ids[i], content))
  }

  /** The submission was sent, the agent is idle, and what it created. */
  predicate IdleWith(s: System, id: string, content: Content, created: seq<Creation>) {
    && Safe(s) && s.remote.id == id && s.remote.content == content && Post in s.sent
    && !AnyActive(s.agent.jobs) && s.agent.created == created
  }

  /** A job is created and then fails. */
  lemma BuildFails(s: System, start: Event, t: System, id: string, content: Content)
    requires Safe(s) && !AnyActive(s.agent.jobs) && !AmongLast(s.agent.created, id) && Post in s.sent && Enabled(s, start)
    requires (start == Serve(Post, true) && id == s.remote.id && content == s.remote.content) || start == OtherStart(id, content, true)
    requires t == Next(Next(s, start), Work(Failed, "", true))
    ensures IdleWith(t, s.remote.id, s.remote.content, s.agent.created + [Creation(id, content)])
  {
    hide FindJob, Sound, Lists, AmongLast, Safe, Save;
    var b := Next(s, start);
    assert Sound(s.agent) by { SafeIsSound(s); }
    KnownIff(s.agent, id);
    NextKeeps(s, start);
    NextKeeps(b, Work(Failed, "", true));
    assert b.agent == Start(s.agent, id, content, true).0;
    StartThenFail(s.agent, id, content);
  }

  lemma SafeIsSound(s: System)
    requires Safe(s)
    ensures Sound(s.agent)
  {
    hide Sound;
  }

  lemma StartThenFail(a: Agent, id: string, content: Content)
    requires !AnyActive(a.jobs) && FindJob(a.jobs, id).None?
    ensures var b := Progress(Start(a, id, content, true).0, Failed, "", true);
            !AnyActive(b.jobs) && b.created == a.created + [Creation(id, content)]
  {
    hide FindJob;
    var b := Progress(Start(a, id, content, true).0, Failed, "", true);
    assert forall i :: 0 < i < |b.jobs| ==> b.jobs[i] == a.jobs[i - 1];
  }

  predicate AllNew(ids: seq<string>, id: string) {
    && (forall i, j :: 0 <= i < j < |ids| ==> ids[i] != ids[j])
    && forall i :: 0 <= i < |ids| ==> ids[i] != id
  }

  lemma {:induction false} OthersRun(id: string, content: Content, before: seq<Event>, ids: seq<string>)
    requires AllNew(ids, id)
    requires IdleWith(Run(Initial(id, content), before), id, content, [Creation(id, content)])
    ensures IdleWith(Run(Initial(id, content), before + Others(ids, content)), id, content,
                     [Creation(id, content)] + Creations(ids, content))
  {
    hide Sound, Safe, Start, Progress, AnyActive, AmongLast, Run, Initial;
    if |ids| == 0 {
      assert before + Others(ids, content) == before;
    } else {
      var init, other := ids[..|ids| - 1], ids[|ids| - 1];
      OthersRun(id, content, before, init);
      var x := before + Others(init, content);
      var start, work := OtherStart(other, content, true), Work(Failed, "", true);
      assert before + Others(ids, content) == x + [start] + [work];
      RunOn(Initial(id, content), x, start);
      RunOn(Initial(id, content), x + [start], work);
      NewIsNotAmong(ids, id, content);
      BuildFails(Run(Initial(id, content), x), start, Run(Initial(id, content), x + [start] + [work]), other, content);
      assert [Creation(id, content)] + Creations(ids, content)
          == [Creation(id, content)] + Creations(init, content) + [Creation(other, content)];
    }
  }

  lemma NewIsNotAmong(ids: seq<string>, id: string, content: Content)
    requires AllNew(ids, id) && |ids| > 0
    ensures !AmongLast([Creation(id, content)] + Creations(ids[..|ids| - 1], content), ids[|ids| - 1])
  {
    var init := ids[..|ids| - 1];
    var created := [Creation(id, content)] + Creations(init, content);
    forall p | 0 <= p < |created| ensures created[p].id != ids[|ids| - 1] {
      assert p > 0 ==> created[p].id == ids[p - 1];
    }
  }

  /** The submission is served and fails; 100 others follow; then a copy of it is served. */
  function DelayedCopy(ids: seq<string>, content: Content): seq<Event> {
    [Send] + [Serve(Post, true)] + [Work(Failed, "", true)] + Others(ids, content) + [Serve(Post, true)]
  }

  /** The bound is sharp: in this run the delayed copy builds again, 100 creations later. */
  lemma DelayedCopyBuildsAgain(id: string, content: Content, ids: seq<string>)
    requires |ids| == 100 && AllNew(ids, id)
    ensures Run(Initial(id, content), DelayedCopy(ids, content)).agent.created
         == [Creation(id, content)] + Creations(ids, content) + [Creation(id, content)]
  {
    hide Sound, Safe, Start, AmongLast, Run, Initial, AnyActive, Progress;
    var before := [Send] + [Serve(Post, true)] + [Work(Failed, "", true)];
    FirstBuild(id, content);
    OthersRun(id, content, before, ids);
    HistoryIsForgotten(id, content, ids);
    CopyCreatesIff(id, content, before + Others(ids, content), true);
  }

  lemma FirstBuild(id: string, content: Content)
    ensures IdleWith(Run(Initial(id, content), [Send] + [Serve(Post, true)] + [Work(Failed, "", true)]), id, content,
                     [Creation(id, content)])
  {
    hide Sound, Safe, Start, Progress, AmongLast, Next;
    var s := Initial(id, content);
    InitialIsSafe(id, content);
    var sent := Next(s, Send);
    assert Run(s, []) == s && [] + [Send] == [Send];
    RunOn(s, [], Send);
    RunOn(s, [Send], Serve(Post, true));
    RunOn(s, [Send] + [Serve(Post, true)], Work(Failed, "", true));
    NextKeeps(s, Send);
    assert sent == s.(sent := {Post}) by { SendPosts(id, content); }
    assert !AmongLast([], id) by { NoneAmong(id); }
    BuildFails(sent, Serve(Post, true), Next(Next(sent, Serve(Post, true)), Work(Failed, "", true)), id, content);
    assert [] + [Creation(id, content)] == [Creation(id, content)];
  }

  lemma SendPosts(id: string, content: Content)
    ensures Next(Initial(id, content), Send) == Initial(id, content).(sent := {Post})
  {
  }

  lemma NoneAmong(id: string)
    ensures !AmongLast([], id)
  {
  }

  lemma HistoryIsForgotten(id: string, content: Content, ids: seq<string>)
    requires |ids| == 100 && AllNew(ids, id)
    ensures !AmongLast([Creation(id, content)] + Creations(ids, content), id)
  {
    var created := [Creation(id, content)] + Creations(ids, content);
    forall p | 0 < p < |created| ensures created[p].id != id {
      assert created[p].id == ids[p - 1];
    }
  }
}

/** The life of an accepted request (api/v1/virtual_machine_v1.go, vsphere/workerpool/worker_pool.go,
    vsphere/workerpool/taskreceiver/task_receiver.go, startup/startup.go): its record is stored, it passes two
    pools, runs, is called back and its record deleted. The process may crash at any point; after a restart
    the recovery pass calls back what it finds stored, while the server already accepts new requests. */
module TaskLifecycle {
  import opened Wrappers

  type Id = string

  /** The handler's side of a request. The result of the submission lands in a variable the handler checks
      afterwards. Two handlers, for reconfiguring and for relocating, share that variable with the task. */
  datatype Handler = Receiving | Submitted | Checking | Refused | Denying | Answered

  /** The task's side: in the receive pool, in the vCenter's pool, running, and then its end. */
  datatype Task = Unborn | Outer | Inner | Lost | Running | Executed | CalledBack | Aborted | Finished

  /** failed is the shared variable: the task reported an error into it. */
  datatype Request = Request(shares: bool, handler: Handler, task: Task, failed: bool)

  datatype Recovery =
    | NotRun
    | Going(snapshot: set<Id>, todo: map<Id, bool>)
    | Reported(snapshot: set<Id>, id: Id, todo: map<Id, bool>)
    | Over(snapshot: set<Id>, complete: bool)

  datatype Event =
    | Received(id: Id, shares: bool)
    | Stored(id: Id, parses: bool)
    | SubmissionRefused(id: Id)
    | Denied(id: Id)
    | Started(id: Id)
    | BodyPanicked(id: Id)
    | ResultCallback(id: Id)
    | FailureCallback(id: Id)

  /** store holds the records, each with whether recovery can parse it; live the requests of this process;
      history counts what has happened so far. */
  datatype State = State(store: map<Id, bool>, live: map<Id, Request>, up: bool, recovery: Recovery,
    history: multiset<Event>)

  const INIT := State(map[], map[], false, NotRun, multiset{})

  datatype Step =
    | Receive(id: Id, shares: bool, stored: bool, parses: bool)
    | HandlerDies(id: Id)
    | Submit(id: Id, accepted: bool)
    | SubmitReturns(id: Id)
    | Check(id: Id)
    | Cancel(id: Id, deleted: bool)
    | SubmitInner(id: Id, accepted: bool)
    | Start(id: Id)
    | BodyEnds(id: Id, failed: bool)
    | BodyPanics(id: Id) // the operation or the sending of its callback
    | CallBack(id: Id)
    | Done(id: Id, deleted: bool)
    | Crash
    | Restart
    | Snapshot
    | RecoverCall(id: Id)
    | RecoverCancel(deleted: bool)
    | RecoverStops(id: Id)
    | RecoverPanics(id: Id) // sending its callback; nothing recovers the panic, so the process ends
    | RecoverEnds

  predicate EndsProcess(step: Step) {
    step.Crash? || step.RecoverPanics?
  }

  /** The step belongs to a request whose handler or task does it next. */
  predicate OfRequest(step: Step) {
    || step.HandlerDies? || step.Submit? || step.SubmitReturns? || step.Check? || step.Cancel? || step.SubmitInner?
    || step.Start? || step.BodyEnds? || step.BodyPanics? || step.CallBack? || step.Done?
  }

  predicate Ready(r: Request, step: Step)
    requires OfRequest(step)
  {
    match step
    case HandlerDies(_) => r.handler == Receiving
    case Submit(_, _) => r.handler == Receiving
    case SubmitReturns(_) => r.handler == Submitted
    case Check(_) => r.handler == Checking
    case Cancel(_, _) => r.handler == Refused || r.handler == Denying
    case SubmitInner(_, _) => r.task == Outer
    case Start(_) => r.task == Inner
    case BodyEnds(_, _) => r.task == Running
    case BodyPanics(_) => r.task == Running || r.task == Executed
    case CallBack(_) => r.task == Executed
    case Done(_, _) => r.task == CalledBack || r.task == Aborted
  }

  predicate Fresh(h: multiset<Event>, id: Id) {
    Received(id, true) !in h && Received(id, false) !in h
  }

  predicate Enabled(s: State, step: Step) {
    if OfRequest(step) then step.id in s.live && Ready(s.live[step.id], step)
    else
    match step
    case Receive(id, _, _, _) => s.up && Fresh(s.history, id)
    case Crash => s.up
    case Restart => !s.up
    case Snapshot => s.up && s.recovery == NotRun
    case RecoverCall(id) => s.recovery.Going? && id in s.recovery.todo && s.recovery.todo[id]
    case RecoverCancel(_) => s.recovery.Reported?
    case RecoverStops(id) => s.recovery.Going? && id in s.recovery.todo && !s.recovery.todo[id]
    case RecoverPanics(id) => s.recovery.Going? && id in s.recovery.todo && s.recovery.todo[id]
    case RecoverEnds => s.recovery.Going? && s.recovery.todo == map[]
  }

  /** How the request changes. Submitting puts the task into the receive pool before the result is assigned,
      so an error the task reports in between is overwritten. */
  function Changed(r: Request, step: Step): Request
    requires OfRequest(step)
  {
    match step
    case HandlerDies(_) => r.(handler := Answered)
    case Submit(_, accepted) => if accepted then r.(handler := Submitted, task := Outer) else r.(handler := Refused)
    case SubmitReturns(_) => r.(handler := Checking, failed := false)
    case Check(_) => r.(handler := if r.failed then Denying else Answered)
    case Cancel(_, _) => r.(handler := Answered)
    case SubmitInner(_, accepted) => r.(task := if accepted then Inner else Lost)
    case Start(_) => r.(task := Running)
    case BodyEnds(_, failed) => r.(task := Executed, failed := if r.shares then failed else r.failed)
    case BodyPanics(_) => r.(task := Aborted)
    case CallBack(_) => r.(task := CalledBack)
    case Done(_, _) => r.(task := Finished)
  }

  function Heard(r: Request, step: Step): multiset<Event>
    requires OfRequest(step)
  {
    match step
    case Submit(id, accepted) => if accepted then multiset{} else multiset{SubmissionRefused(id)}
    case Check(id) => if r.failed then multiset{Denied(id)} else multiset{}
    case Start(id) => multiset{Started(id)}
    case BodyPanics(id) => multiset{BodyPanicked(id)}
    case CallBack(id) => multiset{ResultCallback(id)}
    case _ => multiset{}
  }

  predicate Deletes(step: Step) {
    (step.Cancel? || step.Done? || step.RecoverCancel?) && step.deleted
  }

  /** The record a deletion is about. */
  function Target(s: State, step: Step): Id
    requires Enabled(s, step) && Deletes(step)
  {
    if step.RecoverCancel? then s.recovery.id else step.id
  }

  function NextStore(s: State, step: Step): map<Id, bool>
    requires Enabled(s, step)
  {
    if Deletes(step) then s.store - {Target(s, step)}
    else if step.Receive? && step.stored then s.store[step.id := step.parses]
    else s.store
  }

  function NextLive(s: State, step: Step): map<Id, Request>
    requires Enabled(s, step)
  {
    if OfRequest(step) then s.live[step.id := Changed(s.live[step.id], step)]
    else if step.Receive? then s.live[step.id := Request(step.shares, Receiving, Unborn, false)]
    else if EndsProcess(step) then map[]
    else s.live
  }

  function NextRecovery(s: State, step: Step): Recovery
    requires Enabled(s, step)
  {
    match step
    case Crash => NotRun
    case RecoverPanics(_) => NotRun
    case Snapshot => Going(s.store.Keys, s.store)
    case RecoverCall(id) => Reported(s.recovery.snapshot, id, s.recovery.todo - {id})
    case RecoverCancel(_) => Going(s.recovery.snapshot, s.recovery.todo)
    case RecoverStops(_) => Over(s.recovery.snapshot, false)
    case RecoverEnds => Over(s.recovery.snapshot, true)
    case _ => s.recovery
  }

  function News(s: State, step: Step): multiset<Event>
    requires Enabled(s, step)
  {
    if OfRequest(step) then Heard(s.live[step.id], step)
    else
    match step
    case Receive(id, shares, stored, parses) =>
      if stored then multiset{Received(id, shares), Stored(id, parses)} else multiset{Received(id, shares)}
    case RecoverCall(id) => multiset{FailureCallback(id)}
    case _ => multiset{}
  }

  function Next(s: State, step: Step): State
    requires Enabled(s, step)
  {
    State(NextStore(s, step), NextLive(s, step), if EndsProcess(step) then false else s.up || step.Restart?,
          NextRecovery(s, step), s.history + News(s, step))
  }

  /** The state a sequence of steps leads to, if each step is possible when it comes. */
  function Run(steps: seq<Step>): Option<State> {
    if steps == [] then Some(INIT) else
    var n := |steps| - 1;
    var before := Run(steps[..n]);
    if before.Some? && Enabled(before.value, steps[n]) then Some(Next(before.value, steps[n])) else None
  }

  // ----- What may have happened to a record that is gone -----

  predicate Accounted(h: multiset<Event>, id: Id) {
    || ResultCallback(id) in h
    || FailureCallback(id) in h
    || SubmissionRefused(id) in h
    || BodyPanicked(id) in h
    || (Denied(id) in h && Received(id, true) in h)
  }

  predicate NotYetStarted(t: Task) {
    t == Unborn || t == Outer || t == Inner || t == Lost
  }

  predicate RequestInv(h: multiset<Event>, id: Id, r: Request) {
    && Received(id, r.shares) in h
    && (r.task == CalledBack ==> ResultCallback(id) in h)
    && (r.task == Aborted ==> BodyPanicked(id) in h)
    && (r.handler == Receiving ==> r.task == Unborn)
    && (r.handler == Refused ==> SubmissionRefused(id) in h)
    && (r.handler == Denying ==> Denied(id) in h && r.shares)
    && (r.failed ==> r.shares)
    && (NotYetStarted(r.task) ==> Started(id) !in h)
  }

  ghost predicate HistoryInv(s: State) {
    && (forall id, p :: Stored(id, p) in s.history && id !in s.store ==> Accounted(s.history, id))
    && (forall id :: Started(id) in s.history ==> !Fresh(s.history, id))
    && (forall id, p :: Stored(id, p) in s.history ==> !Fresh(s.history, id))
    && (forall id :: ResultCallback(id) in s.history ==> !Fresh(s.history, id))
    && (forall id :: !(Stored(id, true) in s.history && Stored(id, false) in s.history))
    && (forall id :: s.history[Started(id)] <= 1)
  }

  predicate RecoveryInv(s: State) {
    && (forall id :: id in s.store ==> Stored(id, s.store[id]) in s.history)
    && (s.recovery.Going? || s.recovery.Reported? ==>
          && (forall id :: id in s.recovery.todo ==> Stored(id, s.recovery.todo[id]) in s.history)
          && (forall id :: id in s.recovery.snapshot && id !in s.recovery.todo ==> FailureCallback(id) in s.history))
    && (s.recovery.Reported? ==> FailureCallback(s.recovery.id) in s.history)
    && (s.recovery.Over? && s.recovery.complete ==>
          forall id :: id in s.recovery.snapshot ==> FailureCallback(id) in s.history)
  }

  ghost predicate ParsedInv(s: State) {
    forall id :: FailureCallback(id) in s.history ==> Stored(id, true) in s.history
  }

  ghost predicate Inv(s: State) {
    && (forall id :: id in s.live ==> RequestInv(s.history, id, s.live[id]))
    && HistoryInv(s)
    && RecoveryInv(s)
    && ParsedInv(s)
  }

  // ----- Every step keeps it -----

  /** What happens to one request does not disturb what is known of another. */
  lemma StillTrue(h: multiset<Event>, more: multiset<Event>, id: Id, r: Request)
    requires RequestInv(h, id, r) && Started(id) !in more
    ensures RequestInv(h + more, id, r)
  {
  }

  lemma OwnStep(h: multiset<Event>, r: Request, step: Step)
    requires OfRequest(step) && RequestInv(h, step.id, r) && Ready(r, step)
    ensures RequestInv(h + Heard(r, step), step.id, Changed(r, step))
  {
  }

  lemma HeardIs(r: Request, step: Step)
    requires OfRequest(step)
    ensures forall id, p :: Stored(id, p) !in Heard(r, step)
    ensures forall id, b :: Received(id, b) !in Heard(r, step)
    ensures forall id :: FailureCallback(id) !in Heard(r, step)
    ensures forall id :: ResultCallback(id) in Heard(r, step) <==> step == CallBack(id)
    ensures forall id :: Heard(r, step)[Started(id)] == if step == Start(id) then 1 else 0
  {
  }

  /** Where new events come from. */
  lemma NewsIs(s: State, step: Step)
    requires Enabled(s, step)
    ensures forall id, p :: Stored(id, p) in News(s, step) ==>
      step.Receive? && step.stored && step.id == id && step.parses == p
    ensures forall id, b :: Received(id, b) in News(s, step) <==> step.Receive? && step.id == id && step.shares == b
    ensures forall id :: FailureCallback(id) in News(s, step) <==> step == RecoverCall(id)
    ensures forall id :: ResultCallback(id) in News(s, step) <==> step == CallBack(id)
    ensures forall id :: News(s, step)[Started(id)] == if step == Start(id) then 1 else 0
  {
    if OfRequest(step) {
      HeardIs(s.live[step.id], step);
    }
  }

  lemma LiveKept(s: State, step: Step)
    requires Inv(s) && Enabled(s, step)
    ensures forall id :: id in Next(s, step).live ==> RequestInv(Next(s, step).history, id, Next(s, step).live[id])
  {
    var t := Next(s, step);
    forall id | id in t.live
      ensures RequestInv(t.history, id, t.live[id])
    {
      NewsIs(s, step);
      if OfRequest(step) && id == step.id {
        OwnStep(s.history, s.live[id], step);
      } else if step.Receive? && id == step.id {
        assert Started(id) !in s.history;
      } else {
        StillTrue(s.history, News(s, step), id, s.live[id]);
      }
    }
  }

  /** A record is deleted only for a reason that is accounted for. */
  lemma DeletedForAReason(s: State, step: Step)
    requires Inv(s) && Enabled(s, step) && Deletes(step)
    ensures Accounted(s.history, Target(s, step))
  {
    if OfRequest(step) {
      assert RequestInv(s.history, step.id, s.live[step.id]);
    }
  }

  lemma GoneKept(s: State, step: Step, id: Id, p: bool)
    requires Inv(s) && Enabled(s, step)
    requires Stored(id, p) in s.history + News(s, step) && id !in NextStore(s, step)
    ensures Accounted(s.history + News(s, step), id)
  {
    NewsIs(s, step);
    assert Stored(id, p) in s.history;
    if id in s.store {
      DeletedForAReason(s, step);
    }
    AccountedGrows(s.history, News(s, step), id);
  }

  lemma AccountedGrows(h: multiset<Event>, more: multiset<Event>, id: Id)
    requires Accounted(h, id)
    ensures Accounted(h + more, id)
  {
  }

  lemma StartsKept(s: State, step: Step, id: Id)
    requires Inv(s) && Enabled(s, step)
    ensures (s.history + News(s, step))[Started(id)] <= 1
    ensures Started(id) in s.history + News(s, step) ==> !Fresh(s.history + News(s, step), id)
  {
    NewsIs(s, step);
    if step == Start(id) {
      assert RequestInv(s.history, id, s.live[id]);
      assert s.history[Started(id)] == 0;
      assert Received(id, s.live[id].shares) in s.history;
    } else {
      assert Started(id) in s.history + News(s, step) ==> Started(id) in s.history;
    }
  }

  lemma HistoryKept(s: State, step: Step)
    requires Inv(s) && Enabled(s, step)
    ensures HistoryInv(Next(s, step))
  {
    var t := Next(s, step);
    forall id, p | Stored(id, p) in t.history && id !in t.store
      ensures Accounted(t.history, id)
    {
      GoneKept(s, step, id, p);
    }
    forall id
      ensures t.history[Started(id)] <= 1
      ensures Started(id) in t.history ==> !Fresh(t.history, id)
    {
      StartsKept(s, step, id);
    }
    forall id, p | Stored(id, p) in t.history
      ensures !Fresh(t.history, id)
    {
      StoredIsReceived(s, step, id, p);
    }
    forall id
      ensures !(Stored(id, true) in t.history && Stored(id, false) in t.history)
      ensures ResultCallback(id) in t.history ==> !Fresh(t.history, id)
    {
      StoredOnce(s, step, id);
    }
  }

  lemma StoredOnce(s: State, step: Step, id: Id)
    requires Inv(s) && Enabled(s, step)
    ensures var h := s.history + News(s, step);
            && !(Stored(id, true) in h && Stored(id, false) in h)
            && (ResultCallback(id) in h ==> !Fresh(h, id))
  {
    NewsIs(s, step);
    if step == CallBack(id) {
      assert RequestInv(s.history, id, s.live[id]);
      assert Received(id, s.live[id].shares) in s.history;
    }
  }

  lemma StoredIsReceived(s: State, step: Step, id: Id, p: bool)
    requires Inv(s) && Enabled(s, step)
    requires Stored(id, p) in s.history + News(s, step)
    ensures !Fresh(s.history + News(s, step), id)
  {
    NewsIs(s, step);
    if Stored(id, p) !in s.history {
      assert Received(id, step.shares) in News(s, step);
    }
  }

  lemma StoreKept(s: State, step: Step)
    requires Inv(s) && Enabled(s, step)
    ensures forall id :: id in NextStore(s, step) ==> Stored(id, NextStore(s, step)[id]) in s.history + News(s, step)
  {
  }

  lemma RecoveryKept(s: State, step: Step)
    requires Inv(s) && Enabled(s, step)
    ensures RecoveryInv(Next(s, step))
  {
    StoreKept(s, step);
  }

  lemma ParsedKept(s: State, step: Step)
    requires Inv(s) && Enabled(s, step)
    ensures ParsedInv(Next(s, step))
  {
    NewsIs(s, step);
    forall id | FailureCallback(id) in Next(s, step).history
      ensures Stored(id, true) in Next(s, step).history
    {
      if FailureCallback(id) !in s.history {
        assert Stored(id, s.recovery.todo[id]) in s.history;
      }
    }
  }

  lemma NextKeepsInv(s: State, step: Step)
    requires Inv(s) && Enabled(s, step)
    ensures Inv(Next(s, step))
  {
    LiveKept(s, step);
    HistoryKept(s, step);
    RecoveryKept(s, step);
    ParsedKept(s, step);
  }

  lemma {:induction false} RunKeepsInv(steps: seq<Step>)
    requires Run(steps).Some?
    ensures Inv(Run(steps).value)
  {
    if steps != [] {
      var n := |steps| - 1;
      RunKeepsInv(steps[..n]);
      NextKeepsInv(Run(steps[..n]).value, steps[n]);
    }
  }

  // ----- What holds in every run -----

  /** A stored record is gone only after its callback was attempted, its submission was refused, its task
      panicked, or its handler took the error of the shared variable for a refusal. */
  lemma {:induction false} RecordsAreAccountedFor(steps: seq<Step>, id: Id, p: bool)
    requires Run(steps).Some?
    requires Stored(id, p) in Run(steps).value.history && id !in Run(steps).value.store
    ensures Accounted(Run(steps).value.history, id)
  {
    RunKeepsInv(steps);
  }

  /** Without a panic, and for the handlers that keep their own variable, it is gone only after a callback was
      attempted or the submission refused. */
  lemma {:induction false} CalledBackOrRefused(steps: seq<Step>, id: Id, p: bool)
    requires Run(steps).Some?
    requires var s := Run(steps).value;
             && Stored(id, p) in s.history && id !in s.store
             && BodyPanicked(id) !in s.history && Received(id, true) !in s.history
    ensures var h := Run(steps).value.history;
            ResultCallback(id) in h || FailureCallback(id) in h || SubmissionRefused(id) in h
  {
    RecordsAreAccountedFor(steps, id, p);
  }

  /** A task's body starts at most once over the whole history, restarts included. */
  lemma {:induction false} BodyRunsAtMostOnce(steps: seq<Step>, id: Id)
    requires Run(steps).Some?
    ensures Run(steps).value.history[Started(id)] <= 1
  {
    RunKeepsInv(steps);
  }

  /** A completed recovery pass has reported every record of its snapshot; a record it cannot parse is never
      reported by any pass. */
  lemma {:induction false} CompletePassReportsAll(steps: seq<Step>, id: Id)
    requires Run(steps).Some?
    ensures var s := Run(steps).value;
            && (s.recovery.Over? && s.recovery.complete && id in s.recovery.snapshot ==>
                  FailureCallback(id) in s.history)
            && (Stored(id, false) in s.history ==> FailureCallback(id) !in s.history)
  {
    RunKeepsInv(steps);
  }

  // ----- What one recovery pass does beside the running server -----

  /** The pass has removed what it is through with. */
  predicate RemovedSoFar(s: State, id: Id) {
    match s.recovery
    case NotRun => true
    case Going(snapshot, todo) =>
      && (id in todo ==> id in snapshot)
      && (id in snapshot ==> !Fresh(s.history, id))
      && (id in snapshot && id in s.store ==> id in todo)
    case Reported(snapshot, at, todo) =>
      && (id in todo ==> id in snapshot)
      && (id in snapshot ==> !Fresh(s.history, id))
      && (id in snapshot && id in s.store ==> id in todo || id == at)
    case Over(snapshot, complete) =>
      complete && id in snapshot ==> id !in s.store && !Fresh(s.history, id)
  }

  /** Every deletion of the pass works. */
  predicate Deleting(steps: seq<Step>) {
    forall i :: 0 <= i < |steps| && steps[i].RecoverCancel? ==> steps[i].deleted
  }

  lemma StoreGrows(s: State, step: Step, id: Id)
    requires Enabled(s, step)
    ensures id in NextStore(s, step) ==> id in s.store || (step.Receive? && step.id == id && Fresh(s.history, id))
    ensures !Fresh(s.history, id) ==> !Fresh(s.history + News(s, step), id)
  {
  }

  lemma RemovalKept(s: State, step: Step, id: Id)
    requires Inv(s) && Enabled(s, step) && RemovedSoFar(s, id)
    requires step.RecoverCancel? ==> step.deleted
    ensures RemovedSoFar(Next(s, step), id)
  {
    StoreGrows(s, step, id);
    if step.Snapshot? && id in s.store {
      assert Stored(id, s.store[id]) in s.history;
    }
  }

  lemma {:induction false} RunRemoves(steps: seq<Step>, id: Id)
    requires Run(steps).Some? && Deleting(steps)
    ensures RemovedSoFar(Run(steps).value, id)
  {
    if steps != [] {
      var n := |steps| - 1;
      RunRemoves(steps[..n], id);
      RunKeepsInv(steps[..n]);
      RemovalKept(Run(steps[..n]).value, steps[n], id);
    }
  }

  /** In every run, whatever the server does meanwhile: after a completed pass whose deletions worked none of the
      records of its snapshot is stored. */
  lemma {:induction false} CompletePassRemovesAll(steps: seq<Step>, id: Id)
    requires Run(steps).Some? && Deleting(steps)
    ensures var s := Run(steps).value;
            s.recovery.Over? && s.recovery.complete && id in s.recovery.snapshot ==> id !in s.store
  {
    RunRemoves(steps, id);
  }

  /** A deletion of the pass is about a record of its snapshot, and touches no other. */
  predicate OnlySnapshot(s: State) {
    && (s.recovery.Going? || s.recovery.Reported? ==> s.recovery.todo.Keys <= s.recovery.snapshot)
    && (s.recovery.Reported? ==> s.recovery.id in s.recovery.snapshot)
  }

  lemma {:induction false} RunStaysInSnapshot(steps: seq<Step>)
    requires Run(steps).Some?
    ensures OnlySnapshot(Run(steps).value)
  {
    if steps != [] {
      RunStaysInSnapshot(steps[..|steps| - 1]);
    }
  }

  lemma {:induction false} PassDeletesItsOwn(steps: seq<Step>, deleted: bool)
    requires Run(steps).Some? && Enabled(Run(steps).value, RecoverCancel(deleted))
    ensures var s := Run(steps).value;
            && s.recovery.id in s.recovery.snapshot
            && Next(s, RecoverCancel(deleted)).store == if deleted then s.store - {s.recovery.id} else s.store
  {
    RunStaysInSnapshot(steps);
  }

  /** How many failures the pass has reported of a request, over what was reported before it. */
  predicate ReportedSoFar(h: multiset<Event>, snapshot: set<Id>, s: State, id: Id) {
    var now, was := s.history[FailureCallback(id)], h[FailureCallback(id)];
    match s.recovery
    case NotRun => false
    case Going(taken, todo) => taken == snapshot && now == was + if id in snapshot && id !in todo then 1 else 0
    case Reported(taken, _, todo) => taken == snapshot && now == was + if id in snapshot && id !in todo then 1 else 0
    case Over(taken, complete) => taken == snapshot && (complete ==> now == was + if id in snapshot then 1 else 0)
  }

  lemma ReportsKept(h: multiset<Event>, snapshot: set<Id>, s: State, step: Step, id: Id)
    requires Enabled(s, step) && !EndsProcess(step) && OnlySnapshot(s) && ReportedSoFar(h, snapshot, s, id)
    ensures ReportedSoFar(h, snapshot, Next(s, step), id)
  {
    FailuresGrow(s, step, id);
  }

  lemma FailuresGrow(s: State, step: Step, id: Id)
    requires Enabled(s, step)
    ensures (s.history + News(s, step))[FailureCallback(id)] ==
            s.history[FailureCallback(id)] + if step == RecoverCall(id) then 1 else 0
  {
  }

  lemma SnapshotTaken(s: State, id: Id)
    requires Enabled(s, Snapshot)
    ensures ReportedSoFar(s.history, s.store.Keys, Next(s, Snapshot), id)
  {
  }

  /** The pass that starts with the k-th step is not ended by the end of the process. */
  predicate PassFrom(steps: seq<Step>, k: nat) {
    k < |steps| && steps[k].Snapshot? && forall i :: k < i < |steps| ==> !EndsProcess(steps[i])
  }

  lemma {:induction false} PassReports(steps: seq<Step>, k: nat, id: Id)
    requires Run(steps).Some? && PassFrom(steps, k)
    ensures Run(steps[..k]).Some?
    ensures ReportedSoFar(Run(steps[..k]).value.history, Run(steps[..k]).value.store.Keys, Run(steps).value, id)
  {
    var n := |steps| - 1;
    var before := Run(steps[..n]).value;
    if k == n {
      SnapshotTaken(before, id);
    } else {
      assert steps[..n][..k] == steps[..k];
      PassReports(steps[..n], k, id);
      RunStaysInSnapshot(steps[..n]);
      ReportsKept(Run(steps[..k]).value.history, Run(steps[..k]).value.store.Keys, before, steps[n], id);
    }
  }

  /** A completed pass adds exactly one failure callback for each record that was stored when it took its snapshot,
      and none for any other request, whatever happens beside it. */
  lemma {:induction false} CompletePassReportsOnce(steps: seq<Step>, k: nat, id: Id)
    requires Run(steps).Some? && PassFrom(steps, k)
    ensures Run(steps[..k]).Some?
    ensures var start, end := Run(steps[..k]).value, Run(steps).value;
            end.recovery.Over? && end.recovery.complete ==>
              && end.recovery.snapshot == start.store.Keys
              && end.history[FailureCallback(id)] ==
                   start.history[FailureCallback(id)] + if id in start.store then 1 else 0
  {
    PassReports(steps, k, id);
  }

  lemma {:induction false} Extends(steps: seq<Step>, step: Step)
    requires Run(steps).Some? && Enabled(Run(steps).value, step)
    ensures Run(steps + [step]) == Some(Next(Run(steps).value, step))
  {
    assert (steps + [step])[..|steps|] == steps;
  }

  lemma {:induction false} Then(steps: seq<Step>, s: State, step: Step, t: State)
    requires Run(steps) == Some(s) && Enabled(s, step) && Next(s, step) == t
    ensures Run(steps + [step]) == Some(t)
  {
    Extends(steps, step);
  }

  lemma {:induction false} Crashes(steps: seq<Step>)
    requires Run(steps).Some? && Run(steps).value.up
    ensures var s := Run(steps).value;
            Run(steps + [Crash]) == Some(State(s.store, map[], false, NotRun, s.history))
  {
    var s := Run(steps).value;
    Then(steps, s, Crash, State(s.store, map[], false, NotRun, s.history));
  }

  // ----- How many callbacks there can be -----

  function Calls(h: multiset<Event>, id: Id): nat {
    h[ResultCallback(id)] + h[FailureCallback(id)]
  }

  predicate StillToCall(r: Request) {
    r.handler == Receiving || r.task == Outer || r.task == Inner || r.task == Running || r.task == Executed
  }

  /** Recovery finds the record and can parse it. */
  predicate Held(s: State, id: Id) {
    id in s.store && s.store[id]
  }

  predicate Todo(s: State, id: Id) {
    (s.recovery.Going? || s.recovery.Reported?) && id in s.recovery.todo
  }

  predicate TaskToCall(s: State, id: Id) {
    Fresh(s.history, id) || (id in s.live && StillToCall(s.live[id]))
  }

  predicate PassToCall(s: State, id: Id) {
    Todo(s, id) && s.recovery.todo[id]
  }

  /** The callbacks that may yet come without another snapshot: that of the request's task, as long as it has not
      come to it, and that of the recovery pass under way. */
  function Pending(s: State, id: Id): nat {
    (if TaskToCall(s, id) then 1 else 0) + (if PassToCall(s, id) then 1 else 0)
  }

  lemma CallsGrow(s: State, step: Step, id: Id)
    requires Enabled(s, step)
    ensures Calls(s.history + News(s, step), id) ==
            Calls(s.history, id) + if step == CallBack(id) || step == RecoverCall(id) then 1 else 0
  {
  }

  lemma FreshIsUncalled(s: State, id: Id)
    requires Inv(s) && Fresh(s.history, id)
    ensures Calls(s.history, id) == 0 && !Todo(s, id) && id !in s.store && id !in s.live
  {
  }

  lemma FreshAfter(s: State, step: Step, id: Id)
    requires Enabled(s, step)
    ensures Fresh(s.history + News(s, step), id) <==> Fresh(s.history, id) && !(step.Receive? && step.id == id)
  {
  }

  /** What the live request was before. */
  lemma LiveBefore(s: State, step: Step, id: Id)
    requires Enabled(s, step) && id in NextLive(s, step)
    ensures !(step.Receive? && step.id == id) ==>
              id in s.live && NextLive(s, step)[id] ==
                if OfRequest(step) && step.id == id then Changed(s.live[id], step) else s.live[id]
  {
  }

  /** The task's callback is sent at most once, and never for a request that is not to be called back. */
  lemma TaskSpends(s: State, step: Step, id: Id)
    requires Inv(s) && Enabled(s, step)
    ensures TaskToCall(Next(s, step), id) ==> TaskToCall(s, id)
    ensures step == CallBack(id) ==> TaskToCall(s, id) && !TaskToCall(Next(s, step), id)
  {
    FreshAfter(s, step, id);
    if !Fresh(s.history, id) {
      if OfRequest(step) && step.id == id {
        OwnStepSpends(s.live[id], step, s.history);
      }
      if id in NextLive(s, step) {
        LiveBefore(s, step, id);
      }
    } else if OfRequest(step) {
      FreshIsUncalled(s, id);
    }
  }

  lemma OwnStepSpends(r: Request, step: Step, h: multiset<Event>)
    requires OfRequest(step) && Ready(r, step) && RequestInv(h, step.id, r)
    ensures StillToCall(Changed(r, step)) ==> StillToCall(r) && !step.CallBack?
    ensures step.CallBack? ==> StillToCall(r)
  {
  }

  /** The pass sends its callback at most once for each record it has found. */
  lemma PassSpends(s: State, step: Step, id: Id)
    requires Enabled(s, step)
    ensures PassToCall(Next(s, step), id) ==> PassToCall(s, id) || (step.Snapshot? && Held(s, id))
    ensures step == RecoverCall(id) ==> PassToCall(s, id) && !PassToCall(Next(s, step), id)
    ensures step.Snapshot? ==> !PassToCall(s, id)
  {
  }

  /** No step but a snapshot adds to the callbacks made and pending, and a snapshot adds one if it finds the record. */
  lemma PendingIsSpent(s: State, step: Step, id: Id)
    requires Inv(s) && Enabled(s, step)
    ensures var t := Next(s, step);
            Calls(t.history, id) + Pending(t, id) <=
            Calls(s.history, id) + Pending(s, id) + if step.Snapshot? && Held(s, id) then 1 else 0
  {
    CallsGrow(s, step, id);
    TaskSpends(s, step, id);
    PassSpends(s, step, id);
  }

  predicate Continues(steps: seq<Step>, more: seq<Step>) {
    steps <= more && Run(more).Some?
  }

  predicate NoSnapshot(steps: seq<Step>, from: nat) {
    forall i :: from <= i < |steps| ==> !steps[i].Snapshot?
  }

  lemma {:induction false} SpentOverRun(steps: seq<Step>, more: seq<Step>, id: Id)
    requires Continues(steps, more) && NoSnapshot(more, |steps|)
    ensures Run(steps).Some?
    ensures Calls(Run(more).value.history, id) + Pending(Run(more).value, id) <=
            Calls(Run(steps).value.history, id) + Pending(Run(steps).value, id)
    decreases |more|
  {
    if |steps| == |more| {
      assert steps == more;
    } else {
      var n := |more| - 1;
      SpentOverRun(steps, more[..n], id);
      RunKeepsInv(more[..n]);
      PendingIsSpent(Run(more[..n]).value, more[n], id);
    }
  }

  // The callbacks that are pending can all come.

  lemma Follows(steps: seq<Step>, more: seq<Step>, step: Step) returns (longer: seq<Step>)
    requires Continues(steps, more) && NoSnapshot(more, |steps|) && Enabled(Run(more).value, step) && !step.Snapshot?
    ensures Continues(steps, longer) && NoSnapshot(longer, |steps|)
    ensures Run(longer) == Some(Next(Run(more).value, step))
  {
    Extends(more, step);
    longer := more + [step];
  }

  /** The step that takes a task further, if nothing goes wrong. */
  function Onward(id: Id, r: Request): Step
    requires StillToCall(r)
  {
    if r.handler == Receiving then Submit(id, true)
    else if r.task == Outer then SubmitInner(id, true)
    else if r.task == Inner then Start(id)
    else if r.task == Running then BodyEnds(id, false)
    else CallBack(id)
  }

  function Distance(r: Request): nat {
    if r.handler == Receiving then 4 else if r.task == Outer then 3 else if r.task == Inner then 2
    else if r.task == Running then 1 else 0
  }

  lemma OnwardIsNearer(id: Id, r: Request)
    requires StillToCall(r)
    ensures OfRequest(Onward(id, r)) && Ready(r, Onward(id, r)) && Onward(id, r).id == id
    ensures !Onward(id, r).CallBack? ==> StillToCall(Changed(r, Onward(id, r)))
    ensures !Onward(id, r).CallBack? ==> Distance(Changed(r, Onward(id, r))) < Distance(r)
  {
  }

  lemma {:induction false} TaskCalls(steps: seq<Step>, more: seq<Step>, id: Id) returns (longer: seq<Step>)
    requires Continues(steps, more) && NoSnapshot(more, |steps|)
    requires id in Run(more).value.live && StillToCall(Run(more).value.live[id])
    ensures Continues(steps, longer) && NoSnapshot(longer, |steps|)
    ensures Calls(Run(longer).value.history, id) == Calls(Run(more).value.history, id) + 1
    decreases Distance(Run(more).value.live[id])
  {
    var s := Run(more).value;
    var step := Onward(id, s.live[id]);
    OnwardIsNearer(id, s.live[id]);
    CallsGrow(s, step, id);
    longer := Follows(steps, more, step);
    if !step.CallBack? {
      longer := TaskCalls(steps, longer, id);
    }
  }

  lemma IsReceived(steps: seq<Step>, id: Id) returns (more: seq<Step>)
    requires Run(steps).Some? && Fresh(Run(steps).value.history, id)
    ensures Continues(steps, more) && NoSnapshot(more, |steps|)
    ensures id in Run(more).value.live && StillToCall(Run(more).value.live[id])
    ensures Calls(Run(more).value.history, id) == Calls(Run(steps).value.history, id)
  {
    more := steps;
    if !Run(more).value.up {
      CallsGrow(Run(more).value, Restart, id);
      FreshAfter(Run(more).value, Restart, id);
      more := Follows(steps, more, Restart);
    }
    CallsGrow(Run(more).value, Receive(id, false, true, true), id);
    more := Follows(steps, more, Receive(id, false, true, true));
  }

  lemma PassCalls(steps: seq<Step>, id: Id) returns (more: seq<Step>)
    requires Run(steps).Some? && PassToCall(Run(steps).value, id)
    ensures Continues(steps, more) && NoSnapshot(more, |steps|)
    ensures Run(more).value.live == Run(steps).value.live
    ensures Calls(Run(more).value.history, id) == Calls(Run(steps).value.history, id) + 1
  {
    more := steps;
    if Run(more).value.recovery.Reported? {
      CallsGrow(Run(more).value, RecoverCancel(true), id);
      more := Follows(steps, more, RecoverCancel(true));
    }
    CallsGrow(Run(more).value, RecoverCall(id), id);
    more := Follows(steps, more, RecoverCall(id));
  }

  lemma PendingCome(steps: seq<Step>, id: Id) returns (more: seq<Step>)
    requires Run(steps).Some?
    ensures Continues(steps, more) && NoSnapshot(more, |steps|)
    ensures Calls(Run(more).value.history, id) == Calls(Run(steps).value.history, id) + Pending(Run(steps).value, id)
  {
    var s := Run(steps).value;
    more := steps;
    if Fresh(s.history, id) {
      RunKeepsInv(steps);
      FreshIsUncalled(s, id);
      more := IsReceived(steps, id);
      more := TaskCalls(steps, more, id);
    } else {
      if PassToCall(s, id) {
        more := PassCalls(steps, id);
      }
      if TaskToCall(s, id) {
        more := TaskCalls(steps, more, id);
      }
    }
  }

  /** After any run, the callbacks a request can come to without another snapshot of the store are exactly those made
      and those pending: no continuation makes more, and one makes as many. */
  lemma {:induction false} MostCalls(steps: seq<Step>, id: Id)
    requires Run(steps).Some?
    ensures var most := Calls(Run(steps).value.history, id) + Pending(Run(steps).value, id);
            && (forall more :: Continues(steps, more) && NoSnapshot(more, |steps|) ==>
                  Calls(Run(more).value.history, id) <= most)
            && (exists more :: Continues(steps, more) && NoSnapshot(more, |steps|) &&
                  Calls(Run(more).value.history, id) == most)
  {
    forall more | Continues(steps, more) && NoSnapshot(more, |steps|)
      ensures Calls(Run(more).value.history, id) <=
              Calls(Run(steps).value.history, id) + Pending(Run(steps).value, id)
    {
      SpentOverRun(steps, more, id);
    }
    var all := PendingCome(steps, id);
  }

  // With snapshots.

  lemma QuietStays(s: State, step: Step, id: Id)
    requires Inv(s) && Enabled(s, step) && Pending(s, id) == 0 && !Held(s, id)
    ensures Calls(Next(s, step).history, id) == Calls(s.history, id)
    ensures Pending(Next(s, step), id) == 0 && !Held(Next(s, step), id)
  {
    PendingIsSpent(s, step, id);
    CallsGrow(s, step, id);
  }

  lemma {:induction false} QuietOverRun(steps: seq<Step>, more: seq<Step>, id: Id)
    requires Continues(steps, more) && Run(steps).Some?
    requires Pending(Run(steps).value, id) == 0 && !Held(Run(steps).value, id)
    ensures Calls(Run(more).value.history, id) == Calls(Run(steps).value.history, id)
    ensures Pending(Run(more).value, id) == 0 && !Held(Run(more).value, id)
    decreases |more|
  {
    if |steps| == |more| {
      assert steps == more;
    } else {
      var n := |more| - 1;
      QuietOverRun(steps, more[..n], id);
      RunKeepsInv(more[..n]);
      QuietStays(Run(more[..n]).value, more[n], id);
    }
  }

  /** The process ends, if it is up, and starts again. */
  lemma StartsAgain(steps: seq<Step>) returns (more: seq<Step>)
    requires Run(steps).Some?
    ensures var s := Run(steps).value;
            Continues(steps, more) && Run(more) == Some(State(s.store, map[], true, NotRun, s.history))
  {
    var s := Run(steps).value;
    more := steps;
    if !s.up {
      Then(more, s, Restart, s.(up := true));
      more := more + [Restart];
    }
    Crashes(more);
    more := more + [Crash];
    var down := State(s.store, map[], false, NotRun, s.history);
    Then(more, down, Restart, down.(up := true));
    more := more + [Restart];
  }

  /** A record without a live request is reported by the next pass. */
  lemma ReportsOrphan(steps: seq<Step>, id: Id) returns (more: seq<Step>)
    requires Run(steps).Some? && Held(Run(steps).value, id)
    requires var s := Run(steps).value; s == State(s.store, map[], true, NotRun, s.history)
    ensures Continues(steps, more)
    ensures var s := Run(steps).value;
            Run(more) == Some(State(s.store, map[], true, Reported(s.store.Keys, id, s.store - {id}),
                                    s.history + multiset{FailureCallback(id)}))
  {
    var s := Run(steps).value;
    var taken := State(s.store, map[], true, Going(s.store.Keys, s.store), s.history);
    Then(steps, s, Snapshot, taken);
    more := steps + [Snapshot];
    Then(more, taken, RecoverCall(id),
         State(s.store, map[], true, Reported(s.store.Keys, id, s.store - {id}),
               s.history + multiset{FailureCallback(id)}));
    more := more + [RecoverCall(id)];
  }

  /** So a record that is held can always be reported by the next process. */
  lemma HeldIsReported(steps: seq<Step>, id: Id) returns (more: seq<Step>)
    requires Run(steps).Some? && Held(Run(steps).value, id)
    ensures Continues(steps, more)
    ensures Calls(Run(more).value.history, id) == Calls(Run(steps).value.history, id) + 1
  {
    more := StartsAgain(steps);
    more := ReportsOrphan(more, id);
  }

  /** After any run, a request may be called back once more if and only if its record is held, or a callback is
      pending. */
  lemma {:induction false} CalledAgain(steps: seq<Step>, id: Id)
    requires Run(steps).Some?
    ensures var s := Run(steps).value;
            (exists more :: Continues(steps, more) && Calls(Run(more).value.history, id) > Calls(s.history, id)) <==>
            Held(s, id) || Pending(s, id) > 0
  {
    var s := Run(steps).value;
    if Held(s, id) {
      var more := HeldIsReported(steps, id);
    } else if Pending(s, id) > 0 {
      var more := PendingCome(steps, id);
    } else {
      forall more | Continues(steps, more)
        ensures Calls(Run(more).value.history, id) == Calls(s.history, id)
      {
        QuietOverRun(steps, more, id);
      }
    }
  }

  // ----- At most one callback -----

  /** A snapshot now finds a record whose request has been called back, or whose task may yet call back. */
  predicate Unsafe(s: State, id: Id) {
    Held(s, id) && (Calls(s.history, id) > 0 || TaskToCall(s, id))
  }

  predicate SafeRun(steps: seq<Step>, id: Id) {
    steps == [] ||
    var n := |steps| - 1;
    SafeRun(steps[..n], id) && Run(steps[..n]).Some? && (steps[n].Snapshot? ==> !Unsafe(Run(steps[..n]).value, id))
  }

  /** As long as no snapshot is unsafe for it, a request is called back at most once, in whatever order the rest
      happens, and whatever crashes and failing deletions there are. */
  lemma {:induction false} SafeRunCallsOnce(steps: seq<Step>, id: Id)
    requires SafeRun(steps, id) && Run(steps).Some?
    ensures Calls(Run(steps).value.history, id) + Pending(Run(steps).value, id) <= 1
  {
    if steps != [] {
      var n := |steps| - 1;
      SafeRunCallsOnce(steps[..n], id);
      RunKeepsInv(steps[..n]);
      PendingIsSpent(Run(steps[..n]).value, steps[n], id);
    }
  }

  /** And that is exactly what matters: after a run that was safe so far, a snapshot can be followed by callbacks that
      add up to two, without another snapshot, if and only if it is unsafe. */
  lemma {:induction false} UnsafeCallsTwice(steps: seq<Step>, id: Id)
    requires SafeRun(steps, id) && Run(steps).Some? && Enabled(Run(steps).value, Snapshot)
    ensures var taken := steps + [Snapshot];
            Unsafe(Run(steps).value, id) <==>
            exists more :: Continues(taken, more) && NoSnapshot(more, |taken|)
                           && Calls(Run(more).value.history, id) == 2
  {
    var s, taken := Run(steps).value, steps + [Snapshot];
    Extends(steps, Snapshot);
    SafeRunCallsOnce(steps, id);
    RunKeepsInv(steps);
    CallsGrow(s, Snapshot, id);
    FreshAfter(s, Snapshot, id);
    MostCalls(taken, id);
    if Held(s, id) {
      assert !Fresh(s.history, id);
    }
  }

  /** No end of the process between a callback and the deletion it is followed by, the snapshot before the first
      request of the process, and deletions that work. */
  predicate Mild(s: State, step: Step) {
    && (EndsProcess(step) ==> !s.recovery.Reported? && forall id :: id in s.live ==> s.live[id].task != CalledBack)
    && (step.Snapshot? ==> s.live == map[])
    && (step.Done? || step.RecoverCancel? ==> step.deleted)
  }

  predicate MildRun(steps: seq<Step>) {
    steps == [] ||
    var n := |steps| - 1;
    MildRun(steps[..n]) && Run(steps[..n]).Some? && Mild(Run(steps[..n]).value, steps[n])
  }

  /** Between its callback and its deletion. */
  predicate BeingDeleted(s: State, id: Id) {
    (id in s.live && s.live[id].task == CalledBack) || (s.recovery.Reported? && s.recovery.id == id)
  }

  /** It takes a deletion or the end of the process to end that. */
  lemma StaysBeingDeleted(s: State, step: Step, id: Id)
    requires Inv(s) && Enabled(s, step) && Mild(s, step)
    requires BeingDeleted(s, id) && !Fresh(s.history, id)
    ensures BeingDeleted(Next(s, step), id) || id !in NextStore(s, step)
  {
  }

  lemma MildKeepsDeleting(s: State, step: Step, id: Id)
    requires Inv(s) && Enabled(s, step) && Mild(s, step)
    requires id in s.store && Calls(s.history, id) > 0 ==> BeingDeleted(s, id)
    ensures var t := Next(s, step);
            id in t.store && Calls(t.history, id) > 0 ==> BeingDeleted(t, id)
  {
    CallsGrow(s, step, id);
    if Fresh(s.history, id) {
      FreshIsUncalled(s, id);
    } else {
      StoreGrows(s, step, id);
      if id in s.store && Calls(s.history, id) > 0 {
        StaysBeingDeleted(s, step, id);
      }
    }
  }

  lemma {:induction false} MildRunIsSafe(steps: seq<Step>, id: Id)
    requires MildRun(steps) && Run(steps).Some?
    ensures var s := Run(steps).value; id in s.store && Calls(s.history, id) > 0 ==> BeingDeleted(s, id)
    ensures SafeRun(steps, id)
  {
    if steps != [] {
      var n := |steps| - 1;
      MildRunIsSafe(steps[..n], id);
      RunKeepsInv(steps[..n]);
      var s := Run(steps[..n]).value;
      MildKeepsDeleting(s, steps[n], id);
      if Held(s, id) {
        assert !Fresh(s.history, id);
      }
    }
  }

  /** So under these conditions no request is called back twice. */
  lemma {:induction false} AtMostOneCallback(steps: seq<Step>, id: Id)
    ensures MildRun(steps) && Run(steps).Some? ==> Calls(Run(steps).value.history, id) <= 1
  {
    if MildRun(steps) && Run(steps).Some? {
      MildRunIsSafe(steps, id);
      SafeRunCallsOnce(steps, id);
    }
  }

  // ----- Runs that show the limits -----

  const IN_STORE := map["a" := true]

  /** The process is up and knows one request, whose record is stored. */
  function One(r: Request, recovery: Recovery, h: multiset<Event>): State {
    State(IN_STORE, map["a" := r], true, recovery, h)
  }

  /** The one request moves on and keeps its record. */
  lemma {:induction false} Moves(steps: seq<Step>, r: Request, recovery: Recovery, h: multiset<Event>,
                                 step: Step, t: Request, more: multiset<Event>)
    requires Run(steps) == Some(One(r, recovery, h))
    requires OfRequest(step) && step.id == "a" && Ready(r, step) && !Deletes(step)
    requires Changed(r, step) == t && h + Heard(r, step) == more
    ensures Run(steps + [step]) == Some(One(t, recovery, more))
  {
    var before := One(r, recovery, h);
    MovesTo(before, step);
    assert map["a" := r]["a" := t] == map["a" := t];
    Then(steps, before, step, One(t, recovery, more));
  }

  lemma MovesTo(s: State, step: Step)
    requires OfRequest(step) && !Deletes(step) && Enabled(s, step)
    ensures Next(s, step) ==
            State(s.store, s.live[step.id := Changed(s.live[step.id], step)], s.up, s.recovery,
                  s.history + Heard(s.live[step.id], step))
  {
  }

  /** The record is deleted with the step. */
  lemma {:induction false} Ends(steps: seq<Step>, r: Request, h: multiset<Event>, step: Step)
    requires Run(steps) == Some(One(r, NotRun, h))
    requires OfRequest(step) && step.id == "a" && Ready(r, step) && Deletes(step) && Heard(r, step) == multiset{}
    ensures Run(steps + [step]) == Some(State(map[], map["a" := Changed(r, step)], true, NotRun, h))
  {
    var t := Changed(r, step);
    DeletesAt(One(r, NotRun, h), step);
    assert map["a" := r]["a" := t] == map["a" := t];
    assert IN_STORE - {"a"} == map[];
    assert h + multiset{} == h;
    Then(steps, One(r, NotRun, h), step, State(map[], map["a" := t], true, NotRun, h));
  }

  lemma DeletesAt(s: State, step: Step)
    requires OfRequest(step) && Deletes(step) && Enabled(s, step)
    ensures Next(s, step) ==
            State(s.store - {step.id}, s.live[step.id := Changed(s.live[step.id], step)], s.up, s.recovery,
                  s.history + Heard(s.live[step.id], step))
  {
  }

  const NEW := Request(true, Receiving, Unborn, false)
  const AT_WORK := Request(true, Checking, Running, false)
  const EXECUTED := Request(true, Checking, Executed, false)
  const RECEIVED := multiset{Received("a", true), Stored("a", true)}

  /** A request is accepted and stored. */
  lemma Accepted() returns (steps: seq<Step>)
    ensures Run(steps) == Some(One(NEW, NotRun, RECEIVED))
  {
    assert Run([]) == Some(INIT);
    var up := State(map[], map[], true, NotRun, multiset{});
    Then([], INIT, Restart, up);
    steps := [] + [Restart];
    Then(steps, up, Receive("a", true, true, true), One(NEW, NotRun, RECEIVED));
    steps := steps + [Receive("a", true, true, true)];
  }

  /** From there its task starts. */
  lemma Launched(steps: seq<Step>, r: Recovery, h: multiset<Event>) returns (more: seq<Step>)
    requires Run(steps) == Some(One(NEW, r, h))
    ensures Run(more) == Some(One(AT_WORK, r, h + multiset{Started("a")}))
  {
    var outer := Request(true, Submitted, Outer, false);
    Moves(steps, NEW, r, h, Submit("a", true), outer, h);
    more := steps + [Submit("a", true)];
    Moves(more, outer, r, h, SubmitReturns("a"), outer.(handler := Checking), h);
    more := more + [SubmitReturns("a")];
    var inner := Request(true, Checking, Inner, false);
    Moves(more, outer.(handler := Checking), r, h, SubmitInner("a", true), inner, h);
    more := more + [SubmitInner("a", true)];
    Moves(more, inner, r, h, Start("a"), AT_WORK, h + multiset{Started("a")});
    more := more + [Start("a")];
  }

  /** And its result is called back. */
  lemma CalledBackOnce(steps: seq<Step>, r: Recovery, h: multiset<Event>) returns (more: seq<Step>)
    requires Run(steps) == Some(One(NEW, r, h))
    ensures Run(more) ==
      Some(One(EXECUTED.(task := CalledBack), r, h + multiset{Started("a")} + multiset{ResultCallback("a")}))
  {
    more := Launched(steps, r, h);
    var h1 := h + multiset{Started("a")};
    Moves(more, AT_WORK, r, h1, BodyEnds("a", false), EXECUTED, h1);
    more := more + [BodyEnds("a", false)];
    Moves(more, EXECUTED, r, h1, CallBack("a"), EXECUTED.(task := CalledBack), h1 + multiset{ResultCallback("a")});
    more := more + [CallBack("a")];
  }

  const DENIED := RECEIVED + multiset{Started("a")} + multiset{Denied("a")}

  /** The task reports an error before the handler looks at the variable they share. */
  lemma ErrorSeenByHandler() returns (steps: seq<Step>)
    ensures Run(steps) == Some(One(EXECUTED.(failed := true, handler := Denying), NotRun, DENIED))
  {
    steps := Accepted();
    steps := Launched(steps, NotRun, RECEIVED);
    var h := RECEIVED + multiset{Started("a")};
    var failed := EXECUTED.(failed := true);
    Moves(steps, AT_WORK, NotRun, h, BodyEnds("a", true), failed, h);
    steps := steps + [BodyEnds("a", true)];
    Moves(steps, failed, NotRun, h, Check("a"), failed.(handler := Denying), DENIED);
    steps := steps + [Check("a")];
  }

  lemma RecordGone() returns (steps: seq<Step>)
    ensures Run(steps) ==
      Some(State(map[], map["a" := EXECUTED.(failed := true, handler := Answered)], true, NotRun, DENIED))
  {
    steps := ErrorSeenByHandler();
    var r := EXECUTED.(failed := true, handler := Denying);
    Ends(steps, r, DENIED, Cancel("a", true));
    steps := steps + [Cancel("a", true)];
  }

  /** The shared variable: a reconfiguration that fails before the handler looks at the variable loses its
      record while its task is under way, so a crash now leaves it without any callback. */
  lemma DeniedWhileRunning()
    ensures exists steps :: Run(steps) == Some(State(map[], map[], false, NotRun, DENIED))
    ensures Stored("a", true) in DENIED && Started("a") in DENIED && Calls(DENIED, "a") == 0
    ensures SubmissionRefused("a") !in DENIED && BodyPanicked("a") !in DENIED
  {
    var steps := RecordGone();
    Crashes(steps);
    assert Run(steps + [Crash]) == Some(State(map[], map[], false, NotRun, DENIED));
  }

  /** Recovery racing with the server: a request accepted before the snapshot is reported as failed and later
      called back with its result. */
  lemma CalledBackTwice()
    ensures exists steps :: Run(steps).Some? && Calls(Run(steps).value.history, "a") == 2
  {
    var steps := Accepted();
    var taken := One(NEW, Going({"a"}, IN_STORE), RECEIVED);
    assert IN_STORE.Keys == {"a"} && IN_STORE - {"a"} == map[];
    Then(steps, One(NEW, NotRun, RECEIVED), Snapshot, taken);
    steps := steps + [Snapshot];
    var r := Reported({"a"}, "a", map[]);
    var h := RECEIVED + multiset{FailureCallback("a")};
    Then(steps, taken, RecoverCall("a"), One(NEW, r, h));
    steps := CalledBackOnce(steps + [RecoverCall("a")], r, h);
    assert Run(steps).Some?;
  }

  const CALLED := RECEIVED + multiset{Started("a")} + multiset{ResultCallback("a")}

  /** A crash between a callback and the deletion makes the next process report the request once more. */
  lemma CalledBackAgainAfterCrash()
    ensures exists steps :: Run(steps).Some? && Run(steps).value.history == CALLED + multiset{FailureCallback("a")}
  {
    var steps := RestartedAfterCallback();
    steps := ReportsOrphan(steps, "a");
    assert Run(steps).Some?;
  }

  /** A pass that ends with its process between a callback and the deletion leaves the record to be reported again. */
  lemma ReportedTwice()
    ensures exists steps :: Run(steps).Some? && Run(steps).value.history == RECEIVED + FAILED + FAILED
  {
    var steps := Accepted();
    steps := StartsAgain(steps);
    steps := ReportsOrphan(steps, "a");
    steps := StartsAgain(steps);
    steps := ReportsOrphan(steps, "a");
    assert Run(steps).Some?;
  }

  const FAILED := multiset{FailureCallback("a")}

  lemma RestartedAfterCallback() returns (steps: seq<Step>)
    ensures Run(steps) == Some(State(IN_STORE, map[], true, NotRun, CALLED))
  {
    steps := Accepted();
    steps := CalledBackOnce(steps, NotRun, RECEIVED);
    steps := StartsAgain(steps);
  }

  const PANICKED := RECEIVED + multiset{Started("a")} + multiset{BodyPanicked("a")}

  /** A panic in a task's body deletes the record without a callback. */
  lemma PanicIsSilent()
    ensures exists steps :: Run(steps).Some? && Run(steps).value.store == map[] && Run(steps).value.history == PANICKED
    ensures Stored("a", true) in PANICKED && Calls(PANICKED, "a") == 0
  {
    var steps := Panicking();
    Ends(steps, AT_WORK.(task := Aborted), PANICKED, Done("a", true));
    assert Run(steps + [Done("a", true)]).Some?;
  }

  lemma Panicking() returns (steps: seq<Step>)
    ensures Run(steps) == Some(One(AT_WORK.(task := Aborted), NotRun, PANICKED))
  {
    steps := Accepted();
    steps := Launched(steps, NotRun, RECEIVED);
    var h := RECEIVED + multiset{Started("a")};
    Moves(steps, AT_WORK, NotRun, h, BodyPanics("a"), AT_WORK.(task := Aborted), PANICKED);
    steps := steps + [BodyPanics("a")];
  }

  // ----- Runs that go as they should -----

  /** A request is called back with its result, and its record deleted. */
  lemma CalledBackAndDone()
    ensures exists steps ::
      Run(steps) == Some(State(map[], map["a" := EXECUTED.(task := Finished)], true, NotRun, CALLED))
  {
    var steps := Accepted();
    steps := CalledBackOnce(steps, NotRun, RECEIVED);
    Ends(steps, EXECUTED.(task := CalledBack), CALLED, Done("a", true));
  }

  const REFUSED := RECEIVED + multiset{SubmissionRefused("a")}

  /** A refused request loses its record without a callback. */
  lemma RefusedAndCancelled()
    ensures exists steps ::
      Run(steps) == Some(State(map[], map["a" := Request(true, Answered, Unborn, false)], true, NotRun, REFUSED))
  {
    var steps := Accepted();
    Moves(steps, NEW, NotRun, RECEIVED, Submit("a", false), NEW.(handler := Refused), REFUSED);
    Ends(steps + [Submit("a", false)], NEW.(handler := Refused), REFUSED, Cancel("a", true));
  }

  /** The pass deletes the record it has reported. */
  lemma PassDeletes(steps: seq<Step>, h: multiset<Event>) returns (more: seq<Step>)
    requires Run(steps) == Some(State(IN_STORE, map[], true, Reported({"a"}, "a", map[]), h))
    ensures Run(more) == Some(State(map[], map[], true, Going({"a"}, map[]), h))
  {
    assert IN_STORE - {"a"} == map[];
    assert h + multiset{} == h;
    Then(steps, State(IN_STORE, map[], true, Reported({"a"}, "a", map[]), h), RecoverCancel(true),
      State(map[], map[], true, Going({"a"}, map[]), h));
    more := steps + [RecoverCancel(true)];
  }

  lemma Reports() returns (steps: seq<Step>)
    ensures Run(steps) == Some(State(IN_STORE, map[], true, Reported({"a"}, "a", map[]), RECEIVED + FAILED))
  {
    steps := Accepted();
    steps := StartsAgain(steps);
    steps := ReportsOrphan(steps, "a");
    assert IN_STORE.Keys == {"a"} && IN_STORE - {"a"} == map[];
  }

  /** A pass reports a record it finds, deletes it and is complete. */
  lemma PassCompletes()
    ensures exists steps :: Run(steps) == Some(State(map[], map[], true, Over({"a"}, true), RECEIVED + FAILED))
  {
    var steps := Reports();
    var h := RECEIVED + FAILED;
    steps := PassDeletes(steps, h);
    Then(steps, State(map[], map[], true, Going({"a"}, map[]), h), RecoverEnds,
      State(map[], map[], true, Over({"a"}, true), h));
  }

  const UNPARSED := multiset{Received("a", true), Stored("a", false)}

  const NOT_PARSED := map["a" := false]

  lemma ReceivedUnparsed() returns (steps: seq<Step>)
    ensures Run(steps) == Some(State(NOT_PARSED, map["a" := NEW], true, NotRun, UNPARSED))
  {
    assert Run([]) == Some(INIT);
    var up := State(map[], map[], true, NotRun, multiset{});
    Then([], INIT, Restart, up);
    steps := [] + [Restart];
    Then(steps, up, Receive("a", true, true, false), State(NOT_PARSED, map["a" := NEW], true, NotRun, UNPARSED));
    steps := steps + [Receive("a", true, true, false)];
  }

  /** A record that does not parse stops the pass, which is then not complete and has changed nothing. */
  lemma UnparsedStops()
    ensures exists steps :: Run(steps) == Some(State(NOT_PARSED, map[], true, Over({"a"}, false), UNPARSED))
  {
    var steps := ReceivedUnparsed();
    steps := StartsAgain(steps);
    steps := SnapshotTakenOf(steps, UNPARSED);
    Then(steps, State(NOT_PARSED, map[], true, Going({"a"}, NOT_PARSED), UNPARSED), RecoverStops("a"),
      State(NOT_PARSED, map[], true, Over({"a"}, false), UNPARSED));
  }

  lemma SnapshotTakenOf(steps: seq<Step>, h: multiset<Event>) returns (more: seq<Step>)
    requires Run(steps) == Some(State(NOT_PARSED, map[], true, NotRun, h))
    ensures Run(more) == Some(State(NOT_PARSED, map[], true, Going({"a"}, NOT_PARSED), h))
  {
    assert NOT_PARSED.Keys == {"a"};
    assert h + multiset{} == h;
    Then(steps, State(NOT_PARSED, map[], true, NotRun, h), Snapshot,
      State(NOT_PARSED, map[], true, Going({"a"}, NOT_PARSED), h));
    more := steps + [Snapshot];
  }

  lemma PanickingOnSending() returns (steps: seq<Step>)
    ensures Run(steps) == Some(One(EXECUTED.(task := Aborted), NotRun, PANICKED))
  {
    steps := Accepted();
    steps := Launched(steps, NotRun, RECEIVED);
    var h := RECEIVED + multiset{Started("a")};
    Moves(steps, AT_WORK, NotRun, h, BodyEnds("a", false), EXECUTED, h);
    steps := steps + [BodyEnds("a", false)];
    Moves(steps, EXECUTED, NotRun, h, BodyPanics("a"), EXECUTED.(task := Aborted), PANICKED);
    steps := steps + [BodyPanics("a")];
  }

  /** A panic on sending the result deletes the record without a callback, too. */
  lemma PanicOnSendingIsSilent()
    ensures exists steps :: Run(steps).Some? && Run(steps).value.store == map[] && Run(steps).value.history == PANICKED
  {
    var steps := PanickingOnSending();
    Ends(steps, EXECUTED.(task := Aborted), PANICKED, Done("a", true));
    assert Run(steps + [Done("a", true)]).Some?;
  }
}

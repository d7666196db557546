/** What the state after a run of requests says, read off the steps alone
    (api/v1/virtual_machine_v1.go, vsphere/workerpool/worker_pool.go, startup/startup.go). */
module RunsInSteps {
  import opened Wrappers
  import opened TaskLifecycle

  // ----- What has happened -----

  function Count(steps: seq<Step>, step: Step): nat {
    if steps == [] then 0 else
    var n := |steps| - 1;
    Count(steps[..n], step) + if steps[n] == step then 1 else 0
  }

  /** Every start, callback, refusal and panic in the history is a step of its kind, and the other way round. */
  lemma {:induction false} HistoryIs(steps: seq<Step>, id: Id)
    requires Run(steps).Some?
    ensures
      var h := Run(steps).value.history;
      && h[Started(id)] == Count(steps, Start(id))
      && h[BodyPanicked(id)] == Count(steps, BodyPanics(id))
      && h[ResultCallback(id)] == Count(steps, CallBack(id))
      && h[FailureCallback(id)] == Count(steps, RecoverCall(id))
      && h[SubmissionRefused(id)] == Count(steps, Submit(id, false))
  {
    if steps != [] {
      var n := |steps| - 1;
      HistoryIs(steps[..n], id);
      NewsCount(Run(steps[..n]).value, steps[n], id);
    }
  }

  lemma NewsCount(s: State, step: Step, id: Id)
    requires Enabled(s, step)
    ensures
      var news := News(s, step);
      && news[Started(id)] == (if step == Start(id) then 1 else 0)
      && news[BodyPanicked(id)] == (if step == BodyPanics(id) then 1 else 0)
      && news[ResultCallback(id)] == (if step == CallBack(id) then 1 else 0)
      && news[FailureCallback(id)] == (if step == RecoverCall(id) then 1 else 0)
      && news[SubmissionRefused(id)] == (if step == Submit(id, false) then 1 else 0)
  {
    if OfRequest(step) {
      HeardCount(s.live[step.id], step, id);
    }
  }

  lemma HeardCount(r: Request, step: Step, id: Id)
    requires OfRequest(step)
    ensures
      var news := Heard(r, step);
      && news[Started(id)] == (if step == Start(id) then 1 else 0)
      && news[BodyPanicked(id)] == (if step == BodyPanics(id) then 1 else 0)
      && news[ResultCallback(id)] == (if step == CallBack(id) then 1 else 0)
      && news[FailureCallback(id)] == 0
      && news[SubmissionRefused(id)] == (if step == Submit(id, false) then 1 else 0)
  {
  }

  ghost predicate IsReceived(steps: seq<Step>, id: Id) {
    exists i :: 0 <= i < |steps| && steps[i].Receive? && steps[i].id == id
  }

  lemma IsReceivedMore(steps: seq<Step>, id: Id)
    requires steps != []
    ensures
      var n := |steps| - 1;
      IsReceived(steps, id) <==> IsReceived(steps[..n], id) || (steps[n].Receive? && steps[n].id == id)
  {
    var n := |steps| - 1;
    if IsReceived(steps[..n], id) {
      var i :| 0 <= i < n && steps[..n][i].Receive? && steps[..n][i].id == id;
      assert steps[i].Receive? && steps[i].id == id;
    }
    if IsReceived(steps, id) {
      var i :| 0 <= i < |steps| && steps[i].Receive? && steps[i].id == id;
      assert i < n ==> steps[..n][i].Receive? && steps[..n][i].id == id;
    }
  }

  /** A request is new until it is received, and so it is received once. */
  lemma {:induction false} FreshWhen(steps: seq<Step>, id: Id)
    requires Run(steps).Some?
    ensures Fresh(Run(steps).value.history, id) <==> !IsReceived(steps, id)
  {
    if steps != [] {
      var n := |steps| - 1;
      FreshWhen(steps[..n], id);
      IsReceivedMore(steps, id);
      FreshAfter(Run(steps[..n]).value, steps[n], id);
    }
  }

  // ----- What is up -----

  /** The process has been started and has neither crashed nor ended by a panic of recovery since. */
  ghost predicate IsUp(steps: seq<Step>) {
    exists i :: 0 <= i < |steps| && steps[i].Restart?
                && forall j :: i < j < |steps| ==> !steps[j].Crash? && !steps[j].RecoverPanics?
  }

  lemma IsUpMore(steps: seq<Step>)
    requires steps != []
    ensures
      var n := |steps| - 1;
      IsUp(steps) <==>
        steps[n].Restart? || (IsUp(steps[..n]) && !steps[n].Crash? && !steps[n].RecoverPanics?)
  {
    var n := |steps| - 1;
    if IsUp(steps[..n]) && !steps[n].Crash? && !steps[n].RecoverPanics? {
      var i :| 0 <= i < n && steps[..n][i].Restart?
               && forall j :: i < j < n ==> !steps[..n][j].Crash? && !steps[..n][j].RecoverPanics?;
      assert steps[i].Restart?;
      assert forall j :: i < j < n ==> steps[..n][j] == steps[j];
    }
    if IsUp(steps) && !steps[n].Restart? {
      var i :| 0 <= i < |steps| && steps[i].Restart?
               && forall j :: i < j < |steps| ==> !steps[j].Crash? && !steps[j].RecoverPanics?;
      assert steps[..n][i].Restart?;
    }
  }

  lemma {:induction false} UpWhen(steps: seq<Step>)
    requires Run(steps).Some?
    ensures Run(steps).value.up <==> IsUp(steps)
  {
    if steps != [] {
      UpWhen(steps[..|steps| - 1]);
      IsUpMore(steps);
    }
  }

  /** The request was received by the process that is up now. */
  ghost predicate ReceivedSince(steps: seq<Step>, id: Id) {
    exists i :: 0 <= i < |steps| && steps[i].Receive? && steps[i].id == id
                && forall j :: i < j < |steps| ==> !steps[j].Crash? && !steps[j].RecoverPanics?
  }

  lemma ReceivedSinceMore(steps: seq<Step>, id: Id)
    requires steps != []
    ensures
      var n := |steps| - 1;
      ReceivedSince(steps, id) <==>
        || (steps[n].Receive? && steps[n].id == id)
        || (ReceivedSince(steps[..n], id) && !steps[n].Crash? && !steps[n].RecoverPanics?)
  {
    var n := |steps| - 1;
    if ReceivedSince(steps[..n], id) && !steps[n].Crash? && !steps[n].RecoverPanics? {
      var i :| 0 <= i < n && steps[..n][i].Receive? && steps[..n][i].id == id
               && forall j :: i < j < n ==> !steps[..n][j].Crash? && !steps[..n][j].RecoverPanics?;
      assert steps[i].Receive? && steps[i].id == id;
      assert forall j :: i < j < n ==> steps[..n][j] == steps[j];
    }
    if ReceivedSince(steps, id) && !(steps[n].Receive? && steps[n].id == id) {
      var i :| 0 <= i < |steps| && steps[i].Receive? && steps[i].id == id
               && forall j :: i < j < |steps| ==> !steps[j].Crash? && !steps[j].RecoverPanics?;
      assert steps[..n][i].Receive? && steps[..n][i].id == id;
    }
  }

  /** What a process knows of a request does not outlive it: requests are live exactly if it has received them. */
  lemma {:induction false} LiveWhen(steps: seq<Step>, id: Id)
    requires Run(steps).Some?
    ensures id in Run(steps).value.live <==> ReceivedSince(steps, id)
  {
    if steps != [] {
      LiveWhen(steps[..|steps| - 1], id);
      ReceivedSinceMore(steps, id);
    }
  }

  // ----- What is stored -----

  /** Recovery has called back this request last, and neither deleted its record since nor ended. */
  ghost predicate CalledLast(steps: seq<Step>, id: Id) {
    exists i :: 0 <= i < |steps| && steps[i] == RecoverCall(id)
                && forall j :: i < j < |steps| ==> !steps[j].RecoverCancel? && !EndsProcess(steps[j])
  }

  lemma {:induction false} ReportedWhen(steps: seq<Step>, id: Id)
    requires Run(steps).Some?
    ensures
      var r := Run(steps).value.recovery;
      r.Reported? && r.id == id <==> CalledLast(steps, id)
  {
    if steps != [] {
      var n := |steps| - 1;
      ReportedWhen(steps[..n], id);
      CalledLastMore(steps, id);
      if CalledLast(steps[..n], id) {
        assert Run(steps[..n]).value.recovery.Reported?;
      }
    }
  }

  lemma CalledLastMore(steps: seq<Step>, id: Id)
    requires steps != []
    ensures
      var n := |steps| - 1;
      CalledLast(steps, id) <==>
        steps[n] == RecoverCall(id)
        || (CalledLast(steps[..n], id) && !steps[n].RecoverCancel? && !EndsProcess(steps[n]))
  {
    var n := |steps| - 1;
    if CalledLast(steps[..n], id) && !steps[n].RecoverCancel? && !EndsProcess(steps[n]) {
      var i :| 0 <= i < n && steps[..n][i] == RecoverCall(id)
               && forall j :: i < j < n ==> !steps[..n][j].RecoverCancel? && !EndsProcess(steps[..n][j]);
      assert steps[i] == RecoverCall(id);
      assert forall j :: i < j < n ==> steps[..n][j] == steps[j];
    }
    if CalledLast(steps, id) && steps[n] != RecoverCall(id) {
      var i :| 0 <= i < |steps| && steps[i] == RecoverCall(id)
               && forall j :: i < j < |steps| ==> !steps[j].RecoverCancel? && !EndsProcess(steps[j]);
      assert steps[..n][i] == RecoverCall(id);
    }
  }

  /** The step deletes the record: the handler's cancelling, the task's end, or recovery after its callback, if the
      store does as it is told. */
  ghost predicate Removes(steps: seq<Step>, i: nat, id: Id)
    requires i < |steps|
  {
    || steps[i] == Cancel(id, true)
    || steps[i] == Done(id, true)
    || (steps[i] == RecoverCancel(true) && CalledLast(steps[..i], id))
  }

  ghost predicate Keeps(steps: seq<Step>, id: Id, parses: bool) {
    exists i :: 0 <= i < |steps|
                && steps[i].Receive? && steps[i].id == id && steps[i].stored && steps[i].parses == parses
                && forall j :: i < j < |steps| ==> !Removes(steps, j, id)
  }

  lemma KeepsMore(steps: seq<Step>, id: Id, parses: bool)
    requires steps != []
    ensures
      var n := |steps| - 1;
      Keeps(steps, id, parses) <==>
        || (steps[n].Receive? && steps[n].id == id && steps[n].stored && steps[n].parses == parses)
        || (Keeps(steps[..n], id, parses) && !Removes(steps, n, id))
  {
    var n := |steps| - 1;
    assert forall j :: 0 <= j < n ==> steps[..n][..j] == steps[..j];
    assert forall j :: 0 <= j < n ==> (Removes(steps[..n], j, id) <==> Removes(steps, j, id));
    if Keeps(steps[..n], id, parses) && !Removes(steps, n, id) {
      var i :| 0 <= i < n && steps[..n][i].Receive? && steps[..n][i].id == id && steps[..n][i].stored
               && steps[..n][i].parses == parses && forall j :: i < j < n ==> !Removes(steps[..n], j, id);
      assert steps[i] == steps[..n][i];
    }
    if Keeps(steps, id, parses) {
      var i :| 0 <= i < |steps| && steps[i].Receive? && steps[i].id == id && steps[i].stored
               && steps[i].parses == parses && forall j :: i < j < |steps| ==> !Removes(steps, j, id);
      assert i < n ==> steps[..n][i] == steps[i];
    }
  }

  /** A record is stored exactly if the request was received and stored, and none of these deletions came after. */
  lemma {:induction false} StoredWhen(steps: seq<Step>, id: Id, parses: bool)
    requires Run(steps).Some?
    ensures
      var store := Run(steps).value.store;
      id in store && store[id] == parses <==> Keeps(steps, id, parses)
  {
    if steps != [] {
      var n := |steps| - 1;
      var s := Run(steps[..n]).value;
      StoredWhen(steps[..n], id, parses);
      KeepsMore(steps, id, parses);
      ReportedWhen(steps[..n], id);
      if steps[n].Receive? && steps[n].id == id {
        FreshWhen(steps[..n], id);
        RunKeepsInv(steps[..n]);
        FreshIsUncalled(s, id);
      }
    }
  }

  // ----- Who is told that the submission failed -----

  /** The task has ended with an error that the result of the submission has not overwritten since. */
  ghost predicate ErrorShows(steps: seq<Step>, id: Id) {
    exists i :: 0 <= i < |steps| && steps[i] == BodyEnds(id, true)
                && forall j :: i < j < |steps| ==> steps[j] != SubmitReturns(id) && steps[j] != BodyEnds(id, false)
  }

  lemma ErrorShowsMore(steps: seq<Step>, id: Id)
    requires steps != []
    ensures
      var n := |steps| - 1;
      ErrorShows(steps, id) <==>
        || steps[n] == BodyEnds(id, true)
        || (ErrorShows(steps[..n], id) && steps[n] != SubmitReturns(id) && steps[n] != BodyEnds(id, false))
  {
    var n := |steps| - 1;
    if ErrorShows(steps[..n], id) && steps[n] != SubmitReturns(id) && steps[n] != BodyEnds(id, false) {
      var i :| 0 <= i < n && steps[..n][i] == BodyEnds(id, true)
               && forall j :: i < j < n ==> steps[..n][j] != SubmitReturns(id) && steps[..n][j] != BodyEnds(id, false);
      assert steps[i] == BodyEnds(id, true);
      assert forall j :: i < j < n ==> steps[..n][j] == steps[j];
    }
    if ErrorShows(steps, id) && steps[n] != BodyEnds(id, true) {
      var i :| 0 <= i < |steps| && steps[i] == BodyEnds(id, true)
               && forall j :: i < j < |steps| ==> steps[j] != SubmitReturns(id) && steps[j] != BodyEnds(id, false);
      assert steps[..n][i] == BodyEnds(id, true);
    }
  }

  /** No error can show of a request that has not been received. */
  lemma {:induction false} NoErrorBefore(steps: seq<Step>, id: Id)
    requires Run(steps).Some?
    ensures ErrorShows(steps, id) ==> !Fresh(Run(steps).value.history, id)
  {
    if steps != [] {
      var n := |steps| - 1;
      NoErrorBefore(steps[..n], id);
      RunKeepsInv(steps[..n]);
      ErrorShowsMore(steps, id);
      FreshAfter(Run(steps[..n]).value, steps[n], id);
    }
  }

  /** The shared variable holds an error exactly then, for the requests whose handler shares it. */
  lemma {:induction false} FailedWhen(steps: seq<Step>, id: Id)
    requires Run(steps).Some? && id in Run(steps).value.live
    ensures Run(steps).value.live[id].failed <==> Run(steps).value.live[id].shares && ErrorShows(steps, id)
  {
    var n := |steps| - 1;
    var s := Run(steps[..n]).value;
    ErrorShowsMore(steps, id);
    RunKeepsInv(steps[..n]);
    LiveBefore(s, steps[n], id);
    if steps[n].Receive? && steps[n].id == id {
      NoErrorBefore(steps[..n], id);
    } else {
      FailedWhen(steps[..n], id);
    }
  }

  /** At some point the handler checks the variable it shares while such an error shows. */
  ghost predicate IsTold(steps: seq<Step>, id: Id) {
    steps != [] &&
    var n := |steps| - 1;
    || IsTold(steps[..n], id)
    || (steps[n] == Check(id) && ErrorShows(steps[..n], id)
        && Run(steps[..n]).Some? && Received(id, true) in Run(steps[..n]).value.history)
  }

  /** A handler takes an accepted request for refused exactly if that happens. */
  lemma {:induction false} DeniedWhen(steps: seq<Step>, id: Id)
    requires Run(steps).Some?
    ensures Denied(id) in Run(steps).value.history <==> IsTold(steps, id)
  {
    if steps != [] {
      var n := |steps| - 1;
      var s := Run(steps[..n]).value;
      DeniedWhen(steps[..n], id);
      DeniedNow(s, steps[n], id);
      if steps[n] == Check(id) {
        RunKeepsInv(steps[..n]);
        FailedWhen(steps[..n], id);
        ReceivedOneWay(steps[..n], id);
        SharesAsReceived(s, id);
      }
    }
  }

  lemma SharesAsReceived(s: State, id: Id)
    requires Inv(s) && id in s.live && !(Received(id, true) in s.history && Received(id, false) in s.history)
    ensures s.live[id].shares <==> Received(id, true) in s.history
  {
    assert RequestInv(s.history, id, s.live[id]);
  }

  lemma DeniedNow(s: State, step: Step, id: Id)
    requires Enabled(s, step)
    ensures Denied(id) in News(s, step) <==> step == Check(id) && s.live[id].failed
  {
  }

  /** A request is received as one that shares or as one that does not. */
  lemma {:induction false} ReceivedOneWay(steps: seq<Step>, id: Id)
    requires Run(steps).Some?
    ensures !(Received(id, true) in Run(steps).value.history && Received(id, false) in Run(steps).value.history)
  {
    if steps != [] {
      var n := |steps| - 1;
      ReceivedOneWay(steps[..n], id);
      NewsIs(Run(steps[..n]).value, steps[n]);
    }
  }

  // ----- What comes before what -----

  /** How far handler and task are shows in the steps. */
  ghost predicate ShowsStage(steps: seq<Step>, id: Id, r: Request) {
    && IsReceived(steps, id)
    && (r.handler == Submitted || r.task == Outer ==> Submit(id, true) in steps)
    && (r.handler == Refused ==> Submit(id, false) in steps)
    && (r.handler == Checking ==> SubmitReturns(id) in steps)
    && (r.handler == Denying ==> Check(id) in steps)
    && (r.task == Inner ==> SubmitInner(id, true) in steps)
    && (r.task == Running ==> Start(id) in steps)
    && (r.task == Executed ==> BodyEnds(id, true) in steps || BodyEnds(id, false) in steps)
    && (r.task == CalledBack ==> CallBack(id) in steps)
    && (r.task == Aborted ==> BodyPanics(id) in steps)
  }

  lemma StageShows(r: Request, before: seq<Step>, step: Step)
    requires OfRequest(step) && Ready(r, step) && ShowsStage(before, step.id, r)
    ensures ShowsStage(before + [step], step.id, Changed(r, step))
  {
    var steps := before + [step];
    assert steps[..|steps| - 1] == before && steps[|steps| - 1] == step;
    IsReceivedMore(steps, step.id);
  }

  lemma {:induction false} LiveShowsStage(steps: seq<Step>, id: Id)
    requires Run(steps).Some? && id in Run(steps).value.live
    ensures ShowsStage(steps, id, Run(steps).value.live[id])
  {
    var n := |steps| - 1;
    var s := Run(steps[..n]).value;
    assert steps == steps[..n] + [steps[n]];
    LiveBefore(s, steps[n], id);
    IsReceivedMore(steps, id);
    if !(steps[n].Receive? && steps[n].id == id) {
      LiveShowsStage(steps[..n], id);
      if OfRequest(steps[n]) && steps[n].id == id {
        StageShows(s.live[id], steps[..n], steps[n]);
      }
    }
  }

  /** What must have come before a step of a request. */
  ghost predicate ComesInOrder(steps: seq<Step>, step: Step)
    requires OfRequest(step)
  {
    var id := step.id;
    && IsReceived(steps, id)
    && (step.Done? ==> CallBack(id) in steps || BodyPanics(id) in steps)
    && (step.Cancel? ==> Submit(id, false) in steps || Check(id) in steps)
    && (step.CallBack? ==> BodyEnds(id, true) in steps || BodyEnds(id, false) in steps)
    && (step.BodyEnds? ==> Start(id) in steps)
    && (step.BodyPanics? ==> Start(id) in steps || BodyEnds(id, true) in steps || BodyEnds(id, false) in steps)
    && (step.Start? ==> SubmitInner(id, true) in steps)
    && (step.SubmitInner? || step.SubmitReturns? ==> Submit(id, true) in steps)
    && (step.Check? ==> SubmitReturns(id) in steps)
  }

  lemma StillInOrder(before: seq<Step>, more: Step, step: Step)
    requires OfRequest(step) && ComesInOrder(before, step)
    ensures ComesInOrder(before + [more], step)
  {
    var steps := before + [more];
    assert steps[..|steps| - 1] == before;
    IsReceivedMore(steps, step.id);
  }

  lemma ReadyInOrder(steps: seq<Step>, r: Request, step: Step)
    requires OfRequest(step) && Ready(r, step) && ShowsStage(steps, step.id, r)
    ensures ComesInOrder(steps, step)
  {
  }

  /** In every run, and so in every beginning of one: a record is deleted by its task only after the callback or a
      panic, and by its handler only after a refusal or a check; a callback follows the end of the body, that or a
      panic its start, the start its acceptance by both pools, and the submission the receipt. */
  lemma {:induction false} ComesAfter(steps: seq<Step>, step: Step)
    requires Run(steps).Some? && OfRequest(step) && step in steps
    ensures ComesInOrder(steps, step)
  {
    var n := |steps| - 1;
    assert steps == steps[..n] + [steps[n]];
    if step in steps[..n] {
      ComesAfter(steps[..n], step);
    } else {
      LiveShowsStage(steps[..n], step.id);
      ReadyInOrder(steps[..n], Run(steps[..n]).value.live[step.id], step);
    }
    StillInOrder(steps[..n], steps[n], step);
  }
}

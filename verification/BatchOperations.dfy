/** The batch handlers: delete, power on, power off and shut down a list of machines, and report each
    ID as done, not found or failed (api/v1/virtual_machine_v1.go:213-237, 494-518, 563-587, 632-656). */
module BatchOperations {
  import opened Wrappers
  import opened Devices
  import opened VSphere
  import opened Operator
  import opened Reconfiguration

  datatype Action = Delete | PowerOnAction | PowerOffAction | ShutdownAction

  datatype Verdict = Succeeded | NotFound | Unsuccessful

  /** vCenter's part for one ID: whether the machine can be looked up, and the outcomes of the calls. */
  datatype ItemOutcome = ItemOutcome(found: bool, start: Attempt, stop: PowerOffOutcome, destroy: DestroyOutcome)

  // ----- What becomes of one machine -----

  /** Acting on a machine panics: its power state is looked at and cannot be read. */
  predicate ActPanics(action: Action, power: Power, shutdownFirst: bool, o: ItemOutcome) {
    match action
    case Delete => DestroyPanics(power, o.destroy)
    case PowerOnAction => o.start.Unread?
    case PowerOffAction => PowerOffPanics(power.PoweredOff?, shutdownFirst, o.stop)
    case ShutdownAction => o.stop.shutdown.Unread?
  }

  /** Acting on a machine succeeds. A machine that the second lookup of a deletion does not find counts as deleted. */
  predicate ActWorks(action: Action, power: Power, shutdownFirst: bool, o: ItemOutcome) {
    match action
    case Delete =>
      !o.destroy.found
      || (o.destroy.read && (power.PoweredOff? || o.destroy.powerOff.Succeeds()) && o.destroy.destroy.Done?)
    case PowerOnAction => o.start.Tried? && (power.PoweredOn? || o.start.Succeeds())
    case PowerOffAction => PowerOffWorks(power.PoweredOff?, shutdownFirst, o.stop)
    case ShutdownAction => o.stop.shutdown.Tried? && (power.PoweredOff? || o.stop.shutdown.Succeeds())
  }

  /** The power state acting leaves a machine in, unless that is gone. */
  function PowerAfter(action: Action, power: Power, shutdownFirst: bool, o: ItemOutcome): Power {
    match action
    case Delete => if o.destroy.found && o.destroy.read && o.destroy.powerOff.TakesEffect() then PoweredOff else power
    case PowerOnAction => if o.start.TakesEffect() then PoweredOn else power
    case PowerOffAction =>
      if PowerOffWorks(power.PoweredOff?, shutdownFirst, o.stop) || (shutdownFirst && o.stop.shutdown.TakesEffect())
         || (!PowerOffPanics(power.PoweredOff?, shutdownFirst, o.stop) && o.stop.powerOff.TakesEffect())
      then PoweredOff else power
    case ShutdownAction => if o.stop.shutdown.TakesEffect() then PoweredOff else power
  }

  /** The machines after one item. */
  function Acted(vms: map<string, VM>, action: Action, shutdownFirst: bool, id: string, o: ItemOutcome)
    : map<string, VM>
  {
    if id !in vms || !o.found then vms
    else if action.Delete? && DestroyWorks(vms[id].power, o.destroy) then vms - {id}
    else vms[id := vms[id].(power := PowerAfter(action, vms[id].power, shutdownFirst, o))]
  }

  predicate ItemPanics(vms: map<string, VM>, action: Action, shutdownFirst: bool, id: string, o: ItemOutcome) {
    id in vms && o.found && ActPanics(action, vms[id].power, shutdownFirst, o)
  }

  /** The calls an item makes, in order. */
  function ItemCalls(vms: map<string, VM>, action: Action, shutdownFirst: bool, id: string, o: ItemOutcome): seq<Call> {
    if id !in vms || !o.found then [] else
    var power := vms[id].power;
    match action
    case PowerOnAction => if power.PoweredOn? || o.start.Unread? then [] else [Start(id, o.start.Succeeds())]
    case ShutdownAction =>
      if power.PoweredOff? || o.stop.shutdown.Unread? then [] else [GuestShutdown(id, o.stop.shutdown.Succeeds())]
    case PowerOffAction =>
      (if !power.PoweredOff? && shutdownFirst && o.stop.shutdown.Tried?
       then [GuestShutdown(id, o.stop.shutdown.Succeeds())] else []) +
      (if !power.PoweredOff? && o.stop.powerOff.Tried? && (shutdownFirst ==> o.stop.shutdown == Tried(Refused))
       then [HardPowerOff(id, o.stop.powerOff.Succeeds())] else [])
    case Delete =>
      if !o.destroy.found || !o.destroy.read || (!power.PoweredOff? && o.destroy.powerOff.Unread?) then []
      else
        (if power.PoweredOff? then [] else [HardPowerOff(id, o.destroy.powerOff.Succeeds())]) +
        (if power.PoweredOff? || o.destroy.powerOff.Succeeds() then [Call.Destroy(id, o.destroy.destroy.Done?)] else [])
  }

  function VerdictOf(vms: map<string, VM>, action: Action, shutdownFirst: bool, id: string, o: ItemOutcome): Verdict {
    if id !in vms || !o.found then NotFound
    else if ActWorks(action, vms[id].power, shutdownFirst, o) then Succeeded else Unsuccessful
  }

  /** When an action succeeds, action by action. */
  lemma WorksWhen(action: Action, power: Power, shutdownFirst: bool, o: ItemOutcome)
    ensures action.Delete? ==>
      (ActWorks(action, power, shutdownFirst, o) <==>
         || !o.destroy.found
         || (o.destroy.read && (power.PoweredOff? || o.destroy.powerOff == Tried(Done)) && o.destroy.destroy.Done?))
    ensures action.PowerOnAction? ==>
      (ActWorks(action, power, shutdownFirst, o) <==> o.start.Tried? && (power.PoweredOn? || o.start == Tried(Done)))
    ensures action.ShutdownAction? ==>
      (ActWorks(action, power, shutdownFirst, o) <==>
         o.stop.shutdown.Tried? && (power.PoweredOff? || o.stop.shutdown == Tried(Done)))
    ensures action.PowerOffAction? && !shutdownFirst ==>
      (ActWorks(action, power, shutdownFirst, o) <==>
         o.stop.powerOff.Tried? && (power.PoweredOff? || o.stop.powerOff == Tried(Done)))
    ensures action.PowerOffAction? && shutdownFirst ==>
      (ActWorks(action, power, shutdownFirst, o) <==>
         && o.stop.shutdown.Tried?
         && (power.PoweredOff? || o.stop.shutdown == Tried(Done)
             || (o.stop.powerOff.Tried? && (o.stop.shutdown == Tried(Lost) || o.stop.powerOff == Tried(Done)))))
  {
  }

  /** When an action panics, action by action. */
  lemma PanicsWhen(action: Action, power: Power, shutdownFirst: bool, o: ItemOutcome)
    ensures action.Delete? ==>
      (ActPanics(action, power, shutdownFirst, o) <==>
         o.destroy.found && (!o.destroy.read || (!power.PoweredOff? && o.destroy.powerOff.Unread?)))
    ensures action.PowerOnAction? ==> (ActPanics(action, power, shutdownFirst, o) <==> o.start.Unread?)
    ensures action.ShutdownAction? ==> (ActPanics(action, power, shutdownFirst, o) <==> o.stop.shutdown.Unread?)
    ensures action.PowerOffAction? && !shutdownFirst ==>
      (ActPanics(action, power, shutdownFirst, o) <==> o.stop.powerOff.Unread?)
    ensures action.PowerOffAction? && shutdownFirst ==>
      (ActPanics(action, power, shutdownFirst, o) <==>
         || o.stop.shutdown.Unread?
         || (!power.PoweredOff? && o.stop.shutdown != Tried(Done) && o.stop.powerOff.Unread?))
  {
  }

  // ----- What becomes of a batch -----

  /** A batch: the action, and for each ID what vCenter does. */
  datatype Batch = Batch(action: Action, shutdownFirst: bool, ids: seq<string>, outcomes: seq<ItemOutcome>) {
    predicate Valid() {
      |outcomes| == |ids|
    }

    /** The machines after the first n items. */
    function After(vms: map<string, VM>, n: nat): map<string, VM>
      requires Valid() && n <= |ids|
    {
      if n == 0 then vms else Acted(After(vms, n - 1), action, shutdownFirst, ids[n - 1], outcomes[n - 1])
    }

    predicate PanicsAt(vms: map<string, VM>, j: nat)
      requires Valid() && j < |ids|
    {
      ItemPanics(After(vms, j), action, shutdownFirst, ids[j], outcomes[j])
    }

    /** The calls of the first n items. */
    function Calls(vms: map<string, VM>, n: nat): seq<Call>
      requires Valid() && n <= |ids|
    {
      if n == 0 then []
      else Calls(vms, n - 1) + ItemCalls(After(vms, n - 1), action, shutdownFirst, ids[n - 1], outcomes[n - 1])
    }

    /** None of the first n items panics. */
    predicate RunsTo(vms: map<string, VM>, n: nat)
      requires Valid() && n <= |ids|
    {
      forall j: nat :: j < n ==> !PanicsAt(vms, j)
    }

    lemma RunsOn(vms: map<string, VM>, n: nat)
      requires Valid() && n < |ids| && RunsTo(vms, n)
      ensures PanicsAt(vms, n) <==> !RunsTo(vms, n + 1)
      ensures PanicsAt(vms, n) ==> !RunsTo(vms, |ids|)
    {
    }

    function VerdictAt(vms: map<string, VM>, j: nat): Verdict
      requires Valid() && j < |ids|
    {
      VerdictOf(After(vms, j), action, shutdownFirst, ids[j], outcomes[j])
    }

    function Verdicts(vms: map<string, VM>, n: nat): (v: seq<Verdict>)
      requires Valid() && n <= |ids|
      ensures |v| == n && forall j :: 0 <= j < n ==> v[j] == VerdictAt(vms, j)
    {
      if n == 0 then [] else Verdicts(vms, n - 1) + [VerdictAt(vms, n - 1)]
    }

    /** How many items are looked at: those with a verdict, and the one that panicked. */
    function Reached(n: nat): nat {
      if n < |ids| then n + 1 else n
    }

    /** No ID is listed twice. */
    predicate Distinct() {
      forall i, j :: 0 <= i < j < |ids| ==> ids[i] != ids[j]
    }

    /** Machines not listed so far are as they were. */
    lemma {:induction false} Untouched(vms: map<string, VM>, n: nat, id: string)
      requires Valid() && n <= |ids| && id !in ids[..n]
      ensures (id in After(vms, n) <==> id in vms) && (id in vms ==> After(vms, n)[id] == vms[id])
    {
      if n > 0 {
        assert ids[..n] == ids[..n - 1] + [ids[n - 1]];
        Untouched(vms, n - 1, id);
      }
    }

    /** Without repeats each item fares as if it were the only one: every verdict, and whether and where the batch
        panics, depend on the machines as they were before the batch. */
    lemma {:induction false} EachOnItsOwn(vms: map<string, VM>, j: nat)
      requires Valid() && Distinct() && j < |ids|
      ensures PanicsAt(vms, j) <==> ItemPanics(vms, action, shutdownFirst, ids[j], outcomes[j])
      ensures VerdictAt(vms, j) == VerdictOf(vms, action, shutdownFirst, ids[j], outcomes[j])
    {
      Untouched(vms, j, ids[j]);
    }

    lemma {:induction false} KeepsMachines(vms: map<string, VM>, n: nat)
      requires Valid() && n <= |ids| && !action.Delete?
      ensures After(vms, n).Keys == vms.Keys
    {
      if n > 0 {
        KeepsMachines(vms, n - 1);
      }
    }

    /** Repeats or not, switching machines on or shutting their guests down panics at an item exactly when the
        machine is there, is found, and its power state cannot be read. */
    lemma {:induction false} PanicsUnread(vms: map<string, VM>, j: nat)
      requires Valid() && j < |ids| && (action.PowerOnAction? || action.ShutdownAction?)
      ensures PanicsAt(vms, j) <==>
              && ids[j] in vms && outcomes[j].found
              && (if action.PowerOnAction? then outcomes[j].start.Unread? else outcomes[j].stop.shutdown.Unread?)
    {
      KeepsMachines(vms, j);
    }
  }

  /** One machine is switched on, and the state of the next cannot be read: that ends the batch. */
  lemma UnreadableEndsBatch(a: string, b: string, vm: VM, done: ItemOutcome, unread: ItemOutcome)
    requires a != b && done.found && done.start == Tried(Done) && unread.found && unread.start.Unread?
    ensures var batch := Batch(PowerOnAction, false, [a, b], [done, unread]);
            var vms := map[a := vm, b := vm];
            && !batch.PanicsAt(vms, 0) && batch.VerdictAt(vms, 0) == Succeeded
            && batch.After(vms, 1)[a].power.PoweredOn?
            && batch.PanicsAt(vms, 1)
  {
    var batch := Batch(PowerOnAction, false, [a, b], [done, unread]);
    var vms := map[a := vm, b := vm];
    batch.PanicsUnread(vms, 0);
    batch.PanicsUnread(vms, 1);
    assert batch.After(vms, 0) == vms;
  }

  // ----- The reports -----

  /** The IDs with a given verdict, in request order. */
  function Select(ids: seq<string>, verdicts: seq<Verdict>, v: Verdict): seq<string>
    requires |verdicts| == |ids|
  {
    if ids == [] then [] else
    var n := |ids| - 1;
    if verdicts[n] == v then Select(ids[..n], verdicts[..n], v) + [ids[n]] else Select(ids[..n], verdicts[..n], v)
  }

  /** One more verdict. */
  lemma {:induction false} SelectStep(ids: seq<string>, verdicts: seq<Verdict>, x: Verdict, v: Verdict)
    requires |verdicts| < |ids|
    ensures var j := |verdicts|;
      Select(ids[..j + 1], verdicts + [x], v) == Select(ids[..j], verdicts, v) + if x == v then [ids[j]] else []
  {
    var j := |verdicts|;
    assert ids[..j + 1][..j] == ids[..j] && (verdicts + [x])[..j] == verdicts;
  }

  /** The lists of a batch's callback. */
  datatype Reports = Reports(success: seq<string>, notFound: seq<string>, failed: seq<string>)

  function ReportsOf(ids: seq<string>, verdicts: seq<Verdict>): Reports
    requires |verdicts| == |ids|
  {
    Reports(Select(ids, verdicts, Succeeded), Select(ids, verdicts, NotFound), Select(ids, verdicts, Unsuccessful))
  }

  /** Each list holds the IDs of its verdict. */
  lemma ReportsHold(ids: seq<string>, verdicts: seq<Verdict>, id: string)
    requires |verdicts| == |ids|
    ensures id in ReportsOf(ids, verdicts).success <==>
      exists j :: 0 <= j < |ids| && ids[j] == id && verdicts[j] == Succeeded
    ensures id in ReportsOf(ids, verdicts).notFound <==>
      exists j :: 0 <= j < |ids| && ids[j] == id && verdicts[j] == NotFound
    ensures id in ReportsOf(ids, verdicts).failed <==>
      exists j :: 0 <= j < |ids| && ids[j] == id && verdicts[j] == Unsuccessful
  {
    SelectHas(ids, verdicts, Succeeded, id);
    SelectHas(ids, verdicts, NotFound, id);
    SelectHas(ids, verdicts, Unsuccessful, id);
  }

  lemma {:induction false} SelectHas(ids: seq<string>, verdicts: seq<Verdict>, v: Verdict, id: string)
    requires |verdicts| == |ids|
    ensures id in Select(ids, verdicts, v) <==> exists j :: 0 <= j < |ids| && ids[j] == id && verdicts[j] == v
  {
    if ids != [] {
      SelectHas(ids[..|ids| - 1], verdicts[..|ids| - 1], v, id);
    }
  }

  /** One more ID on the list its verdict calls for. */
  function Noted(r: Reports, id: string, v: Verdict): Reports {
    match v
    case Succeeded => r.(success := r.success + [id])
    case NotFound => r.(notFound := r.notFound + [id])
    case Unsuccessful => r.(failed := r.failed + [id])
  }

  lemma OneMoreReport(ids: seq<string>, verdicts: seq<Verdict>, v: Verdict)
    requires |verdicts| < |ids|
    ensures var j := |verdicts|;
            ReportsOf(ids[..j + 1], verdicts + [v]) == Noted(ReportsOf(ids[..j], verdicts), ids[j], v)
  {
    SelectStep(ids, verdicts, v, Succeeded);
    SelectStep(ids, verdicts, v, NotFound);
    SelectStep(ids, verdicts, v, Unsuccessful);
  }

  lemma NextReport(batch: Batch, vms: map<string, VM>, n: nat)
    requires batch.Valid() && n < |batch.ids|
    ensures ReportsOf(batch.ids[..n + 1], batch.Verdicts(vms, n + 1)) ==
            Noted(ReportsOf(batch.ids[..n], batch.Verdicts(vms, n)), batch.ids[n], batch.VerdictAt(vms, n))
  {
    var verdicts, v := batch.Verdicts(vms, n), batch.VerdictAt(vms, n);
    assert batch.Verdicts(vms, n + 1) == verdicts + [v];
    OneMoreReport(batch.ids, verdicts, v);
  }

  predicate Subsequence(a: seq<string>, b: seq<string>) {
    if a == [] then true
    else if b == [] then false
    else if a[|a| - 1] == b[|b| - 1] then Subsequence(a[..|a| - 1], b[..|b| - 1])
    else Subsequence(a, b[..|b| - 1])
  }

  /** Dropping the last element of the shorter list keeps it a subsequence. */
  lemma {:induction false} SubsequenceDropLast(a: seq<string>, b: seq<string>)
    requires a != [] && Subsequence(a, b)
    ensures Subsequence(a[..|a| - 1], b)
  {
    var c := a[..|a| - 1];
    if a[|a| - 1] == b[|b| - 1] {
      SubsequenceOfLonger(c, b);
    } else {
      SubsequenceDropLast(a, b[..|b| - 1]);
      SubsequenceOfLonger(c, b);
    }
  }

  lemma {:induction false} SubsequenceOfLonger(a: seq<string>, b: seq<string>)
    requires b != [] && Subsequence(a, b[..|b| - 1])
    ensures Subsequence(a, b)
  {
    if a != [] && a[|a| - 1] == b[|b| - 1] {
      SubsequenceDropLast(a, b[..|b| - 1]);
    }
  }

  /** Each report is a subsequence of the request. */
  lemma {:induction false} ReportIsSubsequence(ids: seq<string>, verdicts: seq<Verdict>, v: Verdict)
    requires |verdicts| == |ids|
    ensures Subsequence(Select(ids, verdicts, v), ids)
  {
    if ids != [] {
      var n := |ids| - 1;
      var before := Select(ids[..n], verdicts[..n], v);
      ReportIsSubsequence(ids[..n], verdicts[..n], v);
      if verdicts[n] == v {
        assert (before + [ids[n]])[..|before|] == before;
      } else {
        SubsequenceOfLonger(before, ids);
      }
    }
  }

  lemma {:induction false} OneMoreSelected(ids: seq<string>, verdicts: seq<Verdict>, v: Verdict, id: string)
    requires |verdicts| == |ids| && ids != []
    ensures var n := |ids| - 1;
      multiset(Select(ids, verdicts, v))[id] ==
      multiset(Select(ids[..n], verdicts[..n], v))[id] + if verdicts[n] == v && ids[n] == id then 1 else 0
  {
  }

  /** Every occurrence of an ID is in exactly one of the three reports. */
  lemma {:induction false} ReportsPartition(ids: seq<string>, verdicts: seq<Verdict>, id: string)
    requires |verdicts| == |ids|
    ensures multiset(Select(ids, verdicts, Succeeded))[id] + multiset(Select(ids, verdicts, NotFound))[id]
              + multiset(Select(ids, verdicts, Unsuccessful))[id] == multiset(ids)[id]
  {
    if ids != [] {
      var n := |ids| - 1;
      ReportsPartition(ids[..n], verdicts[..n], id);
      assert ids == ids[..n] + [ids[n]];
      OneMoreSelected(ids, verdicts, Succeeded, id);
      OneMoreSelected(ids, verdicts, NotFound, id);
      OneMoreSelected(ids, verdicts, Unsuccessful, id);
    }
  }

  /** The power state an action works towards. */
  function Target(action: Action): Power
    requires !action.Delete?
  {
    if action.PowerOnAction? then PoweredOn else PoweredOff
  }

  /** The state an action that reports success leaves its machine in. */
  predicate Achieved(vms: map<string, VM>, action: Action, id: string, o: ItemOutcome) {
    if action.Delete? then id !in vms || !o.destroy.found
    else id in vms && vms[id].power == Target(action)
  }

  class BatchHandler {
    const vc: VCenter
    const api: Api
    const shutdownFirst: bool

    constructor (vc: VCenter, api: Api, shutdownFirst: bool)
      ensures this.vc == vc && this.api == api && this.shutdownFirst == shutdownFirst
    {
      this.vc, this.api, this.shutdownFirst := vc, api, shutdownFirst;
    }

    method Act(action: Action, id: string, o: ItemOutcome) returns (fault: Fault)
      requires id in vc.vms && o.found
      modifies vc
      ensures vc.vms == Acted(old(vc.vms), action, shutdownFirst, id, o)
      ensures fault.NoFault? <==> ActWorks(action, old(vc.vms[id].power), shutdownFirst, o)
      ensures fault.Panicked? <==> ActPanics(action, old(vc.vms[id].power), shutdownFirst, o)
      ensures
        var off := old(vc.vms[id].power).PoweredOff?;
        vc.calls == old(vc.calls) +
          match action
          case PowerOnAction =>
            if old(vc.vms[id].power).PoweredOn? || o.start.Unread? then [] else [Start(id, o.start.call.Done?)]
          case ShutdownAction =>
            if off || o.stop.shutdown.Unread? then [] else [GuestShutdown(id, o.stop.shutdown.call.Done?)]
          case PowerOffAction =>
            (if !off && shutdownFirst && o.stop.shutdown.Tried?
             then [GuestShutdown(id, o.stop.shutdown.call.Done?)] else []) +
            (if !off && o.stop.powerOff.Tried? && (shutdownFirst ==> o.stop.shutdown == Tried(Refused))
             then [HardPowerOff(id, o.stop.powerOff.call.Done?)] else [])
          case Delete =>
            if !o.destroy.found || !o.destroy.read then []
            else if off then [Call.Destroy(id, o.destroy.destroy.Done?)]
            else if o.destroy.powerOff.Unread? then []
            else if !o.destroy.powerOff.call.Done? then [HardPowerOff(id, false)]
            else [HardPowerOff(id, true), Call.Destroy(id, o.destroy.destroy.Done?)]
    {
      assert forall k :: k in vc.vms ==> vc.vms[k] == vc.vms[k].(power := vc.vms[k].power);
      match action
      case Delete =>
        fault := vc.Destroy(id, o.destroy);
      case PowerOnAction =>
        fault := vc.PowerOn(id, o.start);
      case PowerOffAction =>
        var machine := new VirtualMachineOperator(vc, api, id, shutdownFirst);
        fault := machine.PowerOff(o.stop);
      case ShutdownAction =>
        fault := vc.Shutdown(id, o.stop.shutdown);
    }

    /** Look one machine up and act on it. */
    method One(action: Action, id: string, o: ItemOutcome) returns (panics: bool, v: Verdict)
      modifies vc
      ensures vc.vms == Acted(old(vc.vms), action, shutdownFirst, id, o)
      ensures vc.calls == old(vc.calls) + ItemCalls(old(vc.vms), action, shutdownFirst, id, o)
      ensures panics <==> ItemPanics(old(vc.vms), action, shutdownFirst, id, o)
      ensures v == VerdictOf(old(vc.vms), action, shutdownFirst, id, o)
      ensures v.NotFound? <==> id !in old(vc.vms) || !o.found
      ensures v.Succeeded? <==>
        id in old(vc.vms) && o.found && ActWorks(action, old(vc.vms)[id].power, shutdownFirst, o)
      ensures v.Succeeded? ==> Achieved(vc.vms, action, id, o)
      ensures OnlyMachine(old(vc.vms), vc.vms, {id}, action)
    {
      ActedMeans(vc.vms, action, shutdownFirst, id, o);
      if id !in vc.vms || !o.found {
        return false, NotFound;
      }
      var fault := Act(action, id, o);
      panics := fault.Panicked?;
      v := if fault.NoFault? then Succeeded else Unsuccessful;
    }

    /** The j-th item of a batch, after those before it. */
    method Item(action: Action, id: string, o: ItemOutcome, ghost batch: Batch, ghost start: map<string, VM>,
      ghost j: nat)
      returns (panics: bool, v: Verdict, ghost sent: seq<Call>)
      requires batch.Valid() && j < |batch.ids| && batch.ids[j] == id && batch.outcomes[j] == o
      requires batch.action == action && batch.shutdownFirst == shutdownFirst
      requires vc.vms == batch.After(start, j) && batch.RunsTo(start, j)
      modifies vc
      ensures vc.vms == batch.After(start, j + 1)
      ensures vc.calls == old(vc.calls) + sent && batch.Calls(start, j + 1) == batch.Calls(start, j) + sent
      ensures panics <==> batch.PanicsAt(start, j)
      ensures panics ==> !batch.RunsTo(start, |batch.ids|)
      ensures !panics ==> batch.RunsTo(start, j + 1)
      ensures v == batch.VerdictAt(start, j)
    {
      batch.RunsOn(start, j);
      sent := ItemCalls(vc.vms, action, shutdownFirst, id, o);
      panics, v := One(action, id, o);
    }

    /** Run the action on each ID in turn.  An ID may be listed more than once.  A panic at one ends the batch: the
        IDs after it are not looked at, and the lists made so far reach nobody. */
    method Run(action: Action, ids: seq<string>, outcomes: seq<ItemOutcome>)
      returns (fault: Fault, reports: Reports, ghost done: nat)
      requires |outcomes| == |ids|
      modifies vc
      ensures done <= |ids| && !fault.Failed? && (fault.NoFault? <==> done == |ids|)
      ensures var batch := Batch(action, shutdownFirst, ids, outcomes);
        && vc.vms == batch.After(old(vc.vms), batch.Reached(done))
        && vc.calls == old(vc.calls) + batch.Calls(old(vc.vms), batch.Reached(done))
        && (fault.NoFault? <==> batch.RunsTo(old(vc.vms), |ids|))
        && batch.RunsTo(old(vc.vms), done) && (fault.Panicked? ==> batch.PanicsAt(old(vc.vms), done))
        && reports == ReportsOf(ids[..done], batch.Verdicts(old(vc.vms), done))
        && OnlyMachine(old(vc.vms), vc.vms, Listed(ids[..batch.Reached(done)]), action)
        && TruthfulVerdicts(old(vc.vms), vc.vms, action, ids[..done], outcomes[..done],
                            batch.Verdicts(old(vc.vms), done))
    {
      fault, reports, done := NoFault, Reports([], [], []), 0;
      ghost var batch := Batch(action, shutdownFirst, ids, outcomes);
      ghost var start, before := vc.vms, vc.calls;
      for j := 0 to |ids|
        invariant done == j && reports == ReportsOf(ids[..j], batch.Verdicts(start, j))
        invariant vc.vms == batch.After(start, j) && batch.RunsTo(start, j)
        invariant vc.calls == before + batch.Calls(start, j)
      {
        var panics, v, sent := Item(action, ids[j], outcomes[j], batch, start, j);
        Associate(before, batch.Calls(start, j), sent);
        if panics {
          CutShort(batch, start, j);
          return Panicked, reports, j;
        }
        NextReport(batch, start, j);
        reports := Noted(reports, ids[j], v);
        done := done + 1;
      }
      MeansWhatItSays(batch, start, |ids|);
    }
  }

  /** What acting on a machine does to it: nothing else changes, success reaches the action's state, and otherwise
      the machine goes nowhere but there. */
  lemma ActedMeans(vms: map<string, VM>, action: Action, shutdownFirst: bool, id: string, o: ItemOutcome)
    ensures OnlyMachine(vms, Acted(vms, action, shutdownFirst, id, o), {id}, action)
    ensures VerdictOf(vms, action, shutdownFirst, id, o).Succeeded? ==>
              Achieved(Acted(vms, action, shutdownFirst, id, o), action, id, o)
    ensures ItemPanics(vms, action, shutdownFirst, id, o) ==>
              VerdictOf(vms, action, shutdownFirst, id, o).Unsuccessful?
  {
    assert id in vms ==> vms[id] == vms[id].(power := vms[id].power);
  }

  function Listed(ids: seq<string>): set<string> {
    set i | 0 <= i < |ids| :: ids[i]
  }

  /** Only the given machines may change, none appears, only a deletion makes one disappear, and other actions
      change nothing but the power state, and that only to the one they work towards. */
  predicate OnlyMachine(before: map<string, VM>, after: map<string, VM>, ids: set<string>, action: Action) {
    && (forall k :: k in before && k !in ids ==> k in after && after[k] == before[k])
    && after.Keys <= before.Keys
    && (!action.Delete? ==>
          after.Keys == before.Keys && forall k :: k in before ==> Towards(before[k], after[k], action))
  }

  predicate Towards(before: VM, after: VM, action: Action)
    requires !action.Delete?
  {
    after == before || after == before.(power := Target(action))
  }

  /** A machine is reported as not found if its lookup failed or it was never there, and else only if the batch
      has deleted it; what is reported as deleted is gone, and what is reported as switched is in that state. */
  predicate TruthfulVerdict(before: map<string, VM>, after: map<string, VM>, action: Action, id: string,
    o: ItemOutcome, v: Verdict) {
    && (!o.found || id !in before ==> v.NotFound?)
    && (v.NotFound? && o.found && id in before ==> action.Delete? && id !in after)
    && (action.Delete? && v.Succeeded? && o.destroy.found ==> id !in after)
    && (!action.Delete? && v.Succeeded? ==> id in after && after[id].power == Target(action))
  }

  predicate TruthfulVerdicts(before: map<string, VM>, after: map<string, VM>, action: Action,
    ids: seq<string>, outcomes: seq<ItemOutcome>, verdicts: seq<Verdict>)
    requires |ids| == |outcomes| == |verdicts|
  {
    forall i :: 0 <= i < |ids| ==> TruthfulVerdict(before, after, action, ids[i], outcomes[i], verdicts[i])
  }

  lemma OneMoreVerdict(start: map<string, VM>, before: map<string, VM>, after: map<string, VM>,
    action: Action,
    ids: seq<string>, outcomes: seq<ItemOutcome>, verdicts: seq<Verdict>, v: Verdict)
    requires |verdicts| < |ids| == |outcomes|
    requires var j := |verdicts|;
      && OnlyMachine(start, before, Listed(ids[..j]), action)
      && TruthfulVerdicts(start, before, action, ids[..j], outcomes[..j], verdicts)
      && OnlyMachine(before, after, {ids[j]}, action)
      && (v.NotFound? <==> ids[j] !in before || !outcomes[j].found)
      && (v.Succeeded? ==> Achieved(after, action, ids[j], outcomes[j]))
    ensures var j := |verdicts|;
      && OnlyMachine(start, after, Listed(ids[..j + 1]), action)
      && TruthfulVerdicts(start, after, action, ids[..j + 1], outcomes[..j + 1], verdicts + [v])
  {
    var j := |verdicts|;
    forall k | k in Listed(ids[..j]) + {ids[j]}
      ensures k in Listed(ids[..j + 1])
    {
      if k == ids[j] {
        assert ids[..j + 1][j] == k;
      } else {
        var i :| 0 <= i < j && ids[..j][i] == k;
        assert ids[..j + 1][i] == k;
      }
    }
    forall i | 0 <= i < j + 1
      ensures TruthfulVerdict(start, after, action, ids[..j + 1][i], outcomes[..j + 1][i], (verdicts + [v])[i])
    {
      if i < j {
        assert TruthfulVerdict(start, before, action, ids[..j][i], outcomes[..j][i], verdicts[i]);
      }
    }
  }

  /** Over any number of items, repeats included, only listed machines change, and every verdict is true of the
      machines after the last of them. */
  lemma {:induction false} MeansWhatItSays(batch: Batch, vms: map<string, VM>, n: nat)
    requires batch.Valid() && n <= |batch.ids|
    ensures OnlyMachine(vms, batch.After(vms, n), Listed(batch.ids[..n]), batch.action)
    ensures TruthfulVerdicts(vms, batch.After(vms, n), batch.action, batch.ids[..n], batch.outcomes[..n],
                             batch.Verdicts(vms, n))
  {
    if n > 0 {
      var j := n - 1;
      var before := batch.After(vms, j);
      MeansWhatItSays(batch, vms, j);
      ActedMeans(before, batch.action, batch.shutdownFirst, batch.ids[j], batch.outcomes[j]);
      OneMoreVerdict(vms, before, batch.After(vms, n), batch.action, batch.ids, batch.outcomes,
                     batch.Verdicts(vms, j), batch.VerdictAt(vms, j));
    }
  }

  /** The verdicts before an item are true of the machines after it. */
  lemma {:induction false} CutShort(batch: Batch, vms: map<string, VM>, n: nat)
    requires batch.Valid() && n < |batch.ids|
    ensures OnlyMachine(vms, batch.After(vms, n + 1), Listed(batch.ids[..n + 1]), batch.action)
    ensures TruthfulVerdicts(vms, batch.After(vms, n + 1), batch.action, batch.ids[..n], batch.outcomes[..n],
                             batch.Verdicts(vms, n))
  {
    MeansWhatItSays(batch, vms, n + 1);
    var after := batch.After(vms, n + 1);
    forall i | 0 <= i < n
      ensures TruthfulVerdict(vms, after, batch.action, batch.ids[..n][i], batch.outcomes[..n][i],
                              batch.Verdicts(vms, n)[i])
    {
      assert TruthfulVerdict(vms, after, batch.action, batch.ids[..n + 1][i], batch.outcomes[..n + 1][i],
                             batch.Verdicts(vms, n + 1)[i]);
    }
  }
}

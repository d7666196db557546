/** Deploying a machine from a template: clone, reconfigure, customize, start, wait, and roll back on
    failure (vsphere/workerpool/virtual_machine_deployer.go:142-332, 361-455). */
module Deployer {
  import opened Wrappers
  import opened Devices
  import opened UnitNumbers
  import opened Reconfiguration
  import opened ReconfigurationMeaning
  import opened VSphere
  import opened Reconfigurer
  import opened NicKeys

  /** Guest settings given for each family. */
  datatype OS = OS(linux: bool, windows: bool)

  datatype TimeoutSetting = TimeoutSetting(waitForClone: int32, waitForIP: Option<int32>, waitForNet: Option<int32>)

  /** The configured defaults. */
  datatype Config = Config(waitForClone: int32, waitForIP: int32, waitForNet: int32, adapterType: Option<string>)

  datatype DeployParameter = DeployParameter(
    hardware: HardwareSpec, interfaces: Option<array<NetworkInterface>>, os: Option<OS>)

  datatype DeployError =
    | NoError | CloneError | ClonePanic | HardwareError | WriteBackPanic | GuestPanic | CustomizeError
    | PowerOnError | PowerOnPanic | WaitIPError | WaitNetError | RollBackPanic

  /** What vCenter does at each step.  `cardsRead` and `newCardsRead`: the cards of the new machine
      could be read before and after the reconfiguration.  `guestIsWindows`: what the guest is, if that could
      be read. */
  datatype DeployOutcome = DeployOutcome(
    clone: CloneOutcome, cardsRead: bool, reconfigure: ReconfigureOutcome, newCardsRead: bool,
    guestIsWindows: Option<bool>, customize: Attempt, powerOn: Attempt, waitIP: bool, waitNet: bool,
    rollBack: DestroyOutcome)

  function InterfaceValues(p: DeployParameter): seq<NetworkInterface>
    reads if p.interfaces.Some? then {p.interfaces.value} else {}
  {
    if p.interfaces.Some? then p.interfaces.value[..] else []
  }

  /** Guest settings are sent only if they are given for the family of the guest. */
  predicate ShouldCustomize(p: DeployParameter, o: DeployOutcome) {
    p.os.Some? && o.guestIsWindows.Some? && if o.guestIsWindows.value then p.os.value.windows else p.os.value.linux
  }

  /** Guest settings are given, but the guest cannot be read. */
  predicate GuestUnread(p: DeployParameter, o: DeployOutcome) {
    p.os.Some? && o.guestIsWindows.None?
  }

  /** A failure after which the new machine is destroyed. */
  predicate RollsBack(e: DeployError) {
    e.HardwareError? || e.CustomizeError? || e.WaitIPError? || e.WaitNetError?
  }

  /** The power state of the new machine when `e` happens. */
  function PowerAt(e: DeployError, made: VM): Power {
    if e.WaitIPError? || e.WaitNetError? then PoweredOn else made.power
  }

  /** An error that is rolled back becomes a panic if the rollback panics. */
  function RolledBack(e: DeployError, o: DestroyOutcome, power: Power): DeployError {
    if RollsBack(e) && DestroyPanics(power, o) then RollBackPanic else e
  }

  /** The new machines there are after a deployment that ends with `e`. */
  function Leaves(o: DeployOutcome, e: DeployError): set<string> {
    if !o.clone.Cloned? then Made(o.clone)
    else if RollsBack(e) && DestroyWorks(PowerAt(e, o.clone.vm), o.rollBack) then {}
    else {o.clone.id}
  }

  /** What a deployment does to the machines, whatever vCenter does: those that were there are
      untouched, at most the machine made by the clone is new, and a deployment that reports success on
      a machine it got hold of leaves it running. */
  ghost predicate LeavesBehind(before: map<string, VM>, after: map<string, VM>, o: DeployOutcome, e: DeployError) {
    && (forall k :: k in before ==> k in after && after[k] == before[k])
    && after.Keys == before.Keys + Leaves(o, e)
    && (e.NoError? && o.clone.Cloned? ==> after[o.clone.id].power.PoweredOn?)
  }

  /** One deployment of a run: what vCenter did, and how it ended. */
  datatype Deployment = Deployment(outcome: DeployOutcome, error: DeployError)

  /** A run of deployments, with the machines before and after each. */
  ghost predicate DeployRun(states: seq<map<string, VM>>, ds: seq<Deployment>) {
    && |states| == |ds| + 1
    && forall i :: 0 <= i < |ds| ==>
         && Made(ds[i].outcome.clone) !! states[i].Keys
         && LeavesBehind(states[i], states[i + 1], ds[i].outcome, ds[i].error)
  }

  /** The ways of a deployment to end that leave a machine behind: success, a failed start, a panic at any step
      after the clone, a rollback that did not work, or a clone that made a machine and lost it. */
  predicate LeavesMachine(o: DeployOutcome, e: DeployError) {
    if o.clone.Cloned? then
      e.NoError? || e.PowerOnError? || e.CloneError? || e.ClonePanic?
      || e.WriteBackPanic? || e.GuestPanic? || e.PowerOnPanic? || e.RollBackPanic?
      || !DestroyWorks(PowerAt(e, o.clone.vm), o.rollBack)
    else o.clone.CloneUnread? || o.clone.left.Some?
  }

  lemma LeavesAtMostOne(o: DeployOutcome, e: DeployError)
    ensures |Leaves(o, e)| == if LeavesMachine(o, e) then 1 else 0
  {
  }

  /** In terms of what happened: a machine the code got hold of is left behind unless an error that is rolled back is
      followed by a destruction that takes effect, and one it lost always is. */
  lemma LeavesWhen(o: DeployOutcome, e: DeployError)
    ensures o.clone.Cloned? ==>
      var power := if e.WaitIPError? || e.WaitNetError? then PoweredOn else o.clone.vm.power;
      && (o.clone.id in Leaves(o, e) <==> LeavesMachine(o, e))
      && (!LeavesMachine(o, e) <==>
         && (e.HardwareError? || e.CustomizeError? || e.WaitIPError? || e.WaitNetError?)
         && o.rollBack.found && o.rollBack.read
         && (power.PoweredOff? || o.rollBack.powerOff == Tried(Done)) && !o.rollBack.destroy.Refused?)
    ensures !o.clone.Cloned? ==> (LeavesMachine(o, e) <==> o.clone.CloneUnread? || o.clone.left.Some?)
    ensures forall id :: id in Leaves(o, e) ==> id in Made(o.clone)
  {
  }

  /** How many of the deployments leave a machine behind. */
  function Leaving(ds: seq<Deployment>): nat {
    if ds == [] then 0 else
    var n := |ds| - 1;
    Leaving(ds[..n]) + if LeavesMachine(ds[n].outcome, ds[n].error) then 1 else 0
  }

  /** Over every run of deployments no machine that was there is touched, and the number of machines
      grows by one for each deployment that leaves one behind and by nothing else. */
  lemma {:induction false} MachinesAreAccountedFor(states: seq<map<string, VM>>, ds: seq<Deployment>)
    requires DeployRun(states, ds)
    ensures forall k :: k in states[0] ==> k in states[|ds|] && states[|ds|][k] == states[0][k]
    ensures |states[|ds|].Keys| == |states[0].Keys| + Leaving(ds)
  {
    if ds != [] {
      var n := |ds| - 1;
      MachinesAreAccountedFor(states[..n + 1], ds[..n]);
      var left := Leaves(ds[n].outcome, ds[n].error);
      LeavesAtMostOne(ds[n].outcome, ds[n].error);
      assert left !! states[n].Keys;
      assert states[n + 1].Keys == states[n].Keys + left;
      assert |states[n + 1].Keys| == |states[n].Keys| + |left|;
    }
  }

  class VirtualMachineDeployer {
    const vc: VCenter
    const api: Api
    const config: Config
    var timeout: Option<TimeoutSetting>
    var newVM: Option<string>

    constructor (vc: VCenter, api: Api, config: Config, timeout: Option<TimeoutSetting>)
      ensures this.vc == vc && this.api == api && this.config == config && this.timeout == timeout && newVM == None
    {
      this.vc, this.api, this.config, this.timeout, this.newVM := vc, api, config, timeout, None;
    }

    function EffectiveClone(): int32
      reads this
    {
      if timeout.Some? && timeout.value.waitForClone >= 1 then timeout.value.waitForClone else config.waitForClone
    }

    function EffectiveIP(): int32
      reads this
    {
      if timeout.Some? then timeout.value.waitForIP.GetOr(config.waitForIP) else config.waitForIP
    }

    function EffectiveNet(): int32
      reads this
    {
      if timeout.Some? then timeout.value.waitForNet.GetOr(config.waitForNet) else config.waitForNet
    }

    method SetTimeout()
      modifies this`timeout
      ensures timeout ==
        Some(TimeoutSetting(old(EffectiveClone()), Some(old(EffectiveIP())), Some(old(EffectiveNet()))))
      ensures timeout == Some(TimeoutSetting(
        if old(timeout).Some? && old(timeout).value.waitForClone >= 1 then old(timeout).value.waitForClone
        else config.waitForClone,
        if old(timeout).Some? && old(timeout).value.waitForIP.Some? then old(timeout).value.waitForIP
        else Some(config.waitForIP),
        if old(timeout).Some? && old(timeout).value.waitForNet.Some? then old(timeout).value.waitForNet
        else Some(config.waitForNet)))
    {
      if timeout.None? {
        timeout := Some(TimeoutSetting(0, None, None));
      }
      if timeout.value.waitForClone < 1 {
        timeout := Some(timeout.value.(waitForClone := config.waitForClone));
      }
      if timeout.value.waitForNet.None? {
        timeout := Some(timeout.value.(waitForNet := Some(config.waitForNet)));
      }
      if timeout.value.waitForIP.None? {
        timeout := Some(timeout.value.(waitForIP := Some(config.waitForIP)));
      }
    }

    /** An interface without an adapter type gets the configured one. */
    method SetDefault(interfaces: array<NetworkInterface>)
      modifies interfaces
      ensures forall i :: 0 <= i < interfaces.Length ==>
        interfaces[i] ==
          if old(interfaces[i]).adapterType.None? then old(interfaces[i]).(adapterType := config.adapterType)
          else old(interfaces[i])
    {
      for j := 0 to interfaces.Length
        invariant forall i :: 0 <= i < j ==>
          interfaces[i] ==
            if old(interfaces[i]).adapterType.None? then old(interfaces[i]).(adapterType := config.adapterType)
            else old(interfaces[i])
        invariant forall i :: j <= i < interfaces.Length ==> interfaces[i] == old(interfaces[i])
      {
        if interfaces[j].adapterType.None? {
          interfaces[j] := interfaces[j].(adapterType := config.adapterType);
        }
      }
    }

    method RollBack(o: DestroyOutcome) returns (panics: bool)
      modifies vc
      ensures panics <==> newVM.Some? && newVM.value in old(vc.vms) && DestroyPanics(old(vc.vms)[newVM.value].power, o)
      ensures old(vc.calls) <= vc.calls
      ensures forall i :: |old(vc.calls)| <= i < |vc.calls| ==> vc.calls[i].HardPowerOff? || vc.calls[i].Destroy?
      ensures forall k :: k in old(vc.vms) && Some(k) != newVM ==> k in vc.vms && vc.vms[k] == old(vc.vms)[k]
      ensures vc.vms.Keys == old(vc.vms).Keys -
        if newVM.Some? && newVM.value in old(vc.vms) && DestroyWorks(old(vc.vms)[newVM.value].power, o)
          then {newVM.value} else {}
    {
      panics := false;
      if newVM.Some? {
        var fault := vc.Destroy(newVM.value, o);
        panics := fault.Panicked?;
      }
    }

    method TemplateCards(id: string, read: bool) returns (remove: seq<int>)
      requires id in vc.vms && ValidMap(vc.vms[id].devices)
      ensures forall k :: k in remove <==> read && k in vc.vms[id].devices && vc.vms[id].devices[k].kind.Card?
    {
      var devices := vc.GetDevices(id);
      remove := if read then CardKeys(devices) else [];
    }

    /** Reconfigure the new machine: take the template's cards out, put the requested ones in, and write
        the new keys back to the interfaces. */
    method ConfigureHardware(id: string, p: DeployParameter, ids: seq<string>,
      o: DeployOutcome) returns (err: DeployError)
      requires id in vc.vms && Ready(vc.vms[id].devices, p, ids, o)
      modifies vc, if p.interfaces.Some? then {p.interfaces.value} else {}
      ensures vc.vms.Keys == old(vc.vms).Keys
      ensures forall k :: k in old(vc.vms) && k != id ==> vc.vms[k] == old(vc.vms)[k]
      ensures vc.vms[id].power == old(vc.vms[id].power)
      ensures err == HardwareResult(api, p.interfaces.Some?, old(InterfaceValues(p)), o)
      ensures err.NoError? ==>
        && vc.vms[id].hardware == ChangedHardware(old(vc.vms[id].hardware), p.hardware)
        && vc.calls == old(vc.calls) + [Submit(id, old(vc.vms[id].power), p.hardware)]
      ensures err.NoError? && o.newCardsRead ==>
        CardsBelong(vc.vms[id].devices, old(InterfaceValues(p)), InterfaceValues(p), p.interfaces.Some? && o.cardsRead)
    {
      if p.interfaces.None? {
        NoCardsAsked(vc.vms[id].devices, api, o.reconfigure);
        var fault := Reconfigurer.Reconfigure(vc, api, id, p.hardware, None, None, o.reconfigure);
        return if fault.NoFault? then NoError else HardwareError;
      }
      err := ConfigureCards(id, p.hardware, p.interfaces.value, ids, o);
    }

    method ConfigureCards(id: string, hardware: HardwareSpec, interfaces: array<NetworkInterface>, ids: seq<string>,
      o: DeployOutcome)
      returns (err: DeployError)
      requires id in vc.vms && ReadyFor(vc.vms[id].devices, interfaces.Length, ids, o)
      modifies vc, interfaces
      ensures vc.vms.Keys == old(vc.vms).Keys
      ensures forall k :: k in old(vc.vms) && k != id ==> vc.vms[k] == old(vc.vms)[k]
      ensures vc.vms[id].power == old(vc.vms[id].power)
      ensures err == HardwareResult(api, true, old(interfaces[..]), o)
      ensures err.NoError? ==>
        && vc.vms[id].hardware == ChangedHardware(old(vc.vms[id].hardware), hardware)
        && vc.calls == old(vc.calls) + [Submit(id, old(vc.vms[id].power), hardware)]
      ensures err.NoError? && o.newCardsRead ==>
        CardsBelong(vc.vms[id].devices, old(interfaces[..]), interfaces[..], o.cardsRead)
    {
      var fault, adds, nic := ReplaceCards(id, hardware, interfaces, ids, o);
      if !fault.NoFault? {
        return HardwareError;
      }
      err := NoError;
      if adds.Length > 0 {
        err := WriteKeys(id, old(vc.vms[id].devices), nic, adds, interfaces, o);
      }
      if err.NoError? && o.newCardsRead {
        AllCardsNew(api, old(vc.vms[id].devices), o.reconfigure, nic, vc.vms[id].devices,
          old(interfaces[..]), interfaces[..], ids, o.cardsRead);
      }
    }

    /** Ask for the template's cards to be taken out and for the new ones to be put in. */
    method ReplaceCards(id: string, hardware: HardwareSpec, interfaces: array<NetworkInterface>, ids: seq<string>,
      o: DeployOutcome)
      returns (fault: Fault, adds: array<AddNicParameter>, ghost nic: NicRequest)
      requires id in vc.vms && ReadyFor(vc.vms[id].devices, interfaces.Length, ids, o)
      modifies vc, interfaces
      ensures vc.vms.Keys == old(vc.vms).Keys
      ensures forall k :: k in old(vc.vms) && k != id ==> vc.vms[k] == old(vc.vms)[k]
      ensures vc.vms[id].power == old(vc.vms[id].power)
      ensures fresh(adds) && adds.Length == interfaces.Length
      ensures forall i :: 0 <= i < interfaces.Length ==> interfaces[i] == old(interfaces[i]).(id := ids[i])
      ensures nic.add == AdditionsFor(old(interfaces[..]), ids) && nic.edit == []
      ensures o.cardsRead ==> forall k ::
        k in old(vc.vms[id].devices) && old(vc.vms[id].devices)[k].kind.Card? ==> k in nic.remove
      ensures fault.NoFault? <==>
        && o.reconfigure.found && o.reconfigure.listing.Some? && o.reconfigure.task.Done?
        && (HasCard(o.reconfigure.listing.value) ==> InterfacesPossible(old(interfaces[..]), api))
      ensures fault.NoFault? ==>
        && vc.calls == old(vc.calls) + [Submit(id, old(vc.vms[id].power), hardware)]
        && vc.vms[id].hardware == ChangedHardware(old(vc.vms[id].hardware), hardware)
        && Reconfigured(api, old(vc.vms[id].devices), o.reconfigure, None, Some(nic), vc.vms[id].devices)
        && adds[..] == if HasCard(o.reconfigure.listing.value)
                       then NumberNics(nic.add, FreshUnits(o.reconfigure.listing.value, "nic", |nic.add|)) else nic.add
    {
      ghost var m0 := vc.vms[id].devices;
      var remove := TemplateCards(id, o.cardsRead);
      adds := RequestCards(interfaces, ids);
      nic := NicRequest(adds[..], [], remove);
      AdditionsPossible(old(interfaces[..]), ids, api);
      CardsFault(m0, api, o.reconfigure, nic);
      fault := Reconfigurer.Reconfigure(vc, api, id, hardware, None, Some(NicParameter(adds, [], remove)),
        o.reconfigure);
    }

    /** Write the keys of the new cards back. */
    method WriteKeys(id: string, ghost m0: DeviceMap, ghost nic: NicRequest, adds: array<AddNicParameter>,
      interfaces: array<NetworkInterface>, o: DeployOutcome)
      returns (err: DeployError)
      requires id in vc.vms && Truthful(m0, o.reconfigure, |nic.add|)
      requires Reconfigured(api, m0, o.reconfigure, None, Some(nic), vc.vms[id].devices)
      requires adds.Length == interfaces.Length == |nic.add| > 0
      requires forall i :: 0 <= i < |nic.add| ==> nic.add[i].unitNumber.None? && nic.add[i].id == interfaces[i].id
      requires forall i, j :: 0 <= i < j < |nic.add| ==> nic.add[i].id != nic.add[j].id
      requires adds[..] == if HasCard(o.reconfigure.listing.value)
                           then NumberNics(nic.add, FreshUnits(o.reconfigure.listing.value, "nic", |nic.add|))
                           else nic.add
      modifies interfaces
      ensures err == if HasCard(o.reconfigure.listing.value) then NoError else WriteBackPanic
      ensures forall i :: 0 <= i < interfaces.Length ==> interfaces[i] == old(interfaces[i]).(key := interfaces[i].key)
      ensures err.NoError? && o.newCardsRead ==>
        forall i :: 0 <= i < interfaces.Length ==>
          CardOf(api, vc.vms[id].devices, o.reconfigure, nic, i, interfaces[i].key)
    {
      ghost var m1 := vc.vms[id].devices;
      StaysValid(api, m0, o.reconfigure, None, Some(nic), m1);
      var devices := vc.GetDevices(id);
      assert forall i :: 0 <= i < adds.Length ==> adds[i] == adds[..][i];
      assert !HasCard(o.reconfigure.listing.value) ==> adds[0].unitNumber.None?;
      assert HasCard(o.reconfigure.listing.value) ==> forall i :: 0 <= i < adds.Length ==> adds[i].unitNumber.Some?;
      var panicked := WriteBack(if o.newCardsRead then devices else [], adds, interfaces);
      if panicked {
        return WriteBackPanic;
      }
      err := NoError;
      if o.newCardsRead {
        forall i | 0 <= i < interfaces.Length ensures CardOf(api, m1, o.reconfigure, nic, i, interfaces[i].key) {
          FoundKeyIsNewCard(api, m0, o.reconfigure, nic, m1, devices, i, interfaces[i].key);
        }
      }
    }

    /** The whole deployment. */
    method Deploy(p: DeployParameter, ids: seq<string>, o: DeployOutcome) returns (err: DeployError)
      requires newVM.None? && Made(o.clone) !! vc.vms.Keys
      requires o.clone.Cloned? ==> Ready(o.clone.vm.devices, p, ids, o)
      modifies this, vc, if p.interfaces.Some? then {p.interfaces.value} else {}
      ensures LeavesBehind(old(vc.vms), vc.vms, o, err)
      ensures newVM == if o.clone.Cloned? then Some(o.clone.id) else None
      ensures
        var due := p.os.Some? && o.guestIsWindows.Some? &&
          ((o.guestIsWindows.value && p.os.value.windows) || (!o.guestIsWindows.value && p.os.value.linux));
        err == DeployResult(api, p.interfaces.Some?, Defaulted(old(InterfaceValues(p)), config),
                 p.os.Some? && o.guestIsWindows.None?, due, old(EffectiveIP()) > 0, old(EffectiveNet()) > 0, o)
      ensures err.NoError? && o.clone.Cloned? ==>
        && vc.vms[o.clone.id].power.PoweredOn?
        && vc.vms[o.clone.id].hardware == ChangedHardware(o.clone.vm.hardware, p.hardware)
      ensures err.NoError? && o.clone.Cloned? && o.newCardsRead ==>
        CardsBelong(vc.vms[o.clone.id].devices, old(InterfaceValues(p)), InterfaceValues(p),
                    p.interfaces.Some? && o.cardsRead)
      ensures
        o.clone.Cloned?
        && (err.NoError? || err.PowerOnError? || err.PowerOnPanic? || err.WaitIPError? || err.WaitNetError?) ==>
          var due := p.os.Some? && o.guestIsWindows.Some? &&
            ((o.guestIsWindows.value && p.os.value.windows) || (!o.guestIsWindows.value && p.os.value.linux));
          var sent := old(vc.calls) + [Submit(o.clone.id, o.clone.vm.power, p.hardware)]
            + if due then [Call.Customize(o.clone.id, KeysOf(InterfaceValues(p)))] else [];
          && sent <= vc.calls
          && forall i :: |sent| <= i < |vc.calls| ==> !vc.calls[i].Submit? && !vc.calls[i].Customize?
    {
      Prepare(p);
      var id, fault := vc.Clone(o.clone);
      if id.None? {
        return if fault.NoFault? then NoError else if fault.Failed? then CloneError else ClonePanic;
      }
      newVM := id;
      err := SetUp(id.value, p, ids, o);
    }

    method Prepare(p: DeployParameter)
      modifies this`timeout, if p.interfaces.Some? then {p.interfaces.value} else {}
      ensures InterfaceValues(p) == Defaulted(old(InterfaceValues(p)), config)
      ensures
        && timeout.Some? && timeout.value.waitForIP == Some(old(EffectiveIP()))
        && timeout.value.waitForNet == Some(old(EffectiveNet()))
    {
      SetTimeout();
      if p.interfaces.Some? {
        SetDefault(p.interfaces.value);
      }
      assert InterfaceValues(p) == Defaulted(old(InterfaceValues(p)), config);
    }

    /** Everything after the clone. */
    method SetUp(id: string, p: DeployParameter, ids: seq<string>, o: DeployOutcome) returns (err: DeployError)
      requires id in vc.vms && newVM == Some(id) && Ready(vc.vms[id].devices, p, ids, o)
      requires timeout.Some? && timeout.value.waitForIP.Some? && timeout.value.waitForNet.Some?
      modifies vc, if p.interfaces.Some? then {p.interfaces.value} else {}
      ensures forall k :: k in old(vc.vms) && k != id ==> k in vc.vms && vc.vms[k] == old(vc.vms)[k]
      ensures vc.vms.Keys == old(vc.vms).Keys -
        if RollsBack(err) && DestroyWorks(PowerAt(err, old(vc.vms[id])), o.rollBack) then {id} else {}
      ensures err ==
        SetUpResult(api, p.interfaces.Some?, old(InterfaceValues(p)), GuestUnread(p, o), ShouldCustomize(p, o),
                       old(vc.vms[id].power), timeout.value.waitForIP.value > 0, timeout.value.waitForNet.value > 0, o)
      ensures err.NoError? ==>
        vc.vms[id].power.PoweredOn? && vc.vms[id].hardware == ChangedHardware(old(vc.vms[id].hardware), p.hardware)
      ensures err.NoError? && o.newCardsRead ==>
        CardsBelong(vc.vms[id].devices, old(InterfaceValues(p)), InterfaceValues(p), p.interfaces.Some? && o.cardsRead)
      ensures Reaches(err) ==>
        var sent := old(vc.calls) + SentFirst(id, old(vc.vms[id].power), p, o, KeysOf(InterfaceValues(p)));
        && sent <= vc.calls
        && forall i :: |sent| <= i < |vc.calls| ==> !vc.calls[i].Submit? && !vc.calls[i].Customize?
    {
      err := ConfigureOrUndo(id, p, ids, o);
      if err.NoError? {
        err := StartAndWait(id, o);
      }
    }

    /** Hardware and guest settings, or the rollback. */
    method ConfigureOrUndo(id: string, p: DeployParameter, ids: seq<string>, o: DeployOutcome)
      returns (err: DeployError)
      requires id in vc.vms && newVM == Some(id) && Ready(vc.vms[id].devices, p, ids, o)
      modifies vc, if p.interfaces.Some? then {p.interfaces.value} else {}
      ensures forall k :: k in old(vc.vms) && k != id ==> k in vc.vms && vc.vms[k] == old(vc.vms)[k]
      ensures vc.vms.Keys == old(vc.vms).Keys -
        if RollsBack(err) && DestroyWorks(old(vc.vms[id].power), o.rollBack) then {id} else {}
      ensures err == RolledBack(
        ConfigureResult(api, p.interfaces.Some?, old(InterfaceValues(p)), GuestUnread(p, o), ShouldCustomize(p, o), o),
        o.rollBack, old(vc.vms[id].power))
      ensures err.NoError? ==>
        && vc.vms[id].power == old(vc.vms[id].power)
        && vc.vms[id].hardware == ChangedHardware(old(vc.vms[id].hardware), p.hardware)
        && (o.newCardsRead ==>
              CardsBelong(vc.vms[id].devices, old(InterfaceValues(p)), InterfaceValues(p),
                          p.interfaces.Some? && o.cardsRead))
        && vc.calls == old(vc.calls) + SentFirst(id, old(vc.vms[id].power), p, o, KeysOf(InterfaceValues(p)))
    {
      err := Configure(id, p, ids, o);
      if RollsBack(err) {
        var panics := RollBack(o.rollBack);
        err := if panics then RollBackPanic else err;
      }
    }

    /** Hardware and guest settings. */
    method Configure(id: string, p: DeployParameter, ids: seq<string>, o: DeployOutcome) returns (err: DeployError)
      requires id in vc.vms && Ready(vc.vms[id].devices, p, ids, o)
      modifies vc, if p.interfaces.Some? then {p.interfaces.value} else {}
      ensures vc.vms.Keys == old(vc.vms).Keys
      ensures forall k :: k in old(vc.vms) && k != id ==> vc.vms[k] == old(vc.vms)[k]
      ensures vc.vms[id].power == old(vc.vms[id].power)
      ensures err ==
        ConfigureResult(api, p.interfaces.Some?, old(InterfaceValues(p)), GuestUnread(p, o), ShouldCustomize(p, o), o)
      ensures err.NoError? ==> vc.vms[id].hardware == ChangedHardware(old(vc.vms[id].hardware), p.hardware)
      ensures err.NoError? && o.newCardsRead ==>
        CardsBelong(vc.vms[id].devices, old(InterfaceValues(p)), InterfaceValues(p), p.interfaces.Some? && o.cardsRead)
      ensures err.NoError? ==>
        vc.calls == old(vc.calls) + SentFirst(id, old(vc.vms[id].power), p, o, KeysOf(InterfaceValues(p)))
    {
      err := ConfigureHardware(id, p, ids, o);
      if !err.NoError? {
        return;
      }
      if GuestUnread(p, o) {
        return GuestPanic;
      }
      if ShouldCustomize(p, o) {
        var adapters := KeysOf(InterfaceValues(p));
        var fault := vc.Customize(id, adapters, o.customize);
        match fault
        case NoFault =>
        case Failed => err := CustomizeError;
        case Panicked => err := GuestPanic;
      }
    }

    /** Start the machine, and wait for its address and network.  A failed start is not rolled back. */
    method StartAndWait(id: string, o: DeployOutcome) returns (err: DeployError)
      requires id in vc.vms && newVM == Some(id)
      requires timeout.Some? && timeout.value.waitForIP.Some? && timeout.value.waitForNet.Some?
      modifies vc
      ensures forall k :: k in old(vc.vms) && k != id ==> k in vc.vms && vc.vms[k] == old(vc.vms)[k]
      ensures err ==
        StartResult(old(vc.vms[id].power), timeout.value.waitForIP.value > 0, timeout.value.waitForNet.value > 0, o)
      ensures vc.vms.Keys == old(vc.vms).Keys -
        if RollsBack(err) && DestroyWorks(PoweredOn, o.rollBack) then {id} else {}
      ensures err.NoError? ==> vc.vms[id] == old(vc.vms[id]).(power := PoweredOn)
      ensures err.NoError? ==>
        vc.calls == old(vc.calls) + if old(vc.vms[id].power).PoweredOn? then [] else [Start(id, true)]
      ensures old(vc.calls) <= vc.calls
      ensures forall i :: |old(vc.calls)| <= i < |vc.calls| ==> !vc.calls[i].Submit? && !vc.calls[i].Customize?
    {
      var fault := vc.PowerOn(id, o.powerOn);
      if !fault.NoFault? {
        return if fault.Panicked? then PowerOnPanic else PowerOnError;
      }
      if timeout.value.waitForIP.value > 0 {
        if !o.waitIP {
          var panics := RollBack(o.rollBack);
          return if panics then RollBackPanic else WaitIPError;
        }
        if timeout.value.waitForNet.value > 0 {
          if !o.waitNet {
            var panics := RollBack(o.rollBack);
            return if panics then RollBackPanic else WaitNetError;
          }
        }
      }
      err := NoError;
    }
  }

  /** What a deployment sends before it starts the machine: the hardware, and the guest settings if they are due. */
  function SentFirst(id: string, power: Power, p: DeployParameter, o: DeployOutcome, keys: seq<int>): seq<Call> {
    [Submit(id, power, p.hardware)] + if ShouldCustomize(p, o) then [Call.Customize(id, keys)] else []
  }

  /** The interfaces with the configured adapter type where none is given. */
  function Defaulted(interfaces: seq<NetworkInterface>, config: Config): seq<NetworkInterface> {
    seq(|interfaces|, i requires 0 <= i < |interfaces| =>
      if interfaces[i].adapterType.None? then interfaces[i].(adapterType := config.adapterType) else interfaces[i])
  }

  function KeysOf(interfaces: seq<NetworkInterface>): seq<int> {
    seq(|interfaces|, i requires 0 <= i < |interfaces| => interfaces[i].key)
  }

  /** One adapter setting for each interface, in order, with its key. */
  lemma KeysOfIs(interfaces: seq<NetworkInterface>)
    ensures |KeysOf(interfaces)| == |interfaces|
    ensures forall i :: 0 <= i < |interfaces| ==> KeysOf(interfaces)[i] == interfaces[i].key
  {
  }

  /** The deployment certainly got past the guest settings. */
  predicate Reaches(e: DeployError) {
    e.NoError? || e.PowerOnError? || e.PowerOnPanic? || e.WaitIPError? || e.WaitNetError?
  }

  function StartResult(power: Power, waitsIP: bool, waitsNet: bool, o: DeployOutcome): DeployError {
    if o.powerOn.Unread? then PowerOnPanic
    else if !power.PoweredOn? && !o.powerOn.Succeeds() then PowerOnError
    else RolledBack(WaitResult(waitsIP, waitsNet, o), o.rollBack, PoweredOn)
  }

  function WaitResult(waitsIP: bool, waitsNet: bool, o: DeployOutcome): DeployError {
    if waitsIP && !o.waitIP then WaitIPError
    else if waitsIP && waitsNet && !o.waitNet then WaitNetError
    else NoError
  }

  function SetUpResult(api: Api, asked: bool, interfaces: seq<NetworkInterface>, guestUnread: bool, customizes: bool,
    power: Power, waitsIP: bool, waitsNet: bool, o: DeployOutcome): DeployError
  {
    var configured := ConfigureResult(api, asked, interfaces, guestUnread, customizes, o);
    if !configured.NoError? then RolledBack(configured, o.rollBack, power) else StartResult(power, waitsIP, waitsNet, o)
  }

  function ConfigureResult(api: Api, asked: bool, interfaces: seq<NetworkInterface>, guestUnread: bool,
    customizes: bool, o: DeployOutcome): DeployError {
    var hardware := HardwareResult(api, asked, interfaces, o);
    if !hardware.NoError? then hardware
    else if guestUnread || (customizes && o.customize.Unread?) then GuestPanic
    else if customizes && !o.customize.Succeeds() then CustomizeError
    else NoError
  }

  /** How a deployment ends. */
  function DeployResult(api: Api, asked: bool, interfaces: seq<NetworkInterface>, guestUnread: bool, customizes: bool,
    waitsIP: bool, waitsNet: bool, o: DeployOutcome): DeployError
  {
    if o.clone.CloneFailed? then CloneError
    else if o.clone.ClonePanics? then ClonePanic
    else if o.clone.CloneUnread? then NoError
    else SetUpResult(api, asked, interfaces, guestUnread, customizes, o.clone.vm.power, waitsIP, waitsNet, o)
  }

  /** The first thing that goes wrong decides how a deployment ends, and a rollback that panics hides what it was. */
  lemma WhatGoesWrongFirst(api: Api, asked: bool, interfaces: seq<NetworkInterface>, guestUnread: bool,
    customizes: bool, waitsIP: bool, waitsNet: bool, o: DeployOutcome)
    ensures DeployResult(api, asked, interfaces, guestUnread, customizes, waitsIP, waitsNet, o) ==
      match o.clone
      case CloneFailed(_, _) => CloneError
      case ClonePanics(_, _) => ClonePanic
      case CloneUnread(_, _) => NoError
      case Cloned(_, vm) =>
        var r := o.reconfigure;
        var card := r.listing.Some? && exists d :: d in r.listing.value && d.kind.Card?;
        var possible := forall i :: 0 <= i < |interfaces| ==>
          && interfaces[i].networkID in api.networks
          && interfaces[i].adapterType.Some? && interfaces[i].adapterType.value in api.adapterTypes;
        var unread := o.rollBack.found && !o.rollBack.read;
        var stuck := o.rollBack.found && o.rollBack.powerOff.Unread?;
        if !r.found || r.listing.None? || !r.task.Done? || (asked && card && !possible) then
          if unread || (stuck && !vm.power.PoweredOff?) then RollBackPanic else HardwareError
        else if asked && !card && interfaces != [] then WriteBackPanic
        else if guestUnread || (customizes && o.customize.Unread?) then GuestPanic
        else if customizes && o.customize != Tried(Done) then
          if unread || (stuck && !vm.power.PoweredOff?) then RollBackPanic else CustomizeError
        else if o.powerOn.Unread? then PowerOnPanic
        else if !vm.power.PoweredOn? && o.powerOn != Tried(Done) then PowerOnError
        else if waitsIP && !o.waitIP then if unread || stuck then RollBackPanic else WaitIPError
        else if waitsIP && waitsNet && !o.waitNet then if unread || stuck then RollBackPanic else WaitNetError
        else NoError
  {
    if o.clone.Cloned? && o.reconfigure.listing.Some? {
      assert HasCard(o.reconfigure.listing.value) <==>
        exists d :: d in o.reconfigure.listing.value && d.kind.Card?;
    }
  }

  /** `key` belongs to the card made from the i-th addition. */
  ghost predicate CardOf(api: Api, m: DeviceMap, r: ReconfigureOutcome, nic: NicRequest, i: nat, key: int) {
    && i < |nic.add| <= |r.landings| && r.listing.Some?
    && key == r.landings[i].key
    && key in m && m[key].kind.Card? && m[key].backing.CardBacking? && m[key].backing.network == nic.add[i].networkID
    && m[key].unit == Some(FreshUnits(r.listing.value, "nic", |nic.add|)[i])
  }

  lemma AllCardsNew(api: Api, m0: DeviceMap, r: ReconfigureOutcome, nic: NicRequest, m1: DeviceMap,
    was: seq<NetworkInterface>, now: seq<NetworkInterface>, ids: seq<string>, all: bool)
    requires Truthful(m0, r, |nic.add|) && Reconfigured(api, m0, r, None, Some(nic), m1)
    requires |ids| >= |was| == |now| && nic.add == AdditionsFor(was, ids)
    requires forall i :: 0 <= i < |now| ==> CardOf(api, m1, r, nic, i, now[i].key)
    requires all ==> forall k :: k in m0 && m0[k].kind.Card? ==> k in nic.remove
    ensures CardsBelong(m1, was, now, all)
  {
    FreshUnitsAreFresh(r.listing.value, "nic", |nic.add|);
    if all {
      forall k | k in m1 && m1[k].kind.Card? ensures exists i :: 0 <= i < |now| && now[i].key == k {
        OnlyNewCards(api, m0, r, nic, m1, k);
        var i :| 0 <= i < |nic.add| && r.landings[i].key == k;
        assert now[i].key == k;
      }
    }
  }

  /** What a deployment needs to be true of vCenter and of the IDs it draws. */
  ghost predicate ReadyFor(m: DeviceMap, n: nat, ids: seq<string>, o: DeployOutcome) {
    && Truthful(m, o.reconfigure, n)
    && (o.reconfigure.listing.Some? ==>
          AllValid(o.reconfigure.listing.value) && |o.reconfigure.listing.value| + n + 9 <= MAX_INT32)
    && |ids| >= n && DistinctIDs(ids)
  }

  ghost predicate Ready(m: DeviceMap, p: DeployParameter, ids: seq<string>, o: DeployOutcome) {
    ReadyFor(m, if p.interfaces.Some? then p.interfaces.value.Length else 0, ids, o)
  }

  /** Every interface names a network that exists and an adapter type that can be made. */
  predicate InterfacesPossible(interfaces: seq<NetworkInterface>, api: Api) {
    forall i :: 0 <= i < |interfaces| ==>
      && interfaces[i].networkID in api.networks
      && interfaces[i].adapterType.Some? && interfaces[i].adapterType.value in api.adapterTypes
  }

  /** How the reconfiguration and the write-back end. */
  function HardwareResult(api: Api, asked: bool, interfaces: seq<NetworkInterface>, o: DeployOutcome): DeployError {
    var r := o.reconfigure;
    if !r.found || r.listing.None? || !r.task.Done? then HardwareError
    else if !asked then NoError
    else if HasCard(r.listing.value) then
      if InterfacesPossible(interfaces, api) then NoError else HardwareError
    else if interfaces == [] then NoError
    else WriteBackPanic
  }

  /** Each interface holds the key of a card on the network it asked for, and the unit numbers of these
      cards increase with the position, so the i-th adapter setting is for the card with the i-th
      smallest number.  If `all`, the machine has no other card. */
  ghost predicate CardsBelong(m: DeviceMap, was: seq<NetworkInterface>, now: seq<NetworkInterface>, all: bool) {
    && |now| == |was|
    && (forall i :: 0 <= i < |now| ==>
          && now[i].key in m && m[now[i].key].kind.Card? && m[now[i].key].unit.Some?
          && m[now[i].key].backing.CardBacking? && m[now[i].key].backing.network == was[i].networkID)
    && (forall i, j :: 0 <= i < j < |now| ==> m[now[i].key].unit.value < m[now[j].key].unit.value)
    && (all ==> forall k :: k in m && m[k].kind.Card? ==> exists i :: 0 <= i < |now| && now[i].key == k)
  }

  lemma NoCardsAsked(m: DeviceMap, api: Api, o: ReconfigureOutcome)
    requires o.listing.Some? ==> AllValid(o.listing.value)
    ensures CompileFault(api, o, None, None) == if o.found && o.listing.Some? then NoFault else Failed
    ensures NothingBothRemovedAndTouched(m, None, None)
  {
  }

  lemma CardsFault(m: DeviceMap, api: Api, o: ReconfigureOutcome, nic: NicRequest)
    requires o.listing.Some? ==> AllValid(o.listing.value)
    requires nic.edit == []
    ensures CompileFault(api, o, None, Some(nic))
      == if o.found && o.listing.Some? && (HasCard(o.listing.value) ==> CardsPossible(nic.add, api))
         then NoFault else Failed
    ensures NothingBothRemovedAndTouched(m, None, Some(nic))
  {
  }

  lemma AdditionsPossible(interfaces: seq<NetworkInterface>, ids: seq<string>, api: Api)
    requires |ids| >= |interfaces|
    ensures CardsPossible(AdditionsFor(interfaces, ids), api) <==> InterfacesPossible(interfaces, api)
  {
    var adds := AdditionsFor(interfaces, ids);
    if CardsPossible(adds, api) {
      forall i | 0 <= i < |interfaces|
        ensures interfaces[i].networkID in api.networks
        ensures interfaces[i].adapterType.Some? && interfaces[i].adapterType.value in api.adapterTypes
      {
        assert adds[i] in adds;
      }
    }
  }
}

/** The recovery pass on start-up (startup/startup.go) over the stored requests
    (vsphere/workerpool/taskreceiver/task_receiver.go), and where its callbacks go
    (vsphere/callback/callback.go, config/config.go). */
module Startup {
  import opened Wrappers

  /** A field of a stored request: a callback with the address it names, one of another shape, or any other value. */
  datatype Field = CallbackField(address: Option<string>) | Malformed | Other

  /** A stored request as JSON reads it back. */
  datatype Record = Garbage | Fields(fields: map<string, Field>)

  type Store = map<string, Record>

  const TAG := "callback"

  /** The configured default: the section for it may be missing, or be there without an address. */
  datatype Default = NoSection | NoAddress | Address(url: string)

  predicate Parses(r: Record) {
    r.Fields? && (TAG in r.fields ==> r.fields[TAG].CallbackField?)
  }

  /** The address recovery reads. A field under any other name is not seen, and no address is then known. */
  function AddressOf(r: Record): Option<string>
    requires Parses(r)
  {
    if TAG in r.fields then r.fields[TAG].address else None
  }

  /** The address a callback is sent to, or none if the sender panics instead: it reads the address of the default
      section before it looks at the request's own, and casts the value when both are nil. */
  function Destination(address: Option<string>, default: Default): Option<string> {
    match default
    case NoSection => None
    case NoAddress => address
    case Address(url) => if address.Some? then address else Some(url)
  }

  /** A callback telling that the request failed. */
  datatype Call = Call(id: string, destination: string)

  predicate Recoverable(r: Record, default: Default) {
    Parses(r) && Destination(AddressOf(r), default).Some?
  }

  predicate AllRecoverable(records: Store, default: Default) {
    forall id :: id in records ==> Recoverable(records[id], default)
  }

  predicate NoneRecoverable(records: Store, default: Default) {
    forall id :: id in records ==> !Recoverable(records[id], default)
  }

  predicate AllParse(records: Store) {
    forall id :: id in records ==> Parses(records[id])
  }

  function CallOf(id: string, r: Record, default: Default): Call
    requires Recoverable(r, default)
  {
    Call(id, Destination(AddressOf(r), default).value)
  }

  /** Every call is about a record of the store and goes where that record says. */
  predicate Aimed(calls: seq<Call>, records: Store, default: Default) {
    forall i :: 0 <= i < |calls| ==>
      var id := calls[i].id;
      id in records && Recoverable(records[id], default) && calls[i] == CallOf(id, records[id], default)
  }

  /** How often each request is called. */
  function Called(calls: seq<Call>): multiset<string> {
    if calls == [] then multiset{} else
    var n := |calls| - 1;
    Called(calls[..n]) + multiset{calls[n].id}
  }

  function Least(a: nat, b: nat): nat {
    if a < b then a else b
  }

  /** Over processes that live for so many steps each, a call or a deletion being one, how many of them end
      between a call and its deletion, with n records at the start. */
  function TornCount(n: nat, lives: seq<nat>): nat {
    if lives == [] then 0 else
    var steps := Least(lives[0], 2 * n);
    steps % 2 + TornCount(n - steps / 2, lives[1..])
  }

  /** How far the pass gets with one record. */
  datatype Ending = Unparsed | Panics | Torn | Handled

  function EndingOf(r: Record, default: Default, left: nat): Ending {
    if !Parses(r) then Unparsed else if !Recoverable(r, default) then Panics else if left == 1 then Torn else Handled
  }

  /** So far one call for each removed record. */
  predicate Progress(start: Store, default: Default, removed: set<string>, sent: seq<Call>) {
    removed <= start.Keys && Aimed(sent, start, default) && Called(sent) == multiset(removed)
  }

  function Once(torn: Option<string>): multiset<string> {
    if torn.Some? then multiset{torn.value} else multiset{}
  }

  /** What a pass over `start` has done when it is over: one call for each record it removed and one for the record
      it was torn at, if any, which is still stored. It ends normally, after all records or at one that does not
      parse, by the end of the process after its steps, or by a panic at a record that cannot be sent. */
  predicate PassDone(start: Store, default: Default, steps: nat,
    fault: Fault, removed: set<string>, torn: Option<string>, sent: seq<Call>)
  {
    && removed <= start.Keys && Aimed(sent, start, default) && Called(sent) == multiset(removed) + Once(torn)
    && (torn.Some? ==> torn.value in start.Keys - removed && fault.NoFault?)
    && !fault.Failed?
    && (AllRecoverable(start, default) ==>
          fault.NoFault? && 2 * |removed| + (if torn.Some? then 1 else 0) == Least(steps, 2 * |start|))
    && (steps >= 2 * |start| ==> (removed == start.Keys <==> AllRecoverable(start, default)))
    && (steps >= 2 * |start| && AllParse(start) ==> (fault.Panicked? <==> !AllRecoverable(start, default)))
    && (fault.Panicked? ==>
          exists id :: id in start.Keys - removed && Parses(start[id]) && !Recoverable(start[id], default))
    && (steps >= 2 * |start| && fault.NoFault? && removed != start.Keys ==>
          exists id :: id in start.Keys - removed && !Parses(start[id]))
    && (steps > 0 && start != map[] && AllParse(start) && NoneRecoverable(start, default) ==>
          fault.Panicked? && removed == {} && sent == [])
  }

  class TaskReceiver {
    var records: Store
    var calls: seq<Call>

    constructor ()
      ensures records == map[] && calls == []
    {
      records, calls := map[], [];
    }

    /** A failing store is logged and otherwise ignored. */
    method Receive(id: string, request: Record, works: bool)
      modifies this`records
      ensures records == if works then old(records)[id := request] else old(records)
    {
      if works {
        records := records[id := request];
      }
    }

    method Done(id: string, works: bool)
      modifies this`records
      ensures records == if works then old(records) - {id} else old(records)
    {
      if works {
        records := records - {id};
      }
    }

    method Cancel(id: string, works: bool)
      modifies this`records
      ensures records == if works then old(records) - {id} else old(records)
    {
      if works {
        records := records - {id};
      }
    }

    method CallbackErr(id: string, address: Option<string>, default: Default) returns (fault: Fault)
      modifies this`calls
      ensures fault == if default.NoSection? || (address.None? && default.NoAddress?) then Panicked else NoFault
      ensures fault.Panicked? ==> calls == old(calls)
      ensures fault.NoFault? ==> calls == old(calls) + [Call(id, if address.Some? then address.value else default.url)]
    {
      if default.NoSection? {
        return Panicked;
      }
      var post := address;
      if post.None? && default.Address? {
        post := Some(default.url);
      }
      match post
      case None => fault := Panicked;
      case Some(url) =>
        calls := calls + [Call(id, url)];
        fault := NoFault;
    }

    /** Calls back one record and removes it, for a process that has so many steps left. */
    method ReportRecord(id: string, default: Default, left: nat) returns (end: Ending)
      requires id in records && left > 0
      modifies this
      ensures end == EndingOf(old(records)[id], default, left)
      ensures records == if end.Handled? then old(records) - {id} else old(records)
      ensures end.Handled? || end.Torn? ==> calls == old(calls) + [CallOf(id, old(records)[id], default)]
      ensures end.Unparsed? || end.Panics? ==> calls == old(calls)
    {
      var p := records[id];
      if !Parses(p) {
        return Unparsed;
      }
      var fault := CallbackErr(id, AddressOf(p), default);
      if fault == Panicked {
        return Panics;
      }
      if left == 1 {
        return Torn;
      }
      Cancel(id, true);
      end := Handled;
    }

    /** Calls back and removes record after record of the snapshot, in no particular order, until one does not
        parse, or sending panics, which ends the process. The process may also end after any number of steps, a
        call or a deletion being one: then a record may have been called and still be stored. */
    method InterruptTaskCallback(default: Default, steps: nat)
      returns (fault: Fault, removed: set<string>, torn: Option<string>, ghost sent: seq<Call>)
      modifies this
      ensures calls == old(calls) + sent && records == old(records) - removed
      ensures PassDone(old(records), default, steps, fault, removed, torn, sent)
    {
      fault, torn := NoFault, None;
      var todo, left := records, steps;
      removed, sent := {}, [];
      ghost var start := records;
      ghost var before := calls;
      while todo != map[] && left > 0
        invariant todo == start - removed && records == todo && calls == before + sent
        invariant fault.NoFault? && torn.None? && left == steps - 2 * |removed|
        invariant Progress(start, default, removed, sent)
        decreases |todo|
      {
        var _ := SomeElement(todo.Keys);
        var id :| id in todo;
        assert todo[id] == start[id];
        var end := ReportRecord(id, default, left);
        if end.Unparsed? {
          StoppedPass(start, default, steps, NoFault, removed, id, sent);
          return;
        }
        if end.Panics? {
          StoppedPass(start, default, steps, Panicked, removed, id, sent);
          return Panicked, removed, None, sent;
        }
        ghost var call := CallOf(id, start[id], default);
        Associate(before, sent, [call]);
        if end.Torn? {
          TornPass(start, default, steps, removed, id, sent);
          return NoFault, removed, Some(id), sent + [call];
        }
        OneMoreRecord(start, default, removed, id, sent);
        Shrinks(start, todo, removed, id);
        sent, removed := sent + [call], removed + {id};
        todo, left := todo - {id}, left - 2;
      }
      WholePass(start, default, steps, removed, sent);
    }

    /** Processes that end early, one after the other, and one that does not. */
    method RecoverAfterInterruptions(default: Default, lives: seq<nat>)
      returns (ghost sent: seq<Call>, ghost torn: seq<string>)
      requires AllRecoverable(records, default)
      modifies this
      ensures records == map[] && calls == old(calls) + sent
      ensures AllReported(old(records), default, sent, torn)
      ensures |torn| == TornCount(|old(records)|, lives)
      decreases |lives|
    {
      ghost var start := records;
      ghost var before := calls;
      if lives == [] {
        var _, removed, cut, all := InterruptTaskCallback(default, 2 * |records|);
        UntornPass(start, default, removed, cut, all);
        return all, [];
      }
      var _, removed, cut, early := InterruptTaskCallback(default, lives[0]);
      Remaining(start, removed);
      var laterSent, laterTorn := RecoverAfterInterruptions(default, lives[1..]);
      Associate(before, early, laterSent);
      Together(start, default, lives[0], removed, cut, early, laterSent, laterTorn);
      sent, torn := early + laterSent, CutList(cut) + laterTorn;
      OneMoreLife(|start|, lives, |removed|, |CutList(cut)|);
    }
  }

  lemma OneMoreLife(n: nat, lives: seq<nat>, removed: nat, cut: nat)
    requires lives != [] && cut <= 1 && removed <= n && 2 * removed + cut == Least(lives[0], 2 * n)
    ensures TornCount(n, lives) == cut + TornCount(n - removed, lives[1..])
  {
    assert Least(lives[0], 2 * n) / 2 == removed;
  }

  function CutList(cut: Option<string>): seq<string> {
    if cut.Some? then [cut.value] else []
  }

  /** Every record is called once, to the right address, and once more for each process torn at it. */
  predicate AllReported(start: Store, default: Default, sent: seq<Call>, torn: seq<string>) {
    && Aimed(sent, start, default)
    && Called(sent) == multiset(start.Keys) + multiset(torn)
    && forall id :: id in torn ==> id in start
  }

  /** So every record is reported at least once, and exactly once if and only if no process ended between a call
      and its deletion. */
  lemma {:induction false} AtLeastOnceExactlyOnce(start: Store, default: Default, sent: seq<Call>, torn: seq<string>)
    requires AllReported(start, default, sent, torn)
    ensures forall id :: id in start ==> Called(sent)[id] >= 1
    ensures (forall id :: id in start ==> Called(sent)[id] == 1) <==> |torn| == 0
  {
    if torn != [] {
      assert torn[0] in torn;
      assert multiset(torn)[torn[0]] >= 1;
      assert Called(sent)[torn[0]] >= 2;
    }
  }

  /** For one process before the last that happens exactly when it ends after an odd number of steps, with records
      left. */
  lemma {:induction false} OneInterruption(n: nat, steps: nat)
    ensures TornCount(n, [steps]) == if steps < 2 * n && steps % 2 == 1 then 1 else 0
  {
    assert [steps][1..] == [];
  }

  // ----- What one pass adds -----

  lemma {:induction false} CalledConcat(a: seq<Call>, b: seq<Call>)
    ensures Called(a + b) == Called(a) + Called(b)
  {
    if b == [] {
      assert a + b == a;
    } else {
      var n := |b| - 1;
      assert (a + b)[..|a + b| - 1] == a + b[..n];
      CalledConcat(a, b[..n]);
    }
  }

  lemma {:induction false} OneMoreCall(calls: seq<Call>, records: Store, default: Default, id: string)
    requires Aimed(calls, records, default) && id in records && Recoverable(records[id], default)
    ensures Aimed(calls + [CallOf(id, records[id], default)], records, default)
    ensures Called(calls + [CallOf(id, records[id], default)]) == Called(calls) + multiset{id}
  {
    assert (calls + [CallOf(id, records[id], default)])[..|calls|] == calls;
  }

  lemma OneMoreRecord(start: Store, default: Default, removed: set<string>, id: string, sent: seq<Call>)
    requires Progress(start, default, removed, sent)
    requires id in start && id !in removed && Recoverable(start[id], default)
    ensures Progress(start, default, removed + {id}, sent + [CallOf(id, start[id], default)])
    ensures |removed + {id}| == |removed| + 1
  {
    OneMoreCall(sent, start, default, id);
    assert multiset(removed + {id}) == multiset(removed) + multiset{id};
  }

  lemma Shrinks(start: Store, todo: Store, removed: set<string>, id: string)
    requires todo == start - removed && id in todo
    ensures |todo - {id}| == |todo| - 1
    ensures todo - {id} == start - (removed + {id})
  {
    assert (todo - {id}).Keys == todo.Keys - {id};
    assert |todo.Keys| == |todo| && |(todo - {id}).Keys| == |todo - {id}|;
  }

  lemma Remaining(start: Store, removed: set<string>)
    requires removed <= start.Keys
    ensures |start - removed| + |removed| == |start|
    ensures (start - removed).Keys == start.Keys - removed
    ensures multiset(start.Keys) == multiset(removed) + multiset((start - removed).Keys)
  {
    var left := start - removed;
    assert left.Keys == start.Keys - removed;
    assert |left.Keys| == |left| && |start.Keys| == |start|;
    assert start.Keys == left.Keys + removed;
  }

  /** As long as one record is left, not all are removed. */
  lemma SomeLeft(start: Store, removed: set<string>, id: string)
    requires removed <= start.Keys && id in start && id !in removed
    ensures |removed| < |start| && removed != start.Keys
  {
    Remaining(start, removed);
    assert |(start - removed).Keys| == |start - removed|;
    assert id in (start - removed).Keys;
  }

  lemma StoppedPass(start: Store, default: Default, steps: nat, fault: Fault, removed: set<string>, id: string,
    sent: seq<Call>)
    requires Progress(start, default, removed, sent) && id in start && id !in removed
      && !Recoverable(start[id], default)
    requires fault == if Parses(start[id]) then Panicked else NoFault
    ensures PassDone(start, default, steps, fault, removed, None, sent)
  {
    SomeLeft(start, removed, id);
    NothingUnrecoverable(start, default, removed, sent);
  }

  lemma TornPass(start: Store, default: Default, steps: nat, removed: set<string>, id: string, sent: seq<Call>)
    requires Progress(start, default, removed, sent) && id in start && id !in removed && Recoverable(start[id], default)
    requires steps == 2 * |removed| + 1
    ensures PassDone(start, default, steps, NoFault, removed, Some(id), sent + [CallOf(id, start[id], default)])
  {
    SomeLeft(start, removed, id);
    OneMoreCall(sent, start, default, id);
  }

  lemma WholePass(start: Store, default: Default, steps: nat, removed: set<string>, sent: seq<Call>)
    requires Progress(start, default, removed, sent)
    requires 2 * |removed| <= steps && (start - removed == map[] || steps == 2 * |removed|)
    ensures PassDone(start, default, steps, NoFault, removed, None, sent)
  {
    Remaining(start, removed);
    var left := start - removed;
    assert |left.Keys| == |left|;
    NothingUnrecoverable(start, default, removed, sent);
    if left == map[] {
      assert removed == start.Keys;
    } else {
      var id := SomeElement(left.Keys);
      SomeLeft(start, removed, id);
    }
  }

  lemma NothingUnrecoverable(start: Store, default: Default, removed: set<string>, sent: seq<Call>)
    requires Progress(start, default, removed, sent)
    ensures forall id :: id in removed ==> Recoverable(start[id], default)
    ensures NoneRecoverable(start, default) ==> removed == {} && sent == []
  {
    AimedAreRecoverable(sent, start, default, removed);
    if sent != [] {
      assert sent[0].id in start;
    }
    if removed != {} {
      var id := SomeElement(removed);
    }
  }

  lemma {:induction false} AimedAreRecoverable(calls: seq<Call>, records: Store, default: Default, ids: set<string>)
    requires Aimed(calls, records, default) && Called(calls) == multiset(ids)
    ensures forall id :: id in ids ==> id in records && Recoverable(records[id], default)
  {
    forall id | id in ids
      ensures id in records && Recoverable(records[id], default)
    {
      assert id in Called(calls);
      CalledBySome(calls, id);
      var i :| 0 <= i < |calls| && calls[i].id == id;
    }
  }

  lemma {:induction false} CalledBySome(calls: seq<Call>, id: string)
    ensures id in Called(calls) ==> exists i :: 0 <= i < |calls| && calls[i].id == id
  {
    if calls != [] {
      var n := |calls| - 1;
      CalledBySome(calls[..n], id);
      if id in Called(calls[..n]) {
        var i :| 0 <= i < n && calls[..n][i].id == id;
        assert calls[i].id == id;
      } else if id in Called(calls) {
        assert calls[n].id == id;
      }
    }
  }

  // ----- Passes that end early -----

  lemma UntornPass(start: Store, default: Default, removed: set<string>, cut: Option<string>, sent: seq<Call>)
    requires PassDone(start, default, 2 * |start|, NoFault, removed, cut, sent) && AllRecoverable(start, default)
    ensures start - removed == map[] && AllReported(start, default, sent, [])
  {
    assert removed == start.Keys && cut.None?;
  }

  lemma Together(start: Store, default: Default, steps: nat, removed: set<string>, cut: Option<string>,
    early: seq<Call>, later: seq<Call>, laterTorn: seq<string>)
    requires PassDone(start, default, steps, NoFault, removed, cut, early)
    requires AllReported(start - removed, default, later, laterTorn)
    ensures AllReported(start, default, early + later, CutList(cut) + laterTorn)
  {
    Remaining(start, removed);
    AimedTogether(early, later, start, removed, default);
    CountedTogether(start, removed, cut, early, later, laterTorn);
    forall id | id in CutList(cut) + laterTorn
      ensures id in start
    {
      assert id in CutList(cut) || id in laterTorn;
    }
  }

  lemma {:induction false} CountedTogether(start: Store, removed: set<string>, cut: Option<string>,
    early: seq<Call>, later: seq<Call>, laterTorn: seq<string>)
    requires removed <= start.Keys
    requires Called(early) == multiset(removed) + Once(cut)
    requires Called(later) == multiset((start - removed).Keys) + multiset(laterTorn)
    ensures Called(early + later) == multiset(start.Keys) + multiset(CutList(cut) + laterTorn)
  {
    CalledConcat(early, later);
    Remaining(start, removed);
    assert multiset(CutList(cut) + laterTorn) == Once(cut) + multiset(laterTorn);
  }

  lemma AimedTogether(early: seq<Call>, later: seq<Call>, start: Store, removed: set<string>, default: Default)
    requires Aimed(early, start, default) && Aimed(later, start - removed, default)
    ensures Aimed(early + later, start, default)
  {
    var all := early + later;
    forall i | 0 <= i < |all|
      ensures all[i].id in start && Recoverable(start[all[i].id], default)
        && all[i] == CallOf(all[i].id, start[all[i].id], default)
    {
      if i < |early| {
        assert all[i] == early[i];
      } else {
        assert all[i] == later[i - |early|];
      }
    }
  }

  // ----- In plain terms -----

  /** A record can be read if it is an object whose field `callback`, if it has one, is a callback; no other field is
      looked at, and so none under another spelling. */
  lemma WhatIsRead(r: Record)
    ensures Parses(r) <==> r.Fields? && ("callback" in r.fields ==> r.fields["callback"].CallbackField?)
    ensures Parses(r) ==> AddressOf(r) == if "callback" in r.fields then r.fields["callback"].address else None
  {
  }

  /** A request whose callback is under `callBack` is reported to the default address or to nobody. */
  lemma OtherSpelling(address: Option<string>, default: Default)
    ensures
      var r := Fields(map["callBack" := CallbackField(address)]);
      && Parses(r) && AddressOf(r) == None
      && Destination(AddressOf(r), default) == if default.Address? then Some(default.url) else None
  {
  }

  /** Every call of a pass is about a stored record that can be read, and goes to the address in its field `callback`,
      or else to the default one. */
  lemma WhereCallsGo(calls: seq<Call>, records: Store, default: Default, i: nat)
    requires Aimed(calls, records, default) && i < |calls|
    ensures
      && calls[i].id in records && records[calls[i].id].Fields? && !default.NoSection?
      && var fields := records[calls[i].id].fields;
         if "callback" in fields && fields["callback"].CallbackField? && fields["callback"].address.Some?
         then calls[i].destination == fields["callback"].address.value
         else default == Address(calls[i].destination)
  {
  }

  /** As many requests are called as there are calls. */
  lemma {:induction false} CalledIs(calls: seq<Call>, id: string)
    ensures |Called(calls)| == |calls|
    ensures Called(calls)[id] > 0 <==> exists i :: 0 <= i < |calls| && calls[i].id == id
  {
    if calls != [] {
      CalledIs(calls[..|calls| - 1], id);
    }
  }

  // ----- When sending works -----

  /** All records are reported if and only if there is none, or the default section exists and each record parses
      and has an address of its own or the default one. */
  lemma Recoverability(records: Store, default: Default)
    ensures AllRecoverable(records, default) <==>
            records == map[] ||
            (!default.NoSection? &&
             forall id :: id in records ==> Parses(records[id]) && (AddressOf(records[id]).Some? || default.Address?))
  {
    if records != map[] {
      var id := SomeElement(records.Keys);
    }
  }

  /** Without a default section even a record that names its own address is not reported. */
  lemma SectionMissing(url: string)
    ensures var r := Fields(map[TAG := CallbackField(Some(url))]);
            Parses(r) && AddressOf(r) == Some(url) && !Recoverable(r, NoSection) && Recoverable(r, NoAddress)
  {
  }

  /** A failure is sent to where the live callback would go exactly when that one goes anywhere and the request keeps
      its address under the name recovery looks for, or names none, or the default one. Reconfiguration requests use
      another spelling. */
  lemma ReachesTheSameAddress(tag: string, address: Option<string>, others: map<string, Field>, default: Default)
    requires tag !in others && TAG !in others
    ensures var r := Fields(others[tag := CallbackField(address)]);
            var live := Destination(address, default);
            Parses(r) && (Destination(AddressOf(r), default).Some? && Destination(AddressOf(r), default) == live <==>
                            live.Some? && (tag == TAG || address.None? || default == Address(address.value)))
  {
  }
}

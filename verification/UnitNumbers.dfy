/** The allocator of unit numbers for new disks and cards
    (helper/virtualmachine/virtualmachinereconfig/virtual_machine_reconfig.go:736-766). */
module UnitNumbers {
  import opened Wrappers
  import opened Devices

  /** The unit numbers of the devices that have one, in list order. */
  function UsedUnits(devices: seq<Device>): (r: seq<int>)
    ensures |r| <= |devices|
  {
    if devices == [] then [] else
    var last := devices[|devices| - 1];
    UsedUnits(devices[..|devices| - 1]) + if last.unit.Some? then [last.unit.value] else []
  }

  lemma {:induction false} UsedUnitsHolds(devices: seq<Device>, i: nat)
    requires i < |devices| && devices[i].unit.Some?
    ensures devices[i].unit.value in UsedUnits(devices)
  {
    if i < |devices| - 1 {
      UsedUnitsHolds(devices[..|devices| - 1], i);
    }
  }

  /** Numbers that a new device of this type must not take. */
  function TakenUnits(devices: seq<Device>, deviceType: string): seq<int> {
    UsedUnits(devices) + if deviceType == "disk" then [7] else []
  }

  function StartUnit(deviceType: string): int {
    if deviceType == "disk" then 1 else if deviceType == "nic" then 7 else 0
  }

  ghost function NotBelow(used: seq<int>, n: int): set<int> {
    set u | u in used && n <= u
  }

  lemma SkipUsed(used: seq<int>, n: int)
    requires n in used
    ensures NotBelow(used, n + 1) == NotBelow(used, n) - {n}
  {
  }

  /** The first `cnt` numbers from `n` on that are not in `used`. */
  function LeastFree(used: seq<int>, n: int, cnt: nat): (r: seq<int>)
    ensures |r| == cnt
    decreases cnt, |NotBelow(used, n)|
  {
    if cnt == 0 then []
    else if n in used then
      SkipUsed(used, n);
      LeastFree(used, n + 1, cnt)
    else
      [n] + LeastFree(used, n + 1, cnt - 1)
  }

  /** The numbers given to `cnt` new devices. */
  function FreshUnits(devices: seq<Device>, deviceType: string, cnt: nat): (r: seq<int>)
    ensures |r| == cnt
  {
    LeastFree(TakenUnits(devices, deviceType), StartUnit(deviceType), cnt)
  }

  /** What the allocator promises, without an algorithm: `r` is increasing, holds `cnt` unused
      numbers that are at least `n`, and misses no unused number below one of its own. */
  ghost predicate IsLeastFree(used: seq<int>, n: int, cnt: nat, r: seq<int>) {
    && |r| == cnt
    && (forall x :: x in r ==> n <= x && x !in used)
    && (forall i, j :: 0 <= i < j < cnt ==> r[i] < r[j])
    && (forall x, m :: x in r && n <= m < x && m !in used ==> m in r)
  }

  lemma {:induction false} LeastFreeIsLeast(used: seq<int>, n: int, cnt: nat)
    ensures IsLeastFree(used, n, cnt, LeastFree(used, n, cnt))
    decreases cnt, |NotBelow(used, n)|
  {
    if cnt == 0 {
    } else if n in used {
      SkipUsed(used, n);
      LeastFreeIsLeast(used, n + 1, cnt);
    } else {
      LeastFreeIsLeast(used, n + 1, cnt - 1);
      PrependLeast(used, n, cnt - 1, LeastFree(used, n + 1, cnt - 1));
    }
  }

  lemma PrependLeast(used: seq<int>, n: int, cnt: nat, rest: seq<int>)
    requires IsLeastFree(used, n + 1, cnt, rest) && n !in used
    ensures IsLeastFree(used, n, cnt + 1, [n] + rest)
  {
    var r := [n] + rest;
    assert forall x :: x in r <==> x == n || x in rest;
    forall i, j | 0 <= i < j < cnt + 1 ensures r[i] < r[j] {
      assert r[j] == rest[j - 1] && rest[j - 1] in rest;
      assert i > 0 ==> r[i] == rest[i - 1];
    }
  }

  /** The promise determines the result. */
  lemma {:induction false} LeastFreeIsUnique(used: seq<int>, n: int, cnt: nat, r: seq<int>)
    requires IsLeastFree(used, n, cnt, r)
    ensures r == LeastFree(used, n, cnt)
    decreases cnt, |NotBelow(used, n)|
  {
    if cnt == 0 {
    } else if n in used {
      SkipUsed(used, n);
      LeastFreeIsUnique(used, n + 1, cnt, r);
    } else {
      assert r[0] in r;
      assert n in r;
      var rest := r[1..];
      assert r == [r[0]] + rest;
      assert forall x :: x in r <==> x == r[0] || x in rest;
      assert r[0] == n by {
        var k :| 0 <= k < cnt && r[k] == n;
      }
      assert forall x :: x in rest ==> n + 1 <= x by {
        forall x | x in rest ensures n + 1 <= x {
          var k :| 0 <= k < |rest| && rest[k] == x;
          assert x == r[k + 1];
        }
      }
      LeastFreeIsUnique(used, n + 1, cnt - 1, rest);
    }
  }

  /** Distinct entries of a list are no more than its length. */
  lemma {:induction false} DistinctAtMostLength(used: seq<int>, taken: set<int>)
    requires forall u :: u in taken ==> u in used
    ensures |taken| <= |used|
  {
    if used == [] {
      assert forall u :: u !in taken;
      assert taken == {};
    } else {
      var last := used[|used| - 1];
      DistinctAtMostLength(used[..|used| - 1], taken - {last});
      assert taken <= (taken - {last}) + {last};
    }
  }

  /** The entry at position `i` exceeds the start by at most `i` plus the number of used entries. */
  lemma {:induction false} LeastFreeBound(used: seq<int>, n: int, cnt: nat, i: nat)
    requires i < cnt
    ensures LeastFree(used, n, cnt)[i] <= n + i + |NotBelow(used, n)|
    decreases cnt, |NotBelow(used, n)|
  {
    LeastFreeIsLeast(used, n, cnt);
    if n in used {
      SkipUsed(used, n);
      LeastFreeBound(used, n + 1, cnt, i);
    } else if i > 0 {
      assert NotBelow(used, n + 1) == NotBelow(used, n);
      LeastFreeBound(used, n + 1, cnt - 1, i - 1);
    }
  }

  /** The loop of the source, on 32-bit numbers.  Device lists are below 2^31 - 9 entries. */
  method GenerateUnitNum(devices: array<Device>, deviceType: string, cnt: nat) returns (unitNumbers: seq<int>)
    requires devices.Length + cnt + 9 <= MAX_INT32
    ensures unitNumbers == FreshUnits(devices[..], deviceType, cnt)
  {
    var usedNu: seq<int> := [];
    for i := 0 to devices.Length
      invariant usedNu == UsedUnits(devices[..i])
    {
      assert devices[..i + 1][..i] == devices[..i];
      if devices[i].unit.Some? {
        usedNu := usedNu + [devices[i].unit.value];
      }
    }
    assert devices[..devices.Length] == devices[..];

    var startNn := 0;
    if deviceType == "disk" {
      startNn := 1;
      usedNu := usedNu + [7];
    } else if deviceType == "nic" {
      startNn := 7;
    }

    assert usedNu == TakenUnits(devices[..], deviceType) && startNn == StartUnit(deviceType);
    unitNumbers := Allocate(usedNu, startNn, cnt);
  }

  method Allocate(usedNu: seq<int>, startNn: int, cnt: nat) returns (unitNumbers: seq<int>)
    requires 0 <= startNn <= 7 && |usedNu| + cnt + 8 <= MAX_INT32
    ensures unitNumbers == LeastFree(usedNu, startNn, cnt)
  {
    unitNumbers := [];
    var newNU := startNn;
    ghost var passed: set<int> := {};
    while |unitNumbers| < cnt
      invariant |unitNumbers| <= cnt
      invariant unitNumbers + LeastFree(usedNu, newNU, cnt - |unitNumbers|) == LeastFree(usedNu, startNn, cnt)
      invariant newNU == startNn + |unitNumbers| + |passed|
      invariant forall u :: u in passed ==> u in usedNu && u < newNU
      decreases cnt - |unitNumbers|, |NotBelow(usedNu, newNU)|
    {
      DistinctAtMostLength(usedNu, passed);
      NoWrap(newNU + 1);
      if newNU in usedNu {
        SkipUsed(usedNu, newNU);
        passed := passed + {newNU};
        newNU := WrapInt32(newNU + 1);
      } else {
        TakeNext(usedNu, newNU, cnt - |unitNumbers|, unitNumbers);
        unitNumbers := unitNumbers + [newNU];
        newNU := WrapInt32(newNU + 1);
      }
    }
  }

  lemma TakeNext(used: seq<int>, n: int, cnt: nat, before: seq<int>)
    requires cnt > 0 && n !in used
    ensures before + LeastFree(used, n, cnt) == before + [n] + LeastFree(used, n + 1, cnt - 1)
  {
    assert before + ([n] + LeastFree(used, n + 1, cnt - 1)) == before + [n] + LeastFree(used, n + 1, cnt - 1);
  }

  /** The numbers for new devices clash with no device and, for disks, never take the reserved 7. */
  lemma FreshUnitsAreFresh(devices: seq<Device>, deviceType: string, cnt: nat)
    ensures var r := FreshUnits(devices, deviceType, cnt);
      && (forall i :: 0 <= i < cnt ==> StartUnit(deviceType) <= r[i] <= StartUnit(deviceType) + i + |devices| + 1)
      && (forall i :: 0 <= i < cnt && deviceType == "disk" ==> r[i] != 7)
      && (forall i, d :: 0 <= i < cnt && d in devices && d.unit.Some? ==> d.unit.value != r[i])
      && (forall i, j :: 0 <= i < j < cnt ==> r[i] < r[j])
  {
    var used := TakenUnits(devices, deviceType);
    var r := FreshUnits(devices, deviceType, cnt);
    LeastFreeIsLeast(used, StartUnit(deviceType), cnt);
    forall i | 0 <= i < cnt ensures r[i] <= StartUnit(deviceType) + i + |devices| + 1 {
      LeastFreeBound(used, StartUnit(deviceType), cnt, i);
      DistinctAtMostLength(used, NotBelow(used, StartUnit(deviceType)));
    }
    assert forall i :: 0 <= i < cnt ==> r[i] in r;
    forall i, d | 0 <= i < cnt && d in devices && d.unit.Some? ensures d.unit.value != r[i] {
      var k :| 0 <= k < |devices| && devices[k] == d;
      UsedUnitsHolds(devices, k);
    }
  }
}

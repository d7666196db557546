/** Recursion up the inventory tree (helper/vsphere/vsphere.go) and the location it yields
    (helper/virtualmachine/virtual_machine.go). */
module ParentPath {
  import opened Wrappers

  datatype Ref = Ref(refType: string, value: string)

  /** The parent of every object that has one, and how deep an object lies. */
  datatype Tree = Tree(parents: map<Ref, Ref>, depth: map<Ref, nat>)

  const DATACENTER := "Datacenter"

  /** Going up ends: every parent is less deep. */
  predicate Acyclic(t: Tree) {
    forall r :: r in t.parents ==> r in t.depth && t.parents[r] in t.depth && t.depth[t.parents[r]] < t.depth[r]
  }

  function FindParent(t: Tree, r: Ref): Option<Ref> {
    if r in t.parents then Some(t.parents[r]) else None
  }

  function Depth(t: Tree, r: Ref): nat {
    if r in t.depth then t.depth[r] else 0
  }

  function FindParentByType(t: Tree, r: Ref, parentType: string): Option<Ref>
    requires Acyclic(t)
    decreases Depth(t, r)
  {
    var parent := FindParent(t, r);
    if parent.None? then None
    else if parent.value.refType == parentType then parent
    else FindParentByType(t, parent.value, parentType)
  }

  function FindParentPathByType(t: Tree, r: Ref, parentType: string): seq<Ref>
    requires Acyclic(t)
    decreases Depth(t, r)
  {
    var parent := FindParent(t, r);
    if parent.None? then []
    else if parent.value.refType == parentType then [parent.value]
    else [parent.value] + FindParentPathByType(t, parent.value, parentType)
  }

  predicate IsLink(t: Tree, r: Ref, path: seq<Ref>, i: nat)
    requires i < |path|
  {
    FindParent(t, if i == 0 then r else path[i - 1]) == Some(path[i])
  }

  /** Each object is the parent of the one before, starting above r. */
  predicate IsChain(t: Tree, r: Ref, path: seq<Ref>) {
    forall i :: 0 <= i < |path| ==> IsLink(t, r, path, i)
  }

  /** The path is the chain of ancestors up to the first one of the type, or up to the root. */
  ghost predicate IsPathTo(t: Tree, r: Ref, path: seq<Ref>, parentType: string) {
    && IsChain(t, r, path)
    && (forall i :: 0 <= i < |path| - 1 ==> path[i].refType != parentType)
    && (path == [] ==> FindParent(t, r).None?)
    && (path != [] && path[|path| - 1].refType != parentType ==> FindParent(t, path[|path| - 1]).None?)
  }

  lemma {:induction false} PathIsChain(t: Tree, r: Ref, parentType: string)
    requires Acyclic(t)
    ensures IsPathTo(t, r, FindParentPathByType(t, r, parentType), parentType)
    decreases Depth(t, r)
  {
    var path := FindParentPathByType(t, r, parentType);
    if FindParent(t, r).Some? && t.parents[r].refType != parentType {
      var parent := t.parents[r];
      var above := FindParentPathByType(t, parent, parentType);
      PathIsChain(t, parent, parentType);
      assert path == [parent] + above;
      forall i | 0 <= i < |path|
        ensures IsLink(t, r, path, i)
      {
        if i > 0 {
          assert IsLink(t, parent, above, i - 1);
        }
      }
      forall i | 0 <= i < |path| - 1
        ensures path[i].refType != parentType
      {
        if i > 0 {
          assert path[i] == above[i - 1];
        }
      }
    }
  }

  /** That path is the only one. */
  lemma PathIsUnique(t: Tree, r: Ref, parentType: string, p: seq<Ref>, q: seq<Ref>)
    requires Acyclic(t) && IsPathTo(t, r, p, parentType) && IsPathTo(t, r, q, parentType)
    ensures p == q
  {
    var n := if |p| < |q| then |p| else |q|;
    SamePrefix(t, r, p, q, n);
    if |p| <= |q| {
      assert p == p[..n];
      NoLonger(t, r, parentType, p, q);
    } else {
      assert q == q[..n];
      NoLonger(t, r, parentType, q, p);
    }
    assert p == p[..n] && q == q[..n];
  }

  lemma {:induction false} SamePrefix(t: Tree, r: Ref, p: seq<Ref>, q: seq<Ref>, n: nat)
    requires IsChain(t, r, p) && IsChain(t, r, q) && n <= |p| && n <= |q|
    ensures p[..n] == q[..n]
  {
    if n > 0 {
      SamePrefix(t, r, p, q, n - 1);
      assert IsLink(t, r, p, n - 1) && IsLink(t, r, q, n - 1);
      assert n > 1 ==> p[..n - 1][n - 2] == q[..n - 1][n - 2];
      assert p[..n] == p[..n - 1] + [p[n - 1]] && q[..n] == q[..n - 1] + [q[n - 1]];
    }
  }

  /** A path cannot go on where a complete one has ended. */
  lemma NoLonger(t: Tree, r: Ref, parentType: string, p: seq<Ref>, q: seq<Ref>)
    requires IsPathTo(t, r, p, parentType) && IsPathTo(t, r, q, parentType)
    requires |p| <= |q| && p == q[..|p|]
    ensures |p| == |q|
  {
    assert |p| < |q| ==> IsLink(t, r, q, |p|);
    assert p != [] ==> p[|p| - 1] == q[|p| - 1];
  }

  /** The nearest ancestor of the type is the path's last element, if that is of the type, and else there is none. */
  lemma {:induction false} NearestIsLast(t: Tree, r: Ref, parentType: string)
    requires Acyclic(t)
    ensures var path := FindParentPathByType(t, r, parentType);
            FindParentByType(t, r, parentType) ==
              if path != [] && path[|path| - 1].refType == parentType then Some(path[|path| - 1]) else None
    decreases Depth(t, r)
  {
    if FindParent(t, r).Some? && t.parents[r].refType != parentType {
      NearestIsLast(t, t.parents[r], parentType);
    }
  }

  datatype Location = Location(datacenterID: string, folderID: string)

  /** The part of a location that comes from the path; IDs that are not set stay empty. */
  method GetLocationInfo(t: Tree, vm: Ref) returns (location: Location)
    requires Acyclic(t)
    ensures var path := FindParentPathByType(t, vm, DATACENTER);
            && location.datacenterID == (if path == [] then "" else path[|path| - 1].value)
            && location.folderID == (if |path| > 2 then path[0].value else "")
  {
    location := Location("", "");
    var path := FindParentPathByType(t, vm, DATACENTER);
    if path != [] {
      location := location.(datacenterID := path[|path| - 1].value);
      if |path| > 2 {
        location := location.(folderID := path[0].value);
      }
    }
  }

  /** A folder is named exactly when three ancestors are looked at: the machine's parent and grandparent are no
      datacenters and the grandparent has a parent. For a machine in a datacenter that means that it lies deeper
      than the datacenter's root folder. */
  lemma {:induction false} FolderBelowRootFolder(t: Tree, vm: Ref)
    requires Acyclic(t)
    ensures |FindParentPathByType(t, vm, DATACENTER)| > 2 <==>
            && vm in t.parents && t.parents[vm].refType != DATACENTER
            && t.parents[vm] in t.parents && t.parents[t.parents[vm]].refType != DATACENTER
            && t.parents[t.parents[vm]] in t.parents
    ensures FindParentByType(t, vm, DATACENTER).Some? ==>
              (|FindParentPathByType(t, vm, DATACENTER)| > 2 <==>
                 var folder := t.parents[vm];
                 folder.refType != DATACENTER && folder in t.parents && t.parents[folder].refType != DATACENTER)
  {
    NearestIsLast(t, vm, DATACENTER);
    PathIsChain(t, vm, DATACENTER);
    var path := FindParentPathByType(t, vm, DATACENTER);
    if |path| > 0 {
      assert IsLink(t, vm, path, 0);
    }
    if |path| > 1 {
      assert IsLink(t, vm, path, 1);
    }
    if |path| > 2 {
      assert IsLink(t, vm, path, 2);
    }
  }

  /** The datacenter named is the virtual machine's own exactly when it has one; else it is the topmost ancestor's
      ID. */
  lemma {:induction false} DatacenterOrRoot(t: Tree, vm: Ref)
    requires Acyclic(t)
    ensures var path := FindParentPathByType(t, vm, DATACENTER);
            path != [] ==>
              var last := path[|path| - 1];
              if FindParentByType(t, vm, DATACENTER).Some? then FindParentByType(t, vm, DATACENTER) == Some(last)
              else last.refType != DATACENTER && FindParent(t, last).None?
  {
    NearestIsLast(t, vm, DATACENTER);
    PathIsChain(t, vm, DATACENTER);
  }
}

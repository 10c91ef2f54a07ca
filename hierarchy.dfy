/**
  The three-level traversal: the clouds, filtered by name; the folders of
  the surviving clouds, concatenated in cloud order and filtered by name;
  the instances of the surviving folders, concatenated in folder order.

  The clouds and folders replies are indexed unconditionally, so an empty
  reply (a dictionary without the list key) is a `KeyError`; an empty
  instances reply is guarded and contributes nothing.
*/
module Hierarchy {
  import opened Records
  import opened NameFilter

  /** The clouds that survive the `yacloud_clouds` option. */
  function SelectClouds(reply: Option<seq<Cloud>>, cloudNames: seq<string>): (r: Result<seq<Cloud>>)
    ensures r.Ok? <==> reply.Some? && reply.value != []
    ensures reply == None ==> r == Err(ListCloudsFailed)
    ensures reply == Some([]) ==> r == Err(KeyError("clouds"))
    ensures r.Ok? ==> IsSubsequence(r.value, reply.value)
    ensures r.Ok? && cloudNames == [] ==> r.value == reply.value
    ensures r.Ok? && cloudNames != [] ==>
      forall c :: multiset(r.value)[c] == if c.name in cloudNames then multiset(reply.value)[c] else 0
  {
    match reply
    case None => Err(ListCloudsFailed)
    case Some(all) =>
      if all == [] then Err(KeyError("clouds"))
      else
        FilterSemantics(all, CloudName, cloudNames);
        Ok(FilterByName(all, CloudName, cloudNames))
  }

  /** How the folders call for one cloud goes wrong, if it does. */
  function FoldersFailure(c: Cloud, lists: map<string, seq<Folder>>): (r: Option<Error>)
    ensures r.None? <==> c.id in lists && lists[c.id] != []
    ensures c.id !in lists ==> r == Some(ListFoldersFailed(c.id))
    ensures c.id in lists && lists[c.id] == [] ==> r == Some(KeyError("folders"))
  {
    if c.id !in lists then Some(ListFoldersFailed(c.id))
    else if lists[c.id] == [] then Some(KeyError("folders"))
    else None
  }

  /** The folders of `clouds`, concatenated in cloud order; the first failing call aborts. Every cloud contributes at least one folder, and the error is a failed call or the missing `folders` key. */
  function FoldersOf(clouds: seq<Cloud>, lists: map<string, seq<Folder>>): (r: Result<seq<Folder>>)
    ensures clouds == [] ==> r == Ok([])
    ensures r.Ok? ==> |r.value| >= |clouds|
    ensures r.Err? ==> r.error == KeyError("folders") || (r.error.ListFoldersFailed? && r.error.cloudId !in lists)
    decreases |clouds|
  {
    if clouds == [] then Ok([])
    else
      match FoldersFailure(clouds[0], lists)
      case Some(e) => Err(e)
      case None =>
        match FoldersOf(clouds[1..], lists)
        case Err(e) => Err(e)
        case Ok(rest) => Ok(lists[clouds[0].id] + rest)
  }

  /** The folders that survive the `yacloud_folders` option: the aggregated folders, filtered by name exactly as the clouds are. */
  function SelectFolders(clouds: seq<Cloud>, lists: map<string, seq<Folder>>, folderNames: seq<string>): (r: Result<seq<Folder>>)
    ensures r.Ok? <==> FoldersOf(clouds, lists).Ok?
    ensures r.Err? ==> r.error == FoldersOf(clouds, lists).error
    ensures r.Ok? && folderNames == [] ==> r.value == FoldersOf(clouds, lists).value
    ensures r.Ok? && folderNames != [] ==>
      forall i :: 0 <= i < |r.value| ==> r.value[i] in FoldersOf(clouds, lists).value && r.value[i].name in folderNames
    ensures r.Ok? && folderNames != [] ==>
      forall i :: 0 <= i < |FoldersOf(clouds, lists).value| && FoldersOf(clouds, lists).value[i].name in folderNames ==>
        FoldersOf(clouds, lists).value[i] in r.value
    ensures r.Ok? ==> IsSubsequence(r.value, FoldersOf(clouds, lists).value)
    ensures r.Ok? && folderNames != [] ==>
      forall f :: multiset(r.value)[f] == if f.name in folderNames then multiset(FoldersOf(clouds, lists).value)[f] else 0
  {
    match FoldersOf(clouds, lists)
    case Err(e) => Err(e)
    case Ok(all) =>
      FilterSemantics(all, FolderName, folderNames);
      Ok(FilterByName(all, FolderName, folderNames))
  }

  /** Gathering over `a + b` gathers over `a`, then, if that succeeded, over `b`. */
  lemma {:induction false} FoldersOfAppend(a: seq<Cloud>, b: seq<Cloud>, lists: map<string, seq<Folder>>)
    ensures FoldersOf(a + b, lists) ==
      match FoldersOf(a, lists)
      case Err(e) => Err(e)
      case Ok(x) => (match FoldersOf(b, lists) case Err(e) => Err(e) case Ok(y) => Ok(x + y))
    decreases |a|
  {
    if a == [] {
      assert a + b == b;
      match FoldersOf(b, lists)
      case Err(e) =>
      case Ok(y) => assert [] + y == y;
    } else {
      assert (a + b)[0] == a[0] && (a + b)[1..] == a[1..] + b;
      FoldersOfAppend(a[1..], b, lists);
      if FoldersFailure(a[0], lists).None? {
        match FoldersOf(a[1..], lists)
        case Err(e) =>
        case Ok(x) =>
          match FoldersOf(b, lists)
          case Err(e) =>
          case Ok(y) => assert lists[a[0].id] + (x + y) == (lists[a[0].id] + x) + y;
      }
    }
  }

  /** One cloud contributes exactly its reply, or its error; with `FoldersOfAppend` this fixes the aggregation as the in-order concatenation of the replies. */
  lemma FoldersOfSingle(c: Cloud, lists: map<string, seq<Folder>>)
    ensures FoldersOf([c], lists) ==
      match FoldersFailure(c, lists)
      case Some(e) => Err(e)
      case None => Ok(lists[c.id])
  {
    assert [c][1..] == [];
    if FoldersFailure(c, lists).None? {
      assert lists[c.id] + [] == lists[c.id];
    }
  }

  /**
    Folder aggregation succeeds exactly when every cloud's call succeeds with
    a non-empty reply; the result then holds, in cloud order, the folders of
    each cloud: it starts with the first cloud's reply, and a folder is in it
    exactly when some cloud lists it.
  */
  lemma {:induction false} FoldersOfComplete(clouds: seq<Cloud>, lists: map<string, seq<Folder>>)
    ensures FoldersOf(clouds, lists).Ok? <==> forall i :: 0 <= i < |clouds| ==> FoldersFailure(clouds[i], lists).None?
    ensures FoldersOf(clouds, lists).Ok? ==>
      forall f :: f in FoldersOf(clouds, lists).value <==>
        exists i :: 0 <= i < |clouds| && f in lists[clouds[i].id]
    ensures FoldersOf(clouds, lists).Ok? && clouds != [] ==>
      FoldersOf(clouds, lists).value[..|lists[clouds[0].id]|] == lists[clouds[0].id]
    decreases |clouds|
  {
    if clouds != [] {
      FoldersOfComplete(clouds[1..], lists);
      var c := clouds[0];
      if FoldersOf(clouds, lists).Ok? {
        var all := FoldersOf(clouds, lists).value;
        var rest := FoldersOf(clouds[1..], lists).value;
        assert all == lists[c.id] + rest;
        forall f ensures f in all <==> exists i :: 0 <= i < |clouds| && f in lists[clouds[i].id] {
          if f in all && f !in lists[c.id] {
            var i :| 0 <= i < |clouds[1..]| && f in lists[clouds[1..][i].id];
            assert clouds[i + 1] == clouds[1..][i];
          }
          if exists i :: 0 <= i < |clouds| && f in lists[clouds[i].id] {
            var i :| 0 <= i < |clouds| && f in lists[clouds[i].id];
            if i > 0 {
              assert clouds[1..][i - 1] == clouds[i];
            }
          }
        }
      }
      if forall i :: 0 <= i < |clouds[1..]| ==> FoldersFailure(clouds[1..][i], lists).None? {
        assert forall i :: 1 <= i < |clouds| ==> clouds[i] == clouds[1..][i - 1];
      }
    }
  }

  /** Folder aggregation fails fast: the error is that of the first cloud whose call goes wrong. */
  lemma {:induction false} FoldersOfFailsAtFirst(clouds: seq<Cloud>, lists: map<string, seq<Folder>>, k: int)
    requires 0 <= k < |clouds| && FoldersFailure(clouds[k], lists).Some?
    requires forall j :: 0 <= j < k ==> FoldersFailure(clouds[j], lists).None?
    ensures FoldersOf(clouds, lists) == Err(FoldersFailure(clouds[k], lists).value)
    decreases k
  {
    if k > 0 {
      FoldersOfFailsAtFirst(clouds[1..], lists, k - 1);
    }
  }

  /** What gathering the instances leaves behind: the instances collected, and the error that stopped it, if any. */
  datatype Gathered = Gathered(items: seq<Instance>, failure: Option<Error>)

  /** The instances of `folders`, concatenated in folder order; an empty reply contributes nothing, and a failing call stops the gathering with what was collected before it. */
  function InstancesOf(folders: seq<Folder>, lists: map<string, seq<Instance>>): (r: Gathered)
    ensures folders == [] ==> r == Gathered([], None)
    ensures r.failure.Some? ==> r.failure.value.ListInstancesFailed? && r.failure.value.folderId !in lists
    decreases |folders|
  {
    if folders == [] then Gathered([], None)
    else if folders[0].id !in lists then Gathered([], Some(ListInstancesFailed(folders[0].id)))
    else
      var rest := InstancesOf(folders[1..], lists);
      if lists[folders[0].id] == [] then rest
      else Gathered(lists[folders[0].id] + rest.items, rest.failure)
  }

  /** Gathering over `a + b` gathers over `a`, then, if that did not fail, over `b`. */
  lemma {:induction false} InstancesOfAppend(a: seq<Folder>, b: seq<Folder>, lists: map<string, seq<Instance>>)
    ensures InstancesOf(a + b, lists) ==
      var x := InstancesOf(a, lists);
      if x.failure.Some? then x
      else Gathered(x.items + InstancesOf(b, lists).items, InstancesOf(b, lists).failure)
    decreases |a|
  {
    if a == [] {
      assert a + b == b;
    } else {
      assert (a + b)[0] == a[0] && (a + b)[1..] == a[1..] + b;
      InstancesOfAppend(a[1..], b, lists);
      if a[0].id in lists {
        var x := InstancesOf(a[1..], lists);
        assert lists[a[0].id] + (x.items + InstancesOf(b, lists).items) ==
               (lists[a[0].id] + x.items) + InstancesOf(b, lists).items;
      }
    }
  }

  /** One folder contributes exactly its reply, in reply order, or its failure; with `InstancesOfAppend` this fixes the gathering as the in-order concatenation of the replies. */
  lemma InstancesOfSingle(f: Folder, lists: map<string, seq<Instance>>)
    ensures InstancesOf([f], lists) ==
      if f.id !in lists then Gathered([], Some(ListInstancesFailed(f.id))) else Gathered(lists[f.id], None)
  {
    assert [f][1..] == [];
    if f.id in lists {
      assert lists[f.id] + [] == lists[f.id];
    }
  }

  /**
    Instance aggregation stops exactly at the first folder whose call fails,
    keeping what the folders before it contributed; when no call fails, an
    instance is gathered exactly when some folder lists it.
  */
  lemma {:induction false} InstancesOfComplete(folders: seq<Folder>, lists: map<string, seq<Instance>>)
    ensures InstancesOf(folders, lists).failure.None? <==> forall i :: 0 <= i < |folders| ==> folders[i].id in lists
    ensures forall h :: h in InstancesOf(folders, lists).items ==>
      exists i :: 0 <= i < |folders| && folders[i].id in lists && h in lists[folders[i].id]
    ensures InstancesOf(folders, lists).failure.None? ==>
      forall i, h :: 0 <= i < |folders| && h in lists[folders[i].id] ==> h in InstancesOf(folders, lists).items
    decreases |folders|
  {
    if folders != [] {
      InstancesOfComplete(folders[1..], lists);
      var f := folders[0];
      var all := InstancesOf(folders, lists);
      if f.id in lists {
        var rest := InstancesOf(folders[1..], lists);
        assert all.items == lists[f.id] + rest.items;
        forall h | h in all.items
          ensures exists i :: 0 <= i < |folders| && folders[i].id in lists && h in lists[folders[i].id]
        {
          if h !in lists[f.id] {
            var i :| 0 <= i < |folders[1..]| && folders[1..][i].id in lists && h in lists[folders[1..][i].id];
            assert folders[i + 1] == folders[1..][i];
          }
        }
        if all.failure.None? {
          forall i, h | 0 <= i < |folders| && h in lists[folders[i].id] ensures h in all.items {
            if i > 0 {
              assert folders[1..][i - 1] == folders[i];
            }
          }
        }
      }
      if forall i :: 0 <= i < |folders[1..]| ==> folders[1..][i].id in lists {
        assert forall i :: 1 <= i < |folders| ==> folders[i] == folders[1..][i - 1];
      }
    }
  }

  /** When the folder at `k` is the first whose call fails, the gathering keeps exactly what the folders before it contributed. */
  lemma {:induction false} InstancesOfStopsAt(folders: seq<Folder>, lists: map<string, seq<Instance>>, k: int)
    requires 0 <= k < |folders| && folders[k].id !in lists
    requires forall j :: 0 <= j < k ==> folders[j].id in lists
    ensures InstancesOf(folders, lists) ==
      Gathered(InstancesOf(folders[..k], lists).items, Some(ListInstancesFailed(folders[k].id)))
  {
    assert folders == folders[..k] + folders[k..];
    InstancesOfAppend(folders[..k], folders[k..], lists);
    InstancesOfComplete(folders[..k], lists);
  }
}

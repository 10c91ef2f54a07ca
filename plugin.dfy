/**
  The inventory plugin object: its options, the provider it lists from, the
  intermediate lists it keeps in its fields, and the inventory it fills.
  Each step of a run is a method that updates those fields in place.
*/
module Plugin {
  import opened Records
  import opened NameFilter
  import opened Address
  import opened Hierarchy
  import opened InventoryData
  import opened Grouping

  /**
    What one whole run does to an inventory in state `s`: resolve the
    hierarchy, then process the instances. A failure while resolving the
    hierarchy leaves the inventory exactly as it was; only the `KeyError`s of
    instance processing can leave it partly updated.
  */
  function Pipeline(p: Provider, cloudNames: seq<string>, folderNames: seq<string>, groupLabel: string, s: Snapshot): (r: Run)
    ensures p.clouds.None? ==> r == Run(s, Some(ListCloudsFailed))
    ensures r.failure.Some? && !IsProcessError(r.failure.value) ==> r.state == s
  {
    match SelectClouds(p.clouds, cloudNames)
    case Err(e) => Run(s, Some(e))
    case Ok(cs) =>
      match SelectFolders(cs, p.folders, folderNames)
      case Err(e) => Run(s, Some(e))
      case Ok(fs) =>
        var g := InstancesOf(fs, p.instances);
        if g.failure.Some? then Run(s, g.failure) else Process(s, g.items, groupLabel)
  }

  /** The folders that survive both name filters, or the error that stopped the traversal before them. */
  function KeptFolders(p: Provider, cloudNames: seq<string>, folderNames: seq<string>): Result<seq<Folder>> {
    match SelectClouds(p.clouds, cloudNames)
    case Err(e) => Err(e)
    case Ok(cs) => SelectFolders(cs, p.folders, folderNames)
  }

  /** `h`, named `n`, is listed in folder `fid`, is running, has a truthy address and belongs to group `g`. */
  ghost predicate EligibleListed(p: Provider, groupLabel: string, fid: string, h: Instance, n: string, g: string) {
    fid in p.instances && h in p.instances[fid] && h.name == n && h.status == Running &&
    AddressOf(h).Ok? && TextTruthy(AddressOf(h).value) && GroupOf(h, groupLabel) == Ok(g)
  }

  /**
    A run never makes a host of an instance outside the folders that passed
    both name filters, nor of one that is not running or has no truthy
    address: every membership it adds is that of a running instance with a
    truthy address, listed in a kept folder, whose group is the group it
    joined.
  */
  lemma PipelineAddsOnlyListedRunningHosts(p: Provider, cloudNames: seq<string>, folderNames: seq<string>, groupLabel: string, s: Snapshot)
    ensures var r := Pipeline(p, cloudNames, folderNames, groupLabel, s).state;
      forall g, n :: g in r.groups && n in r.groups[g] && !(g in s.groups && n in s.groups[g]) ==>
        KeptFolders(p, cloudNames, folderNames).Ok? &&
        exists j, h :: 0 <= j < |KeptFolders(p, cloudNames, folderNames).value| &&
          EligibleListed(p, groupLabel, KeptFolders(p, cloudNames, folderNames).value[j].id, h, n, g)
  {
    match SelectClouds(p.clouds, cloudNames)
    case Err(_) =>
    case Ok(cs) =>
      match SelectFolders(cs, p.folders, folderNames)
      case Err(_) =>
      case Ok(fs) =>
        assert KeptFolders(p, cloudNames, folderNames) == Ok(fs);
        var gathered := InstancesOf(fs, p.instances);
        if gathered.failure.None? {
          OnlyEligibleBecomeMembers(s, gathered.items, groupLabel);
          InstancesOfComplete(fs, p.instances);
          var r := Process(s, gathered.items, groupLabel).state;
          forall g, n | g in r.groups && n in r.groups[g] && !(g in s.groups && n in s.groups[g])
            ensures exists j, h :: 0 <= j < |fs| && EligibleListed(p, groupLabel, fs[j].id, h, n, g)
          {
            assert AddsMember(gathered.items, groupLabel, g, n);
            var i :| 0 <= i < |gathered.items| && gathered.items[i].name == n &&
              Decide(gathered.items[i], groupLabel).Add? && Decide(gathered.items[i], groupLabel).group == g;
            var h := gathered.items[i];
            assert h in gathered.items;
            var j :| 0 <= j < |fs| && fs[j].id in p.instances && h in p.instances[fs[j].id];
            assert EligibleListed(p, groupLabel, fs[j].id, h, n, g);
          }
        }
  }

  /** A cloud filter that matches none of the listed clouds yields no instances and no error, so the inventory stays as it was. */
  lemma NoMatchingCloudChangesNothing(p: Provider, cloudNames: seq<string>, folderNames: seq<string>, groupLabel: string, s: Snapshot)
    requires p.clouds.Some? && p.clouds.value != [] && cloudNames != []
    requires forall i :: 0 <= i < |p.clouds.value| ==> p.clouds.value[i].name !in cloudNames
    ensures Pipeline(p, cloudNames, folderNames, groupLabel, s) == Run(s, None)
  {
    FilterSemantics(p.clouds.value, CloudName, cloudNames);
    assert SelectClouds(p.clouds, cloudNames) == Ok([]);
    FilterSemantics([], FolderName, folderNames);
    assert SelectFolders([], p.folders, folderNames) == Ok([]);
  }

  class InventoryModule {
    const provider: Provider
    const cloudNames: seq<string>   // the `yacloud_clouds` option
    const folderNames: seq<string>  // the `yacloud_folders` option
    const groupLabel: string        // the `yacloud_group_label` option
    const inventory: Inventory

    var clouds: seq<Cloud>
    var folders: seq<Folder>
    var hosts: seq<Instance>

    constructor (provider: Provider, cloudNames: seq<string>, folderNames: seq<string>, groupLabel: string, inventory: Inventory)
      ensures this.provider == provider && this.cloudNames == cloudNames && this.folderNames == folderNames
      ensures this.groupLabel == groupLabel && this.inventory == inventory
      ensures clouds == [] && folders == [] && hosts == []
    {
      this.provider := provider;
      this.cloudNames := cloudNames;
      this.folderNames := folderNames;
      this.groupLabel := groupLabel;
      this.inventory := inventory;
      clouds, folders, hosts := [], [], [];
    }

    /** `_get_clouds`: list the clouds and keep those the option allows. */
    method GetClouds() returns (err: Option<Error>)
      modifies this`clouds
      ensures match SelectClouds(provider.clouds, cloudNames)
        case Ok(cs) => err == None && clouds == cs
        case Err(e) => err == Some(e) && clouds == old(clouds)
    {
      if provider.clouds.None? {
        return Some(ListCloudsFailed);
      }
      var all := provider.clouds.value;
      if all == [] {
        return Some(KeyError("clouds"));
      }
      if cloudNames != [] {
        all := Matching(all, CloudName, cloudNames);
      }
      clouds := all;
      return None;
    }

    /** `_get_folders`: list the folders of each kept cloud, concatenate them, and keep those the option allows. */
    method GetFolders() returns (err: Option<Error>)
      modifies this`folders
      ensures match SelectFolders(clouds, provider.folders, folderNames)
        case Ok(fs) => err == None && folders == fs
        case Err(e) => err == Some(e) && folders == old(folders)
    {
      var all: seq<Folder> := [];
      var i := 0;
      while i < |clouds|
        invariant 0 <= i <= |clouds|
        invariant FoldersOf(clouds[..i], provider.folders) == Ok(all)
        invariant folders == old(folders)
      {
        var cloud := clouds[i];
        assert clouds == clouds[..i] + clouds[i..] && clouds[i..][0] == cloud;
        FoldersOfAppend(clouds[..i], clouds[i..], provider.folders);
        if cloud.id !in provider.folders {
          return Some(ListFoldersFailed(cloud.id));
        }
        var reply := provider.folders[cloud.id];
        if reply == [] {
          return Some(KeyError("folders"));
        }
        assert clouds[..i + 1] == clouds[..i] + [cloud];
        FoldersOfAppend(clouds[..i], [cloud], provider.folders);
        assert [cloud][1..] == [] && FoldersOf([cloud], provider.folders) == Ok(reply + []);
        assert reply + [] == reply;
        all := all + reply;
        i := i + 1;
      }
      assert clouds[..i] == clouds;
      if folderNames != [] {
        all := Matching(all, FolderName, folderNames);
      }
      folders := all;
      return None;
    }

    /** `_get_all_hosts`: reset the host list, then append the instances of each kept folder. */
    method GetAllHosts() returns (err: Option<Error>)
      modifies this`hosts
      ensures hosts == InstancesOf(folders, provider.instances).items
      ensures err == InstancesOf(folders, provider.instances).failure
    {
      hosts := [];
      var i := 0;
      while i < |folders|
        invariant 0 <= i <= |folders|
        invariant InstancesOf(folders[..i], provider.instances) == Gathered(hosts, None)
      {
        var folder := folders[i];
        assert folders == folders[..i] + folders[i..] && folders[i..][0] == folder;
        InstancesOfAppend(folders[..i], folders[i..], provider.instances);
        if folder.id !in provider.instances {
          return Some(ListInstancesFailed(folder.id));
        }
        var reply := provider.instances[folder.id];
        assert folders[..i + 1] == folders[..i] + [folder];
        InstancesOfAppend(folders[..i], [folder], provider.instances);
        if reply != [] {
          hosts := hosts + reply;
        }
        i := i + 1;
      }
      assert folders[..i] == folders;
      return None;
    }

    /** `_process_hosts`: declare each instance's group and add the eligible ones as hosts. */
    method ProcessHosts() returns (err: Option<Error>)
      modifies inventory
      ensures Run(inventory.State(), err) == Process(old(inventory.State()), hosts, groupLabel)
    {
      ghost var s0 := inventory.State();
      var i := 0;
      while i < |hosts|
        invariant 0 <= i <= |hosts|
        invariant Process(s0, hosts[..i], groupLabel) == Run(inventory.State(), None)
      {
        var instance := hosts[i];
        ProcessPrefix(s0, hosts, i, groupLabel);
        var group: string;
        if groupLabel != "" {
          if instance.labels.None? {
            return Some(KeyError("labels"));
          }
          if groupLabel in instance.labels.value {
            group := instance.labels.value[groupLabel];
          } else {
            group := DefaultGroup;
          }
        } else {
          group := DefaultGroup;
        }
        inventory.AddGroup(group);
        if instance.status == Running {
          var ip := AddressOf(instance);
          if ip.Err? {
            return Some(ip.error);
          }
          if TextTruthy(ip.value) {
            inventory.AddHost(instance.name, group);
            inventory.SetVariable(instance.name, HostVariable, ip.value.value);
          }
        }
        i := i + 1;
      }
      assert hosts[..i] == hosts;
      return None;
    }

    /** A run: the four steps in order; the first error aborts it. */
    method Parse() returns (err: Option<Error>)
      modifies this`clouds, this`folders, this`hosts, inventory
      ensures Run(inventory.State(), err) ==
        Pipeline(provider, cloudNames, folderNames, groupLabel, old(inventory.State()))
    {
      err := GetClouds();
      if err.Some? {
        return;
      }
      err := GetFolders();
      if err.Some? {
        return;
      }
      err := GetAllHosts();
      if err.Some? {
        return;
      }
      err := ProcessHosts();
    }
  }

  /** `verify_file`: the base class's verdict, and a path ending in one of the two configuration file names. */
  function VerifyFile(parentAccepts: bool, path: string): (r: bool)
    ensures r ==> parentAccepts
    ensures r ==> exists k :: 0 <= k <= |path| && (path[k..] == "yacloud_compute.yml" || path[k..] == "yacloud_compute.yaml")
  {
    parentAccepts && (EndsWith(path, "yacloud_compute.yml") || EndsWith(path, "yacloud_compute.yaml"))
  }

  predicate EndsWith(s: string, suffix: string) {
    |suffix| <= |s| && s[|s| - |suffix|..] == suffix
  }

  /** Every path that ends with a configuration file name is accepted when the base class accepts it, and no path is accepted when it does not. */
  lemma VerifyFileAccepts(stem: string, path: string)
    ensures VerifyFile(true, stem + "yacloud_compute.yml")
    ensures VerifyFile(true, stem + "yacloud_compute.yaml")
    ensures !VerifyFile(false, path)
  {
    var yml := stem + "yacloud_compute.yml";
    assert yml[|yml| - 19..] == "yacloud_compute.yml";
    var yaml := stem + "yacloud_compute.yaml";
    assert yaml[|yaml| - 20..] == "yacloud_compute.yaml";
  }
}

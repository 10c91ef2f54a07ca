# yacloud_compute inventory resolution, in Dafny

This project models the core of the `yacloud_compute` Ansible inventory plugin.
The plugin walks the Yandex Cloud resource hierarchy: it lists clouds, then the
folders of each cloud, then the compute instances of each folder. Clouds and
folders are filtered by name using the `yacloud_clouds` and `yacloud_folders`
options. Each instance is assigned a group: the value of its
`yacloud_group_label` label, or `yacloud` by default. Every group is declared,
and each running instance with a truthy address is added to its group as a
host, with `ansible_host` set to that address.

Modules, in dependency order:

- `Records` (records.dfy): the decoded provider records.
  - `MessageToDict` drops empty fields, so every key the plugin indexes that can
    be missing is an `Option`. Indexing a missing key is modelled as a
    `KeyError` outcome.
  - Python truthiness of a decoded dictionary is "has at least one key". Keys the
    plugin never reads are counted by `otherKeys`.
  - `Provider` stands for the three gRPC list calls. A `None` cloud reply, or a
    missing map entry for a cloud or folder id, means that call raised.
- `NameFilter` (name_filter.dfy): the list comprehension used to filter both
  clouds and folders, plus the "only a truthy option filters" guard.
- `Address` (address.dfy): `_get_ip_for_instance`, as a function.
- `Hierarchy` (hierarchy.dfy): the clouds, folders and instances traversals, as
  functions that serve as specifications.
- `InventoryData` (inventory_data.dfy): the inventory object the plugin writes
  to. It is a class with `AddGroup`, `AddHost` and `SetVariable`, whose effects
  are stated through the pure `Declare`, `Join` and `SetVar` on a `Snapshot`.
- `Grouping` (grouping.dfy): the body of `_process_hosts`, as a per-instance
  `Decide`/`Step` and the whole-run `Process`, with its invariants.
- `Plugin` (plugin.dfy):
  - the `InventoryModule` class, with fields `clouds`, `folders` and `hosts` and
    one method per `_get_*`/`_process_hosts` step;
  - `Parse`, which runs the four steps in order;
  - `verify_file`.

  Each method is proved equal to the corresponding specification function, and
  the end-to-end lemmas are stated over `Pipeline`.
- `Scenarios` (scenarios.dfy): worked single-instance examples.

Three behaviours of the code that a reader might not expect, all modelled as written:

- An empty folders reply for a kept cloud is not skipped. `MessageToDict`
  yields `{}`, and `["folders"]` raises `KeyError`. An empty clouds reply
  likewise raises `KeyError("clouds")`. Only an empty instances reply is guarded
  (`if dict_:`) and contributes nothing.
- An exception inside `_process_hosts` leaves the inventory partially
  populated: every group and host handled before the failing instance stays.
  A failure in the traversal, before `_process_hosts`, leaves the inventory
  untouched (`Pipeline` returns the initial state).
- Labels are read only when `yacloud_group_label` is non-empty. In that case an
  instance without labels raises `KeyError("labels")`.

## Model

Source paths are relative to the repository root. All lines are in
`ansible/inventory_plugins/yacloud_compute.py`.

| member | source | states |
|---|---|---|
| NameFilter.Matching | ansible/inventory_plugins/yacloud_compute.py:114-118 | the list comprehension: never longer than its input, and every record it keeps has an allowed name. `MatchingCount`, `MatchingMembers`, `MatchingNone` and `MatchingIsSubsequence` pin the result down |
| NameFilter.FilterByName | ansible/inventory_plugins/yacloud_compute.py:113-118 | an empty option returns the list unchanged; otherwise every kept record comes from the input and has an allowed name, and every input record with an allowed name is kept |
| NameFilter.MatchingCount | ansible/inventory_plugins/yacloud_compute.py:114-118 | the comprehension keeps each record with an allowed name exactly as many times as it occurs in the input, and drops every other record |
| NameFilter.MatchingMembers | ansible/inventory_plugins/yacloud_compute.py:114-118 | a record is kept if and only if it is in the input and its name is allowed |
| NameFilter.MatchingNone | ansible/inventory_plugins/yacloud_compute.py:114-118 | when no name matches, the comprehension yields the empty list |
| NameFilter.MatchingIsSubsequence | ansible/inventory_plugins/yacloud_compute.py:114-118 | the kept records keep their input order (the result is a subsequence of the input) |
| NameFilter.FilterSemantics | ansible/inventory_plugins/yacloud_compute.py:113-119 | identity on an empty option; an order-preserving subsequence in every case; exactly the allowed records (by multiset) when the option is non-empty; and zero matches give `[]`, not an error |
| Address.Exposed | ansible/inventory_plugins/yacloud_compute.py:101-104 | the address a selected primary address exposes. A truthy `oneToOneNat` is preferred: its address when present, otherwise `KeyError("address")`. Without a truthy `oneToOneNat`, the raw address when present, otherwise `KeyError("address")`. It fails if and only if the key it reads is missing, and `KeyError("address")` is its only error |
| Address.FirstAddress | ansible/inventory_plugins/yacloud_compute.py:97-105 | the scan over the interfaces: no interfaces give `None`, and the only errors are the `KeyError`s for `primaryV4Address` and `address`. `FirstInterfaceWins` and `NoAddressExactly` say which interface decides |
| Address.AddressOf | ansible/inventory_plugins/yacloud_compute.py:96-105 | a missing `networkInterfaces` raises `KeyError("networkInterfaces")`. Every error is one of the three network `KeyError`s, never one for `labels` |
| Address.SkipPassedOver | ansible/inventory_plugins/yacloud_compute.py:98-100 | interfaces whose primary address is present but falsy do not affect the scan's result |
| Address.FirstInterfaceWins | ansible/inventory_plugins/yacloud_compute.py:98-104 | the first interface with a truthy primary address decides, and its outcome is `Exposed` of that address, including the `KeyError("address")` when the key it reads is missing. Interfaces after it are never consulted: any list that agrees up to it gives the same result. With a truthy `oneToOneNat` that has an address, the result is that NAT address; without a truthy `oneToOneNat` and with a raw address, it is the raw address |
| Address.MissingPrimaryKeyFails | ansible/inventory_plugins/yacloud_compute.py:98-99 | an interface without `primaryV4Address`, reached before any truthy one, raises `KeyError("primaryV4Address")` |
| Address.NoAddressExactly | ansible/inventory_plugins/yacloud_compute.py:98-105 | the result is `None` if and only if every interface has a present but falsy primary address |
| Hierarchy.SelectClouds | ansible/inventory_plugins/yacloud_compute.py:107-119 | it succeeds if and only if the call succeeds with a non-empty list. A failed call gives `ListCloudsFailed`, an empty reply gives `KeyError("clouds")`. On success the result is the reply when the option is empty, and otherwise exactly the clouds with allowed names, in reply order |
| Hierarchy.FoldersFailure | ansible/inventory_plugins/yacloud_compute.py:124-127 | one cloud's folders call succeeds if and only if the call is answered with a non-empty list. A call that raises gives `ListFoldersFailed`; an empty reply gives `KeyError("folders")` |
| Hierarchy.FoldersOf | ansible/inventory_plugins/yacloud_compute.py:122-128 | the `+=` aggregation over the kept clouds. No clouds give `[]`. On success there are at least as many folders as clouds, since every reply is non-empty. An error is `KeyError("folders")` or the failed call of a cloud with no reply. `FoldersOfSingle` and `FoldersOfAppend` together fix the result as the in-order concatenation of the replies |
| Hierarchy.FoldersOfSingle | ansible/inventory_plugins/yacloud_compute.py:124-127 | one cloud contributes exactly its reply, in reply order, or exactly its error |
| Hierarchy.SelectFolders | ansible/inventory_plugins/yacloud_compute.py:121-136 | it fails exactly when the aggregation fails, with the same error. On success it is the aggregation itself when `yacloud_folders` is empty. Otherwise it is an order-preserving subsequence of the aggregation that holds each folder with an allowed name exactly as often as the aggregation does, and no other folder |
| Hierarchy.FoldersOfAppend | ansible/inventory_plugins/yacloud_compute.py:123-127 | aggregating over `a + b` is aggregating over `a`, then over `b`, concatenated (the `+=` loop) |
| Hierarchy.FoldersOfComplete | ansible/inventory_plugins/yacloud_compute.py:122-128 | succeeds if and only if every cloud's call succeeds with a non-empty reply. A folder is in the result exactly when some cloud lists it, and the result starts with the first cloud's folders |
| Hierarchy.FoldersOfFailsAtFirst | ansible/inventory_plugins/yacloud_compute.py:123-127 | the error is the one of the first cloud whose call fails or returns no folders |
| Hierarchy.InstancesOf | ansible/inventory_plugins/yacloud_compute.py:139-147 | the gathering of `self.hosts`: no folders give nothing and no error, and the only error is the failed call of a folder with no reply. `InstancesOfSingle` and `InstancesOfAppend` together fix the hosts as the in-order concatenation of the replies up to the first failing folder |
| Hierarchy.InstancesOfSingle | ansible/inventory_plugins/yacloud_compute.py:140-147 | one folder contributes exactly its reply, in reply order, with an empty reply contributing nothing; a folder whose call raises contributes nothing and reports `ListInstancesFailed` |
| Hierarchy.InstancesOfAppend | ansible/inventory_plugins/yacloud_compute.py:139-147 | gathering over `a + b` gathers over `a`, then, unless that failed, over `b`, concatenating the hosts |
| Hierarchy.InstancesOfComplete | ansible/inventory_plugins/yacloud_compute.py:139-147 | no failure if and only if every folder's call succeeds; every gathered instance is listed by some folder; with no failure, every listed instance is gathered (an empty reply adds nothing) |
| Hierarchy.InstancesOfStopsAt | ansible/inventory_plugins/yacloud_compute.py:139-147 | a failing call at folder `k` stops the gathering, and the hosts kept are exactly those of the folders before `k` |
| InventoryData.Declare | ansible/inventory_plugins/yacloud_compute.py:175 | declaring adds the group (empty if new), keeps every existing group and its members, and leaves the host variables alone |
| InventoryData.DeclareIdempotent | ansible/inventory_plugins/yacloud_compute.py:175 | declaring a group twice is declaring it once |
| InventoryData.Join | ansible/inventory_plugins/yacloud_compute.py:179 | adding a host adds it to that one group, and gives it an empty variable set if it had none. Every other group and every existing host keeps its contents |
| InventoryData.SetVar | ansible/inventory_plugins/yacloud_compute.py:180-182 | it overwrites that one variable of that one host; the groups and every other variable and host stay as they were |
| InventoryData.Inventory.AddGroup | ansible/inventory_plugins/yacloud_compute.py:175 | the new inventory state is `Declare` of the old |
| InventoryData.Inventory.AddHost | ansible/inventory_plugins/yacloud_compute.py:179 | for a declared group, the new state is `Join` of the old |
| InventoryData.Inventory.SetVariable | ansible/inventory_plugins/yacloud_compute.py:180-182 | for a known host, the new state is `SetVar` of the old |
| Grouping.GroupOf | ansible/inventory_plugins/yacloud_compute.py:167-173 | an empty label gives `yacloud`. A label present on the instance gives its value. It fails, with `KeyError("labels")`, if and only if the label is set and the instance has no labels. A non-default group is always the label's value |
| Grouping.Decide | ansible/inventory_plugins/yacloud_compute.py:169-182 | the host is added if and only if the group is computable, the status is `RUNNING` and the extracted address is truthy; the added address is the extracted, non-empty one. It aborts if and only if the label lookup fails, or the instance is `RUNNING` and address extraction fails; the error is that of the label lookup, else that of the address. So a stopped instance with a computable group is always skipped. A skipped instance is stopped or has no address. An abort after the group is known records that group as declared |
| Grouping.Step | ansible/inventory_plugins/yacloud_compute.py:169-182 | one instance: the failure is the decision's error. The groups gain exactly the declared group, and members are added only to the added host's group. The host variables change only for an added host, whose `ansible_host` is set |
| Grouping.Process | ansible/inventory_plugins/yacloud_compute.py:169-182 | the loop over `self.hosts`: no instances leave the inventory as it is, and the only errors are the `KeyError`s of the label lookup and of the three network keys. The lemmas below describe the resulting inventory |
| Grouping.ProcessAppend | ansible/inventory_plugins/yacloud_compute.py:169-182 | processing `a + b` is processing `a`, then, unless it failed, `b` |
| Grouping.ProcessPrefix | ansible/inventory_plugins/yacloud_compute.py:169-182 | one more loop iteration extends the run by one `Step`, and a failing step is the result of the whole run |
| Grouping.ProcessOnlyAdds | ansible/inventory_plugins/yacloud_compute.py:166-182 | nothing is removed: groups, members, hosts and variables remain, and no variable other than `ansible_host` changes |
| Grouping.GroupsAlwaysDeclared | ansible/inventory_plugins/yacloud_compute.py:175 | after a run without error, every instance's group is in the inventory, including the groups of skipped instances |
| Grouping.NewGroupsComeFromInstances | ansible/inventory_plugins/yacloud_compute.py:169-175 | every group that was not there before is declared by some instance |
| Grouping.OnlyEligibleBecomeMembers | ansible/inventory_plugins/yacloud_compute.py:176-179 | every new membership comes from a running instance with a truthy address, joining its own group |
| Grouping.OnlyEligibleGetVariables | ansible/inventory_plugins/yacloud_compute.py:176-182 | every new host with variables is the name of an eligible instance |
| Grouping.EligibleBecomeHosts | ansible/inventory_plugins/yacloud_compute.py:176-182 | after a run without error, every eligible instance is a member of its group and has `ansible_host` |
| Grouping.OtherHostsKeepVariables | ansible/inventory_plugins/yacloud_compute.py:179-182 | a host name carried by no eligible instance keeps its variables |
| Grouping.LastWriteWins | ansible/inventory_plugins/yacloud_compute.py:179-182 | with duplicate names, `ansible_host` holds the address of the last eligible instance with that name |
| Grouping.ProcessSucceedsExactly | ansible/inventory_plugins/yacloud_compute.py:169-182 | a run ends without error if and only if every instance's group is computable and every `RUNNING` instance's address extraction succeeds |
| Grouping.EmptyLabelMeansDefaultGroup | ansible/inventory_plugins/yacloud_compute.py:167-173 | with an empty label option, labels are never read. The only group that can be added is `yacloud`, and every new member is in `yacloud` |
| Grouping.NoLabelsErrorWithoutLabel | ansible/inventory_plugins/yacloud_compute.py:170 | with an empty label option, the run never raises `KeyError("labels")` |
| Plugin.Pipeline | ansible/inventory_plugins/yacloud_compute.py:190-194 | a whole run. A failed clouds call gives `ListCloudsFailed` with the inventory untouched. Every other failure while resolving the hierarchy also leaves the inventory exactly as it was; only the `KeyError`s of instance processing can leave it partly updated |
| Plugin.PipelineAddsOnlyListedRunningHosts | ansible/inventory_plugins/yacloud_compute.py:107-182 | every membership a run adds comes from an instance listed in a folder that passed both name filters (`KeptFolders`). That instance is `RUNNING`, has a truthy address and has that group |
| Plugin.NoMatchingCloudChangesNothing | ansible/inventory_plugins/yacloud_compute.py:113-147 | a cloud filter that matches no listed cloud gives no instances and no error, and the inventory is unchanged |
| Plugin.InventoryModule.GetClouds | ansible/inventory_plugins/yacloud_compute.py:107-119 | on success `clouds` is `SelectClouds` of the reply; on error it is unchanged and the error is returned |
| Plugin.InventoryModule.GetFolders | ansible/inventory_plugins/yacloud_compute.py:121-136 | the `+=` loop followed by the filter; on success `folders` is `SelectFolders` of the kept clouds; on error it is unchanged |
| Plugin.InventoryModule.GetAllHosts | ansible/inventory_plugins/yacloud_compute.py:138-147 | `hosts` is reset and then holds exactly what `InstancesOf` gathers, which is partial when a call fails; the failure is returned |
| Plugin.InventoryModule.ProcessHosts | ansible/inventory_plugins/yacloud_compute.py:166-182 | the new inventory and the error are exactly `Process` of the old inventory over `hosts` |
| Plugin.InventoryModule.Parse | ansible/inventory_plugins/yacloud_compute.py:190-194 | the four steps in order: the final inventory and error are `Pipeline` of the old inventory |
| Plugin.VerifyFile | ansible/inventory_plugins/yacloud_compute.py:87-94 | an accepted path was accepted by the base class and ends in `yacloud_compute.yml` or `yacloud_compute.yaml` |
| Plugin.VerifyFileAccepts | ansible/inventory_plugins/yacloud_compute.py:87-94 | any path ending in `yacloud_compute.yml` or `yacloud_compute.yaml` is accepted when the base class accepts it. No path is accepted when the base class refuses it |
| Scenarios.RunningInstanceJoinsLabelGroup | ansible/inventory_plugins/yacloud_compute.py:166-182 | a running instance labelled `team: x` with address 10.0.0.5, grouped by `team`, gives group `x = {web}` with `ansible_host = 10.0.0.5` |
| Scenarios.StoppedInstanceOnlyDeclaresGroup | ansible/inventory_plugins/yacloud_compute.py:175-176 | the same instance stopped gives an empty group `x` and no host |
| Scenarios.NatAddressIsExposed | ansible/inventory_plugins/yacloud_compute.py:101-102 | with a one-to-one NAT on the selected interface, `ansible_host` is the NAT address 203.0.113.9, and the instance lands in `yacloud` |

## Left out

- `_init_client` (token file, token option, SDK and stub construction): I/O and foreign calls. The empty-token `AnsibleError` is not modelled because it happens before any resolution.
- `parse` plumbing: the base class `parse`, `_read_config_data` and option loading. The options are constructor parameters of `InventoryModule`. `Parse` models only the four calls at lines 190-194.
- The base class `verify_file` is a boolean parameter of `VerifyFile`. `display.debug` is output and is not modelled.
- `MessageToDict` and the gRPC `List` requests are replaced by `Provider`: one reply per call, or a missing entry when the call raises. Transport errors are not distinguished further.
- Pagination is not modelled: each list call is its first and only page, as the plugin reads it. A reply holding only a `nextPageToken` (a truthy dictionary without `instances`) is not representable.
- `to_native` is the identity on the address string.
- Caching, `Constructable`, and Ansible's own validation of group and host names are not modelled.
- The record keys `id` and `name` of clouds and folders, and `name` and `status` of instances, are assumed always present. Their `KeyError` paths are not modelled.
- `AddHost` requires the group to exist, as Ansible's `add_host` does. The plugin always declares the group first.
- The health-check controller of the web application is a constant HTTP reply and is not part of this model.

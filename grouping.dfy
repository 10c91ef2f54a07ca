/**
  Group and host assignment. Each gathered instance, in order, gets a group
  (the value of the configured label, or the default group), the group is
  declared, and a running instance with a truthy address is added to it as
  a host whose `ansible_host` variable is that address.
*/
module Grouping {
  import opened Records
  import opened Address
  import opened InventoryData

  const DefaultGroup: string := "yacloud"
  const Running: string := "RUNNING"
  const HostVariable: string := "ansible_host"

  /** The `KeyError`s processing an instance can raise: the label lookup and the three network keys of address extraction. */
  predicate IsProcessError(e: Error) {
    e.KeyError? && e.key in {"labels", "networkInterfaces", "primaryV4Address", "address"}
  }

  /** The group of an instance under the `yacloud_group_label` option. */
  function GroupOf(h: Instance, groupLabel: string): (r: Result<string>)
    ensures groupLabel == "" ==> r == Ok(DefaultGroup)
    ensures r.Err? <==> groupLabel != "" && h.labels.None?
    ensures r.Err? ==> r.error == KeyError("labels")
    ensures r.Ok? && r.value != DefaultGroup ==>
      groupLabel != "" && h.labels.Some? && groupLabel in h.labels.value && h.labels.value[groupLabel] == r.value
    ensures groupLabel != "" && h.labels.Some? && groupLabel in h.labels.value ==> r == Ok(h.labels.value[groupLabel])
  {
    if groupLabel == "" then Ok(DefaultGroup)
    else
      match h.labels
      case None => Err(KeyError("labels"))
      case Some(labels) => if groupLabel in labels then Ok(labels[groupLabel]) else Ok(DefaultGroup)
  }

  /** What processing one instance does to the inventory. */
  datatype Decision =
    | Skip(group: string)                      // declare the group only
    | Add(group: string, address: string)      // declare the group, add the host, set `ansible_host`
    | Abort(declared: Option<string>, error: Error) // a `KeyError`, raised after declaring `declared` if it is a group

  /** Host eligibility: an instance is added exactly when its group is computable, it is running and its address is truthy. */
  function Decide(h: Instance, groupLabel: string): (d: Decision)
    ensures d.Add? <==>
      GroupOf(h, groupLabel).Ok? && h.status == Running && AddressOf(h).Ok? && TextTruthy(AddressOf(h).value)
    ensures d.Add? ==> Some(d.address) == AddressOf(h).value && d.address != ""
    ensures !d.Abort? ==> GroupOf(h, groupLabel) == Ok(d.group)
    ensures d.Abort? ==> d.declared == (if GroupOf(h, groupLabel).Ok? then Some(GroupOf(h, groupLabel).value) else None)
    ensures d.Skip? ==> h.status != Running || AddressOf(h) == Ok(None) || AddressOf(h) == Ok(Some(""))
    ensures d.Abort? <==> GroupOf(h, groupLabel).Err? || (h.status == Running && AddressOf(h).Err?)
    ensures d.Abort? ==>
      d.error == (if GroupOf(h, groupLabel).Err? then GroupOf(h, groupLabel).error else AddressOf(h).error)
  {
    match GroupOf(h, groupLabel)
    case Err(e) => Abort(None, e)
    case Ok(g) =>
      if h.status != Running then Skip(g)
      else
        match AddressOf(h)
        case Err(e) => Abort(Some(g), e)
        case Ok(ip) => if TextTruthy(ip) then Add(g, ip.value) else Skip(g)
  }

  /** The group a decision declares, if any. */
  function DeclaredGroup(d: Decision): Option<string> {
    match d
    case Skip(g) => Some(g)
    case Add(g, _) => Some(g)
    case Abort(declared, _) => declared
  }

  /** The inventory after some processing, and the error that stopped it, if any. */
  datatype Run = Run(state: Snapshot, failure: Option<Error>)

  /** Processing one instance. */
  function Step(s: Snapshot, h: Instance, groupLabel: string): (r: Run)
    ensures var d := Decide(h, groupLabel);
      r.failure == if d.Abort? then Some(d.error) else None
    ensures var d := Decide(h, groupLabel);
      r.state.groups.Keys == s.groups.Keys + (if DeclaredGroup(d).Some? then {DeclaredGroup(d).value} else {})
    ensures var d := Decide(h, groupLabel);
      forall g :: g in r.state.groups ==>
        r.state.groups[g] == (if g in s.groups then s.groups[g] else {}) + (if d.Add? && d.group == g then {h.name} else {})
    ensures var d := Decide(h, groupLabel);
      !d.Add? ==> r.state.hostVars == s.hostVars
    ensures var d := Decide(h, groupLabel);
      d.Add? ==>
        r.state.hostVars ==
        s.hostVars[h.name := (if h.name in s.hostVars then s.hostVars[h.name] else map[])[HostVariable := d.address]]
  {
    match Decide(h, groupLabel)
    case Abort(None, e) => Run(s, Some(e))
    case Abort(Some(g), e) => Run(Declare(s, g), Some(e))
    case Skip(g) => Run(Declare(s, g), None)
    case Add(g, a) => Run(SetVar(Join(Declare(s, g), h.name, g), h.name, HostVariable, a), None)
  }

  /** Processing the instances in order; the first error stops it, leaving what was done before. The only errors are the `KeyError`s of the label lookup and of address extraction. */
  function Process(s: Snapshot, hs: seq<Instance>, groupLabel: string): (r: Run)
    ensures hs == [] ==> r == Run(s, None)
    ensures r.failure.Some? ==> IsProcessError(r.failure.value)
    decreases |hs|
  {
    if hs == [] then Run(s, None)
    else
      var r := Step(s, hs[0], groupLabel);
      if r.failure.Some? then r else Process(r.state, hs[1..], groupLabel)
  }

  /** Processing `a + b` processes `a`, then, if that did not fail, `b`. */
  lemma {:induction false} ProcessAppend(s: Snapshot, a: seq<Instance>, b: seq<Instance>, groupLabel: string)
    ensures Process(s, a + b, groupLabel) ==
      var r := Process(s, a, groupLabel);
      if r.failure.Some? then r else Process(r.state, b, groupLabel)
    decreases |a|
  {
    if a == [] {
      assert a + b == b;
    } else {
      assert (a + b)[0] == a[0] && (a + b)[1..] == a[1..] + b;
      var r := Step(s, a[0], groupLabel);
      if r.failure.None? {
        ProcessAppend(r.state, a[1..], b, groupLabel);
      }
    }
  }

  /** Processing one instance is one step. */
  lemma ProcessSingle(s: Snapshot, h: Instance, groupLabel: string)
    ensures Process(s, [h], groupLabel) == Step(s, h, groupLabel)
  {
    assert [h][1..] == [];
  }

  /** After a run of `a` without error, one more instance is one more step. */
  lemma ProcessAppendOne(s: Snapshot, a: seq<Instance>, h: Instance, groupLabel: string)
    requires Process(s, a, groupLabel).failure.None?
    ensures Process(s, a + [h], groupLabel) == Step(Process(s, a, groupLabel).state, h, groupLabel)
  {
    ProcessAppend(s, a, [h], groupLabel);
    ProcessSingle(Process(s, a, groupLabel).state, h, groupLabel);
  }

  /** After a run of `a` without error, a failing step on the first instance of `b` is the result of running `a + b`. */
  lemma ProcessAppendFails(s: Snapshot, a: seq<Instance>, b: seq<Instance>, groupLabel: string)
    requires b != [] && Process(s, a, groupLabel).failure.None?
    requires Step(Process(s, a, groupLabel).state, b[0], groupLabel).failure.Some?
    ensures Process(s, a + b, groupLabel) == Step(Process(s, a, groupLabel).state, b[0], groupLabel)
  {
    ProcessAppend(s, a, b, groupLabel);
  }

  /** After a run of `a` without error, the first instance of `b` is one more step, and if that step fails, so does the run of `a + b`. */
  lemma ProcessSplit(s: Snapshot, a: seq<Instance>, b: seq<Instance>, groupLabel: string)
    requires b != [] && Process(s, a, groupLabel).failure.None?
    ensures var r := Step(Process(s, a, groupLabel).state, b[0], groupLabel);
      Process(s, a + [b[0]], groupLabel) == r &&
      (r.failure.Some? ==> Process(s, a + b, groupLabel) == r)
  {
    ProcessAppendOne(s, a, b[0], groupLabel);
    if Step(Process(s, a, groupLabel).state, b[0], groupLabel).failure.Some? {
      ProcessAppendFails(s, a, b, groupLabel);
    }
  }

  /** One more instance of a run that has not failed: its step extends the run, and if the step fails, so does the whole run. */
  lemma ProcessPrefix(s: Snapshot, hs: seq<Instance>, i: int, groupLabel: string)
    requires 0 <= i < |hs| && Process(s, hs[..i], groupLabel).failure.None?
    ensures var r := Step(Process(s, hs[..i], groupLabel).state, hs[i], groupLabel);
      Process(s, hs[..i + 1], groupLabel) == r &&
      (r.failure.Some? ==> Process(s, hs, groupLabel) == r)
  {
    SplitAt(hs, i);
    ProcessSplit(s, hs[..i], hs[i..], groupLabel);
  }

  /** Splitting a sequence of instances before position `i`. */
  lemma SplitAt(hs: seq<Instance>, i: int)
    requires 0 <= i < |hs|
    ensures hs[i..][0] == hs[i] && hs[..i + 1] == hs[..i] + [hs[i]] && hs == hs[..i] + hs[i..]
  {
    assert hs[..i + 1] == hs[..i] + [hs[i]];
    assert hs == hs[..i] + hs[i..];
  }



  /**
    Nothing is ever removed: groups, members, hosts and host variables
    already in the inventory remain, and the only variable ever written is
    `ansible_host`.
  */
  lemma {:induction false} ProcessOnlyAdds(s: Snapshot, hs: seq<Instance>, groupLabel: string)
    ensures var r := Process(s, hs, groupLabel).state;
      && s.groups.Keys <= r.groups.Keys
      && (forall g :: g in s.groups ==> s.groups[g] <= r.groups[g])
      && s.hostVars.Keys <= r.hostVars.Keys
      && (forall n, v :: n in s.hostVars && v in s.hostVars[n] ==> v in r.hostVars[n])
      && (forall n, v :: n in s.hostVars && v in s.hostVars[n] && v != HostVariable ==>
            r.hostVars[n][v] == s.hostVars[n][v])
    decreases |hs|
  {
    if hs != [] {
      var r := Step(s, hs[0], groupLabel);
      if r.failure.None? {
        ProcessOnlyAdds(r.state, hs[1..], groupLabel);
      }
    }
  }

  /** Groups always declared: after a run without error, every instance's group is in the inventory, whether or not the instance became a host. */
  lemma {:induction false} GroupsAlwaysDeclared(s: Snapshot, hs: seq<Instance>, groupLabel: string)
    ensures var r := Process(s, hs, groupLabel);
      r.failure.None? ==>
        forall i :: 0 <= i < |hs| ==>
          GroupOf(hs[i], groupLabel).Ok? && GroupOf(hs[i], groupLabel).value in r.state.groups
    decreases |hs|
  {
    if hs != [] {
      var r1 := Step(s, hs[0], groupLabel);
      if r1.failure.None? {
        var r := Process(r1.state, hs[1..], groupLabel);
        assert Process(s, hs, groupLabel) == r;
        if r.failure.None? {
          GroupsAlwaysDeclared(r1.state, hs[1..], groupLabel);
          ProcessOnlyAdds(r1.state, hs[1..], groupLabel);
          var g0 := GroupOf(hs[0], groupLabel).value;
          assert g0 in r1.state.groups;
          assert g0 in r.state.groups;
          forall i | 0 < i < |hs| ensures GroupOf(hs[i], groupLabel).Ok? && GroupOf(hs[i], groupLabel).value in r.state.groups {
            assert hs[i] == hs[1..][i - 1];
          }
        }
      }
    }
  }


  /** Some instance of `hs` declares group `g`. */
  ghost predicate DeclaresGroup(hs: seq<Instance>, groupLabel: string, g: string) {
    exists i :: 0 <= i < |hs| && DeclaredGroup(Decide(hs[i], groupLabel)) == Some(g)
  }

  /** Some instance of `hs` named `n` is eligible and adds `n` to `g`. */
  ghost predicate AddsMember(hs: seq<Instance>, groupLabel: string, g: string, n: string) {
    exists i :: 0 <= i < |hs| && hs[i].name == n && Decide(hs[i], groupLabel).Add? && Decide(hs[i], groupLabel).group == g
  }

  /** Some instance of `hs` named `n` is eligible. */
  ghost predicate AddsHost(hs: seq<Instance>, groupLabel: string, n: string) {
    exists i :: 0 <= i < |hs| && hs[i].name == n && Decide(hs[i], groupLabel).Add?
  }

  /** What the instances after the first do, the whole sequence does. */
  lemma TailWitness(hs: seq<Instance>, groupLabel: string)
    requires hs != []
    ensures forall g :: DeclaresGroup(hs[1..], groupLabel, g) ==> DeclaresGroup(hs, groupLabel, g)
    ensures forall g, n :: AddsMember(hs[1..], groupLabel, g, n) ==> AddsMember(hs, groupLabel, g, n)
    ensures forall n :: AddsHost(hs[1..], groupLabel, n) ==> AddsHost(hs, groupLabel, n)
  {
    forall g | DeclaresGroup(hs[1..], groupLabel, g) ensures DeclaresGroup(hs, groupLabel, g) {
      var i :| 0 <= i < |hs[1..]| && DeclaredGroup(Decide(hs[1..][i], groupLabel)) == Some(g);
      assert hs[i + 1] == hs[1..][i];
    }
    forall g, n | AddsMember(hs[1..], groupLabel, g, n) ensures AddsMember(hs, groupLabel, g, n) {
      var i :| 0 <= i < |hs[1..]| && hs[1..][i].name == n && Decide(hs[1..][i], groupLabel).Add? && Decide(hs[1..][i], groupLabel).group == g;
      assert hs[i + 1] == hs[1..][i];
    }
    forall n | AddsHost(hs[1..], groupLabel, n) ensures AddsHost(hs, groupLabel, n) {
      var i :| 0 <= i < |hs[1..]| && hs[1..][i].name == n && Decide(hs[1..][i], groupLabel).Add?;
      assert hs[i + 1] == hs[1..][i];
    }
  }

  /** Every group a run (failed or not) adds is declared by one of the instances. */
  lemma {:induction false} NewGroupsComeFromInstances(s: Snapshot, hs: seq<Instance>, groupLabel: string)
    ensures var r := Process(s, hs, groupLabel).state;
      forall g :: g in r.groups ==> g in s.groups || DeclaresGroup(hs, groupLabel, g)
    decreases |hs|
  {
    if hs != [] {
      var r1 := Step(s, hs[0], groupLabel);
      TailWitness(hs, groupLabel);
      if r1.failure.None? {
        NewGroupsComeFromInstances(r1.state, hs[1..], groupLabel);
      }
    }
  }

  /** Only eligible instances become members: every membership a run (failed or not) adds comes from a running instance with a truthy address, for its own group. */
  lemma {:induction false} OnlyEligibleBecomeMembers(s: Snapshot, hs: seq<Instance>, groupLabel: string)
    ensures var r := Process(s, hs, groupLabel).state;
      forall g, n :: g in r.groups && n in r.groups[g] ==>
        (g in s.groups && n in s.groups[g]) || AddsMember(hs, groupLabel, g, n)
    decreases |hs|
  {
    if hs != [] {
      var r1 := Step(s, hs[0], groupLabel);
      TailWitness(hs, groupLabel);
      if r1.failure.None? {
        OnlyEligibleBecomeMembers(r1.state, hs[1..], groupLabel);
      }
    }
  }

  /** Only eligible instances get variables: every host a run (failed or not) gives variables to is the name of an eligible instance. */
  lemma {:induction false} OnlyEligibleGetVariables(s: Snapshot, hs: seq<Instance>, groupLabel: string)
    ensures var r := Process(s, hs, groupLabel).state;
      forall n :: n in r.hostVars ==> n in s.hostVars || AddsHost(hs, groupLabel, n)
    decreases |hs|
  {
    if hs != [] {
      var r1 := Step(s, hs[0], groupLabel);
      TailWitness(hs, groupLabel);
      if r1.failure.None? {
        OnlyEligibleGetVariables(r1.state, hs[1..], groupLabel);
      }
    }
  }

  /** Every eligible instance of a run without error becomes a member of its group and has `ansible_host` set. */
  lemma {:induction false} EligibleBecomeHosts(s: Snapshot, hs: seq<Instance>, groupLabel: string)
    ensures var r := Process(s, hs, groupLabel);
      r.failure.None? ==>
        forall i :: 0 <= i < |hs| && Decide(hs[i], groupLabel).Add? ==>
          && Decide(hs[i], groupLabel).group in r.state.groups
          && hs[i].name in r.state.groups[Decide(hs[i], groupLabel).group]
          && hs[i].name in r.state.hostVars
          && HostVariable in r.state.hostVars[hs[i].name]
    decreases |hs|
  {
    if hs != [] {
      var r1 := Step(s, hs[0], groupLabel);
      if r1.failure.None? {
        EligibleBecomeHosts(r1.state, hs[1..], groupLabel);
        ProcessOnlyAdds(r1.state, hs[1..], groupLabel);
        var r := Process(s, hs, groupLabel);
        if r.failure.None? {
          forall i | 0 <= i < |hs| && Decide(hs[i], groupLabel).Add?
            ensures && Decide(hs[i], groupLabel).group in r.state.groups
                    && hs[i].name in r.state.groups[Decide(hs[i], groupLabel).group]
                    && hs[i].name in r.state.hostVars
                    && HostVariable in r.state.hostVars[hs[i].name]
          {
            if i > 0 {
              assert hs[i] == hs[1..][i - 1];
            }
          }
        }
      }
    }
  }

  /** A host name that no eligible instance carries keeps its variables. */
  lemma {:induction false} OtherHostsKeepVariables(s: Snapshot, hs: seq<Instance>, groupLabel: string, n: string)
    requires n in s.hostVars && !AddsHost(hs, groupLabel, n)
    ensures var r := Process(s, hs, groupLabel).state;
      n in r.hostVars && r.hostVars[n] == s.hostVars[n]
    decreases |hs|
  {
    if hs != [] {
      var r1 := Step(s, hs[0], groupLabel);
      TailWitness(hs, groupLabel);
      if r1.failure.None? {
        OtherHostsKeepVariables(r1.state, hs[1..], groupLabel, n);
      }
    }
  }

  /** Last write wins: when several eligible instances share a name, `ansible_host` ends up holding the address of the last of them. */
  lemma {:induction false} LastWriteWins(s: Snapshot, hs: seq<Instance>, groupLabel: string, i: int)
    requires 0 <= i < |hs| && Decide(hs[i], groupLabel).Add?
    requires !AddsHost(hs[i + 1..], groupLabel, hs[i].name)
    requires Process(s, hs, groupLabel).failure.None?
    ensures var r := Process(s, hs, groupLabel).state;
      hs[i].name in r.hostVars && HostVariable in r.hostVars[hs[i].name] &&
      r.hostVars[hs[i].name][HostVariable] == Decide(hs[i], groupLabel).address
    decreases |hs|
  {
    var r1 := Step(s, hs[0], groupLabel);
    assert r1.failure.None?;
    if i > 0 {
      assert hs[1..][i - 1] == hs[i] && hs[1..][i - 1 + 1..] == hs[i + 1..];
      LastWriteWins(r1.state, hs[1..], groupLabel, i - 1);
    } else {
      OtherHostsKeepVariables(r1.state, hs[1..], groupLabel, hs[0].name);
    }
  }

  /** With the label option empty, the labels are never read and every added host lands in the default group. */
  lemma EmptyLabelMeansDefaultGroup(s: Snapshot, hs: seq<Instance>)
    ensures var r := Process(s, hs, "");
      r.failure != Some(KeyError("labels")) &&
      r.state.groups.Keys <= s.groups.Keys + {DefaultGroup} &&
      forall g, n :: g in r.state.groups && n in r.state.groups[g] && g != DefaultGroup ==>
        g in s.groups && n in s.groups[g]
  {
    NewGroupsComeFromInstances(s, hs, "");
    OnlyEligibleBecomeMembers(s, hs, "");
    NoLabelsErrorWithoutLabel(s, hs);
  }

  lemma {:induction false} NoLabelsErrorWithoutLabel(s: Snapshot, hs: seq<Instance>)
    ensures Process(s, hs, "").failure != Some(KeyError("labels"))
    decreases |hs|
  {
    if hs != [] {
      var r1 := Step(s, hs[0], "");
      if r1.failure.None? {
        NoLabelsErrorWithoutLabel(r1.state, hs[1..]);
      } else {
        var d := Decide(hs[0], "");
        assert d.Abort? && d.declared == Some(DefaultGroup);
        assert AddressOf(hs[0]).Err? && d.error == AddressOf(hs[0]).error;
      }
    }
  }

  /** A run ends without error exactly when every instance's group is computable and every running instance's address extraction succeeds. */
  lemma {:induction false} ProcessSucceedsExactly(s: Snapshot, hs: seq<Instance>, groupLabel: string)
    ensures Process(s, hs, groupLabel).failure.None? <==>
      forall i :: 0 <= i < |hs| ==> GroupOf(hs[i], groupLabel).Ok? && (hs[i].status == Running ==> AddressOf(hs[i]).Ok?)
    decreases |hs|
  {
    if hs != [] {
      var r1 := Step(s, hs[0], groupLabel);
      ProcessSucceedsExactly(r1.state, hs[1..], groupLabel);
      assert forall i :: 1 <= i < |hs| ==> hs[i] == hs[1..][i - 1];
    }
  }
}

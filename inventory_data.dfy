/**
  The part of the automation tool's inventory the plugin writes to: which
  hosts each group holds, and the variables of each host.
*/
module InventoryData {

  /** The inventory as a value: group name to host names, host name to its variables. */
  datatype Snapshot = Snapshot(groups: map<string, set<string>>, hostVars: map<string, map<string, string>>)

  /** Declaring a group adds it, empty, unless it is already there. */
  function Declare(s: Snapshot, g: string): (r: Snapshot)
    ensures r.groups.Keys == s.groups.Keys + {g}
    ensures forall g' :: g' in s.groups ==> r.groups[g'] == s.groups[g']
    ensures g !in s.groups ==> r.groups[g] == {}
    ensures r.hostVars == s.hostVars
  {
    if g in s.groups then s else s.(groups := s.groups[g := {}])
  }

  /** Declaring a group twice is declaring it once. */
  lemma DeclareIdempotent(s: Snapshot, g: string)
    ensures Declare(Declare(s, g), g) == Declare(s, g)
  {
  }

  /** Adding a host to a declared group adds it to that group's members and gives it a (so far empty) variable set if it had none. */
  function Join(s: Snapshot, host: string, g: string): (r: Snapshot)
    requires g in s.groups
    ensures r.groups.Keys == s.groups.Keys
    ensures r.groups[g] == s.groups[g] + {host}
    ensures forall g' :: g' in s.groups && g' != g ==> r.groups[g'] == s.groups[g']
    ensures r.hostVars.Keys == s.hostVars.Keys + {host}
    ensures forall n :: n in s.hostVars ==> r.hostVars[n] == s.hostVars[n]
    ensures host !in s.hostVars ==> r.hostVars[host] == map[]
  {
    Snapshot(s.groups[g := s.groups[g] + {host}],
             if host in s.hostVars then s.hostVars else s.hostVars[host := map[]])
  }

  /** Setting a variable of a known host overwrites that one variable of that one host. */
  function SetVar(s: Snapshot, host: string, name: string, value: string): (r: Snapshot)
    requires host in s.hostVars
    ensures r.groups == s.groups
    ensures r.hostVars.Keys == s.hostVars.Keys
    ensures forall n :: n in s.hostVars && n != host ==> r.hostVars[n] == s.hostVars[n]
    ensures r.hostVars[host].Keys == s.hostVars[host].Keys + {name}
    ensures r.hostVars[host][name] == value
    ensures forall v :: v in s.hostVars[host] && v != name ==> r.hostVars[host][v] == s.hostVars[host][v]
  {
    s.(hostVars := s.hostVars[host := s.hostVars[host][name := value]])
  }

  /** The inventory object the plugin is handed and updates in place. */
  class Inventory {
    var groups: map<string, set<string>>
    var hostVars: map<string, map<string, string>>

    function State(): Snapshot
      reads this
    {
      Snapshot(groups, hostVars)
    }

    /** `add_group`: idempotent. */
    method AddGroup(group: string)
      modifies this
      ensures State() == Declare(old(State()), group)
    {
      if group !in groups {
        groups := groups[group := {}];
      }
    }

    /** `add_host`: the group must exist; membership accumulates. */
    method AddHost(host: string, group: string)
      requires group in groups
      modifies this
      ensures State() == Join(old(State()), host, group)
    {
      groups := groups[group := groups[group] + {host}];
      if host !in hostVars {
        hostVars := hostVars[host := map[]];
      }
    }

    /** `set_variable`: the host must exist; the last write wins. */
    method SetVariable(host: string, name: string, value: string)
      requires host in hostVars
      modifies this
      ensures State() == SetVar(old(State()), host, name, value)
    {
      hostVars := hostVars[host := hostVars[host][name := value]];
    }
  }
}

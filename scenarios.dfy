/**
  Worked examples of one instance going through group and host assignment.
*/
module Scenarios {
  import opened Records
  import opened InventoryData
  import opened Address
  import opened Grouping

  function NoNat(address: string): NetworkInterface {
    NetworkInterface(Some(PrimaryV4Address(Some(address), None, 0)))
  }

  /** A running instance labelled `team: x`, grouped by `team`, becomes host of group `x` with its primary address. */
  lemma RunningInstanceJoinsLabelGroup()
    ensures var h := Instance("web", "RUNNING", Some(map["team" := "x"]), Some([NoNat("10.0.0.5")]));
      Process(Snapshot(map[], map[]), [h], "team") ==
        Run(Snapshot(map["x" := {"web"}], map["web" := map["ansible_host" := "10.0.0.5"]]), None)
  {
    var h := Instance("web", "RUNNING", Some(map["team" := "x"]), Some([NoNat("10.0.0.5")]));
    assert [NoNat("10.0.0.5")][1..] == [];
    assert Decide(h, "team") == Add("x", "10.0.0.5");
    assert [h][1..] == [];
    var declared := Declare(Snapshot(map[], map[]), "x");
    assert declared.groups == map["x" := {}];
    assert declared.groups["x"] + {"web"} == {"web"};
    assert declared.groups["x" := {"web"}] == map["x" := {"web"}];
    var joined := Join(declared, "web", "x");
    assert joined.groups == map["x" := {"web"}];
  }

  /** The same instance stopped: group `x` is declared and stays empty, and no host is added. */
  lemma StoppedInstanceOnlyDeclaresGroup()
    ensures var h := Instance("web", "STOPPED", Some(map["team" := "x"]), Some([NoNat("10.0.0.5")]));
      Process(Snapshot(map[], map[]), [h], "team") == Run(Snapshot(map["x" := {}], map[]), None)
  {
  }

  /** With a one-to-one NAT on the selected interface, `ansible_host` is the NAT address and the instance lands in the default group. */
  lemma NatAddressIsExposed()
    ensures var translation := OneToOneNat(Some("203.0.113.9"), 0);
      var h := Instance("web", "RUNNING", None,
        Some([NetworkInterface(Some(PrimaryV4Address(Some("10.0.0.5"), Some(translation), 0))), NoNat("10.0.0.6")]));
      Process(Snapshot(map[], map[]), [h], "") ==
        Run(Snapshot(map["yacloud" := {"web"}], map["web" := map["ansible_host" := "203.0.113.9"]]), None)
  {
    var translation := OneToOneNat(Some("203.0.113.9"), 0);
    var ifs := [NetworkInterface(Some(PrimaryV4Address(Some("10.0.0.5"), Some(translation), 0))), NoNat("10.0.0.6")];
    var h := Instance("web", "RUNNING", None, Some(ifs));
    assert FirstAddress(ifs) == Ok(Some("203.0.113.9"));
    assert Decide(h, "") == Add("yacloud", "203.0.113.9");
    assert [h][1..] == [];
    var declared := Declare(Snapshot(map[], map[]), "yacloud");
    assert declared.groups == map["yacloud" := {}];
    assert declared.groups["yacloud"] + {"web"} == {"web"};
    assert declared.groups["yacloud" := {"web"}] == map["yacloud" := {"web"}];
    var joined := Join(declared, "web", "yacloud");
    assert joined.groups == map["yacloud" := {"web"}];
  }
}

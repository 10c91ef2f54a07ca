/**
  Address selection: the address under which an instance is reachable. The
  network interfaces are scanned in order; the first one whose primary IPv4
  address is truthy decides, exposing its one-to-one NAT address when it has
  one and its own address otherwise.
*/
module Address {
  import opened Records

  /** The address a selected primary address exposes: the NAT address when `oneToOneNat` is truthy, the raw address otherwise. */
  function Exposed(p: PrimaryV4Address): (r: Result<string>)
    ensures r.Err? ==> r.error == KeyError("address")
    ensures r.Err? <==>
      if p.oneToOneNat.Some? && NatTruthy(p.oneToOneNat.value) then p.oneToOneNat.value.address.None? else p.address.None?
    ensures p.oneToOneNat.Some? && NatTruthy(p.oneToOneNat.value) && p.oneToOneNat.value.address.Some? ==>
      r == Ok(p.oneToOneNat.value.address.value)
    ensures !(p.oneToOneNat.Some? && NatTruthy(p.oneToOneNat.value)) && p.address.Some? ==> r == Ok(p.address.value)
  {
    if p.oneToOneNat.Some? && NatTruthy(p.oneToOneNat.value) then
      (match p.oneToOneNat.value.address
       case Some(a) => Ok(a)
       case None => Err(KeyError("address")))
    else
      (match p.address
       case Some(a) => Ok(a)
       case None => Err(KeyError("address")))
  }

  /** The scan over the interfaces, returning at the first truthy primary address; it raises only the `KeyError`s for `primaryV4Address` and `address`. */
  function FirstAddress(ifs: seq<NetworkInterface>): (r: Result<Option<string>>)
    ensures ifs == [] ==> r == Ok(None)
    ensures r.Err? ==> r.error in {KeyError("primaryV4Address"), KeyError("address")}
    decreases |ifs|
  {
    if ifs == [] then Ok(None)
    else
      match ifs[0].primaryV4Address
      case None => Err(KeyError("primaryV4Address"))
      case Some(p) =>
        if !PrimaryTruthy(p) then FirstAddress(ifs[1..])
        else
          match Exposed(p)
          case Ok(a) => Ok(Some(a))
          case Err(e) => Err(e)
  }

  /** The address of an instance; its errors are the `KeyError`s for the three network keys, never one for `labels`. */
  function AddressOf(h: Instance): (r: Result<Option<string>>)
    ensures h.networkInterfaces.None? ==> r == Err(KeyError("networkInterfaces"))
    ensures r.Err? ==> r.error in {KeyError("networkInterfaces"), KeyError("primaryV4Address"), KeyError("address")}
  {
    match h.networkInterfaces
    case None => Err(KeyError("networkInterfaces"))
    case Some(ifs) => FirstAddress(ifs)
  }

  /** Every interface before `k` has a primary address that is present and falsy. */
  ghost predicate PassedOver(ifs: seq<NetworkInterface>, k: int)
    requires 0 <= k <= |ifs|
  {
    forall j :: 0 <= j < k ==>
      ifs[j].primaryV4Address.Some? && !PrimaryTruthy(ifs[j].primaryV4Address.value)
  }

  /** Interfaces the scan passes over do not affect its result. */
  lemma {:induction false} SkipPassedOver(ifs: seq<NetworkInterface>, k: int)
    requires 0 <= k <= |ifs| && PassedOver(ifs, k)
    ensures FirstAddress(ifs) == FirstAddress(ifs[k..])
    decreases k
  {
    if k > 0 {
      SkipPassedOver(ifs[1..], k - 1);
      assert ifs[1..][k - 1..] == ifs[k..];
    }
  }

  /**
    First interface wins: when interface `k` is the first with a truthy
    primary address, the scan returns its NAT address if it has a truthy
    `oneToOneNat`, its raw address otherwise, and any list of interfaces that
    agrees with `ifs` up to `k` gives the same result, whatever follows.
  */
  lemma FirstInterfaceWins(ifs: seq<NetworkInterface>, k: int, other: seq<NetworkInterface>)
    requires 0 <= k < |ifs| && PassedOver(ifs, k)
    requires ifs[k].primaryV4Address.Some? && PrimaryTruthy(ifs[k].primaryV4Address.value)
    requires k < |other| && other[..k + 1] == ifs[..k + 1]
    ensures FirstAddress(other) == FirstAddress(ifs)
    ensures FirstAddress(ifs) ==
      match Exposed(ifs[k].primaryV4Address.value)
      case Ok(a) => Ok(Some(a))
      case Err(e) => Err(e)
    ensures var p := ifs[k].primaryV4Address.value;
      p.oneToOneNat.Some? && NatTruthy(p.oneToOneNat.value) && p.oneToOneNat.value.address.Some? ==>
        FirstAddress(ifs) == Ok(Some(p.oneToOneNat.value.address.value))
    ensures var p := ifs[k].primaryV4Address.value;
      !(p.oneToOneNat.Some? && NatTruthy(p.oneToOneNat.value)) && p.address.Some? ==>
        FirstAddress(ifs) == Ok(Some(p.address.value))
  {
    SkipPassedOver(ifs, k);
    assert PassedOver(other, k) by {
      forall j | 0 <= j < k ensures other[j] == ifs[j] {
        assert other[j] == other[..k + 1][j];
      }
    }
    SkipPassedOver(other, k);
    assert other[k] == other[..k + 1][k];
  }

  /** The scan stops with a `KeyError` at an interface lacking the `primaryV4Address` key, unless an earlier one decided. */
  lemma MissingPrimaryKeyFails(ifs: seq<NetworkInterface>, k: int)
    requires 0 <= k < |ifs| && PassedOver(ifs, k) && ifs[k].primaryV4Address.None?
    ensures FirstAddress(ifs) == Err(KeyError("primaryV4Address"))
  {
    SkipPassedOver(ifs, k);
  }

  /** The scan finds no address exactly when every interface has a present but falsy primary address. */
  lemma {:induction false} NoAddressExactly(ifs: seq<NetworkInterface>)
    ensures FirstAddress(ifs) == Ok(None) <==> PassedOver(ifs, |ifs|)
    decreases |ifs|
  {
    if ifs != [] {
      NoAddressExactly(ifs[1..]);
      assert PassedOver(ifs, |ifs|) <==>
        ifs[0].primaryV4Address.Some? && !PrimaryTruthy(ifs[0].primaryV4Address.value) &&
        PassedOver(ifs[1..], |ifs| - 1);
    }
  }
}

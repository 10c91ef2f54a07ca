/**
  The records the inventory plugin reads, as the provider's list calls hand
  them over once decoded into dictionaries.

  Decoding drops every field that holds its default value (an empty string,
  an empty list or map, an unset message), so a key the plugin indexes may be
  missing. Where that can happen the field is an `Option`: `None` means the
  key is absent, and indexing it is a `KeyError`. A dictionary is truthy
  when it has at least one key; `otherKeys` counts the keys of a dictionary
  that the plugin never reads, which matter only for that test.
*/
module Records {

  datatype Option<T> = None | Some(value: T)

  /** Why a run of the plugin stops. */
  datatype Error =
    | ListCloudsFailed                   // the clouds list call raised
    | ListFoldersFailed(cloudId: string)  // the folders list call for this cloud raised
    | ListInstancesFailed(folderId: string) // the instances list call for this folder raised
    | KeyError(key: string)              // a dictionary lacked a key the plugin indexes

  datatype Result<T> = Ok(value: T) | Err(error: Error)

  datatype Cloud = Cloud(id: string, name: string)

  datatype Folder = Folder(id: string, name: string, cloudId: string)

  /** The `oneToOneNat` entry of a primary address. */
  datatype OneToOneNat = OneToOneNat(address: Option<string>, otherKeys: nat)

  /** The `primaryV4Address` entry of a network interface. */
  datatype PrimaryV4Address =
    PrimaryV4Address(address: Option<string>, oneToOneNat: Option<OneToOneNat>, otherKeys: nat)

  datatype NetworkInterface = NetworkInterface(primaryV4Address: Option<PrimaryV4Address>)

  datatype Instance = Instance(
    name: string,
    status: string,
    labels: Option<map<string, string>>,
    networkInterfaces: Option<seq<NetworkInterface>>)

  /**
    What the provider answers to the three list calls. `clouds` is `None`
    when the clouds call raises; a cloud id missing from `folders`, or a
    folder id missing from `instances`, is a call that raises. A listed
    sequence that is empty is an answer that decodes to a dictionary with
    no list key at all.
  */
  datatype Provider = Provider(
    clouds: Option<seq<Cloud>>,
    folders: map<string, seq<Folder>>,
    instances: map<string, seq<Instance>>)

  function CloudName(c: Cloud): string { c.name }

  function FolderName(f: Folder): string { f.name }

  /** Python truthiness of a decoded `oneToOneNat` dictionary. */
  predicate NatTruthy(n: OneToOneNat) {
    n.address.Some? || n.otherKeys > 0
  }

  /** Python truthiness of a decoded `primaryV4Address` dictionary. */
  predicate PrimaryTruthy(p: PrimaryV4Address) {
    p.address.Some? || p.oneToOneNat.Some? || p.otherKeys > 0
  }

  /** Python truthiness of an optional string: neither `None` nor empty. */
  predicate TextTruthy(s: Option<string>) {
    s.Some? && s.value != ""
  }
}

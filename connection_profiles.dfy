/** The registry of connection profiles, keyed by profile id. The
    profiles' own properties are not part of this model: a profile is
    identified by its kind. */
module ConnectionProfiles {
  import opened Common

  datatype ConnectionProfile = DefaultConnectionProfile | LocalConnectionProfile
                             | RemoteConnectionProfile | CloudConnectionProfile

  /** The registry, in registration order. */
  const Registered: seq<(int, ConnectionProfile)> :=
    [(1, DefaultConnectionProfile), (2, LocalConnectionProfile),
     (3, RemoteConnectionProfile), (4, CloudConnectionProfile)]

  /** A lookup of an id that is not registered throws KeyNotFoundException. */
  datatype KeyNotFound = KeyNotFound(id: int)

  /** GetProfile: the profile registered under the id. */
  function GetProfile(id: int): (r: Result<ConnectionProfile, KeyNotFound>)
    ensures r.Ok? <==> 1 <= id <= 4
    ensures r.Err? ==> r.error == KeyNotFound(id)
    ensures r.Ok? ==> (id, r.value) in Registered
  {
    if id == 1 then Ok(DefaultConnectionProfile)
    else if id == 2 then Ok(LocalConnectionProfile)
    else if id == 3 then Ok(RemoteConnectionProfile)
    else if id == 4 then Ok(CloudConnectionProfile)
    else Err(KeyNotFound(id))
  }

  /** Each profile is registered under exactly one id: GetProfile is
      injective on the registered ids. */
  lemma ProfilesDistinct(i: int, j: int)
    requires GetProfile(i).Ok? && GetProfile(j).Ok? && GetProfile(i) == GetProfile(j)
    ensures i == j
  {
  }

  /** GetProfiles: a new list holding the four registered profiles, in
      registration order; changing it leaves the registry as it is. */
  method GetProfiles() returns (list: array<ConnectionProfile>)
    ensures fresh(list)
    ensures list.Length == |Registered|
    ensures forall k :: 0 <= k < list.Length ==> GetProfile(k + 1) == Ok(list[k])
  {
    list := new ConnectionProfile[|Registered|](k requires 0 <= k < |Registered| => Registered[k].1);
  }
}

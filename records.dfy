/**
 * The btree store's records as abstract values. The source keeps each
 * record as the `repr` of a Python dict and reads it back with `eval`;
 * here each record is the value that dict denotes.
 *
 *   key 0: the station profiles, SSID -> password          (QUERY0)
 *   key 1: the access-point identity, a one-entry dict      (QUERY1)
 *          {ssid: password} on esp8266, {ssid: None} on esp32
 *   key 2: the access-point settings {"max_client/s": n}    (QUERY2)
 */
module Records {
  import opened Wrappers

  datatype ApIdentity = ApIdentity(ssid: string, password: Option<string>)

  datatype Record =
    | Profiles(entries: map<string, string>)
    | Identity(id: ApIdentity)
    | Settings(maxClients: int)

  type Store = map<nat, Record>

  const ProfilesKey: nat := 0
  const IdentityKey: nat := 1
  const SettingsKey: nat := 2

  /** Upper bound applied to the number of AP clients when it is written. */
  const MaxClientsCap: int := 10

  /** The three records exist, each holding the shape its readers `eval` it to. */
  predicate WellFormed(s: Store)
  {
    && ProfilesKey in s && s[ProfilesKey].Profiles?
    && IdentityKey in s && s[IdentityKey].Identity?
    && SettingsKey in s && s[SettingsKey].Settings?
  }

  /**
   * SSID_EXISTS as computed at boot: record 0 is longer than the two bytes
   * `{}`, which is the case exactly when the stored map is not empty.
   */
  predicate SsidExistsAtBoot(s: Store)
    requires WellFormed(s)
  {
    s[ProfilesKey].entries != map[]
  }

  /** The records a first run writes before restarting the board. */
  function Defaults(): (s: Store)
    ensures WellFormed(s) && !SsidExistsAtBoot(s)
    ensures s[IdentityKey].id == ApIdentity("ESP_Station", Some("MicroPython"))
    ensures s[SettingsKey].maxClients == 1
  {
    map[ProfilesKey := Profiles(map[]),
        IdentityKey := Identity(ApIdentity("ESP_Station", Some("MicroPython"))),
        SettingsKey := Settings(1)]
  }

  /** The clamp `if m_c > 10: m_c = 10`: bounded above, no lower bound. */
  function ClampMaxClients(m: int): (r: int)
    ensures r <= MaxClientsCap
    ensures m <= MaxClientsCap ==> r == m
    ensures m > MaxClientsCap ==> r == MaxClientsCap
  {
    if m > MaxClientsCap then MaxClientsCap else m
  }
}

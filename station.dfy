/**
 * The `Station` object with the module-level state it works on: the btree
 * store, the in-memory profile map QUERY0 and the flag SSID_EXISTS.
 * Console input is passed in as parameters, the scan result and the radio's
 * answers to isconnected() as values.
 */
module StationModel {
  import opened Wrappers
  import opened Text
  import opened Records
  import opened Menus
  import opened Radio

  const Esp8266: string := "esp8266"
  const Esp32: string := "esp32"

  /** AUTO_AP and AUTO_WLAN: both switched on in the source. */
  const AutoAp: bool := true
  const AutoWlan: bool := true

  /** What `auto_mode` configures on the access-point radio. */
  datatype ApConfig =
    | Secured(essid: string, password: Option<string>)
    | Limited(essid: string, maxClients: int)
    | NotConfigured

  /** The AP setup chosen at boot from the board name and records 1 and 2 as read at boot. */
  function ApSetup(board: string, identity: ApIdentity, maxClients: int): (c: ApConfig)
    ensures c.Secured? <==> board == Esp8266
    ensures c.Limited? <==> board == Esp32
    ensures !c.NotConfigured? ==> c.essid == identity.ssid
    ensures c.Secured? ==> c.password == identity.password
    ensures c.Limited? ==> c.maxClients == maxClients
  {
    if AutoAp && board == Esp8266 then Secured(identity.ssid, identity.password)
    else if AutoAp && board == Esp32 then Limited(identity.ssid, maxClients)
    else NotConfigured
  }

  /** The result of an operation that may call `wlan_connect`. */
  datatype ConnectOutcome =
    | NoMatch           // no scanned SSID is saved
    | InvalidChoice     // the typed index is not in the menu
    | ValueErrorRaised  // the typed index is not an integer: int() raises ValueError out of the operation
    | Attempted(ssid: string, password: string, connected: bool, connects: nat)

  /** What the boot sequence does after configuring the AP radio. */
  datatype BootOutcome = AutoConnected(outcome: ConnectOutcome) | EnteredMenu

  class Station {
    /** The board name, lower-cased. */
    const board: string
    /** QUERY1 and QUERY2: records 1 and 2 as read at boot. */
    const bootIdentity: ApIdentity
    const bootMaxClients: int
    /** The btree store. */
    var store: Store
    /** QUERY0: the saved profiles, SSID -> password. */
    var profiles: map<string, string>
    /** SSID_EXISTS. */
    var ssidExists: bool

    /** The store is well formed and record 0 mirrors QUERY0. */
    ghost predicate Valid()
      reads this
    {
      WellFormed(store) && store[ProfilesKey] == Profiles(profiles)
    }

    /** Module start-up: the records are read and SSID_EXISTS is set from record 0. */
    constructor (boardName: string, stored: Store)
      requires WellFormed(stored)
      ensures Valid()
      ensures board == Lower(boardName)
      ensures store == stored && profiles == stored[ProfilesKey].entries
      ensures bootIdentity == stored[IdentityKey].id && bootMaxClients == stored[SettingsKey].maxClients
      ensures ssidExists <==> profiles != map[]
    {
      board := Lower(boardName);
      bootIdentity := stored[IdentityKey].id;
      bootMaxClients := stored[SettingsKey].maxClients;
      store := stored;
      profiles := stored[ProfilesKey].entries;
      ssidExists := SsidExistsAtBoot(stored);
    }

    /**
     * `auto_mode`: configure the AP radio for the board, then auto-connect
     * when profiles exist, otherwise enter the menu.
     */
    method AutoMode(scan: seq<string>, link: Link) returns (ap: ApConfig, boot: BootOutcome)
      requires Valid()
      ensures ap == ApSetup(board, bootIdentity, bootMaxClients)
      ensures boot.AutoConnected? <==> ssidExists
      ensures boot.AutoConnected? ==> boot.outcome.NoMatch? || boot.outcome.Attempted?
      ensures boot.AutoConnected? ==> (boot.outcome.NoMatch? <==> forall s :: s in scan ==> s !in profiles)
      ensures boot.AutoConnected? && boot.outcome.Attempted? ==>
                boot.outcome.ssid in scan && boot.outcome.ssid in profiles
                && boot.outcome.password == profiles[boot.outcome.ssid]
      ensures boot.AutoConnected? && boot.outcome.Attempted? ==>
                boot.outcome.connects <= MaxAttempt + 1 && (boot.outcome.connected <==> UpWithinBudget(link))
    {
      ap := ApSetup(board, bootIdentity, bootMaxClients);
      if AutoWlan && ssidExists {
        var outcome := AutoConnect(scan, link);
        boot := AutoConnected(outcome);
      } else {
        boot := EnteredMenu;
      }
    }

    /**
     * `auto_connect`: intersect the scanned SSIDs with the saved ones and
     * try one element of the intersection, chosen arbitrarily.
     */
    method AutoConnect(scan: seq<string>, link: Link) returns (outcome: ConnectOutcome)
      requires Valid()
      ensures outcome.NoMatch? || outcome.Attempted?
      ensures outcome.NoMatch? <==> forall s :: s in scan ==> s !in profiles
      ensures outcome.Attempted? ==>
                outcome.ssid in scan && outcome.ssid in profiles && outcome.password == profiles[outcome.ssid]
      ensures outcome.Attempted? ==>
                outcome.connects <= MaxAttempt + 1 && (outcome.connected <==> UpWithinBudget(link))
    {
      var networks := IndexMenu(scan);
      IndexMenuValues(networks, scan);
      var known := networks.Values * profiles.Keys;
      if known != {} {
        var ssid :| ssid in known;
        var connected, attempt, connects, polls := WlanConnect(link);
        outcome := Attempted(ssid, profiles[ssid], connected, connects);
      } else {
        outcome := NoMatch;
        forall s | s in scan
          ensures s !in profiles
        {
          assert s in networks.Values;
          assert s !in known;
        }
      }
    }

    /**
     * `manually_connect`: number the saved SSIDs, read an index and connect
     * to the SSID at that index with its saved password. No scan is made.
     * `choice` is None when the typed text is not an integer.
     */
    method ManuallyConnect(choice: Option<int>, link: Link) returns (listing: seq<string>, outcome: ConnectOutcome)
      requires Valid()
      ensures IsListing(listing, profiles)
      ensures choice.None? <==> outcome.ValueErrorRaised?
      ensures outcome.InvalidChoice? <==> choice.Some? && !(1 <= choice.value <= |listing|)
      ensures outcome.Attempted? <==> choice.Some? && 1 <= choice.value <= |listing|
      ensures outcome.Attempted? ==>
                outcome.ssid == listing[choice.value - 1] && outcome.password == profiles[outcome.ssid]
                && outcome.connects <= MaxAttempt + 1 && (outcome.connected <==> UpWithinBudget(link))
    {
      listing := ListKeys(profiles);
      var networks := IndexMenu(listing);
      if choice.None? {
        outcome := ValueErrorRaised;
        return;
      }
      var picked := Select(networks, choice.value);
      SelectFromIndexMenu(networks, listing, choice.value);
      if picked.Some? {
        var connected, attempt, connects, polls := WlanConnect(link);
        outcome := Attempted(picked.value, profiles[picked.value], connected, connects);
      } else {
        outcome := InvalidChoice;
      }
    }

    /**
     * `add_a_network`: insert or overwrite one profile, write QUERY0 back
     * to record 0 and set SSID_EXISTS. An empty SSID is accepted.
     */
    method AddNetwork(ssid: string, password: string)
      requires Valid()
      modifies this
      ensures Valid()
      ensures profiles == old(profiles)[ssid := password]
      ensures ssid in profiles && profiles[ssid] == password
      ensures forall s :: s != ssid ==> (s in profiles <==> s in old(profiles))
      ensures forall s :: s != ssid && s in profiles ==> profiles[s] == old(profiles)[s]
      ensures store == old(store)[ProfilesKey := Profiles(profiles)]
      ensures ssidExists
    {
      profiles := profiles[ssid := password];
      store := store[ProfilesKey := Profiles(profiles)];
      ssidExists := true;
    }

    /**
     * `radar` with a selection: number the scanned SSIDs, read an index,
     * and add the SSID at that index with the typed password.
     * `choice` is None when the typed text is not an integer.
     */
    method Radar(scan: seq<string>, choice: Option<int>, password: string) returns (networks: map<int, string>)
      requires Valid()
      modifies this
      ensures Valid() && IsIndexMenu(networks, scan)
      ensures choice.Some? && 1 <= choice.value <= |scan| ==>
                && profiles == old(profiles)[scan[choice.value - 1] := password]
                && store == old(store)[ProfilesKey := Profiles(profiles)]
                && ssidExists
      ensures !(choice.Some? && 1 <= choice.value <= |scan|) ==>
                profiles == old(profiles) && store == old(store) && ssidExists == old(ssidExists)
    {
      networks := IndexMenu(scan);
      if choice.Some? {
        SelectFromIndexMenu(networks, scan, choice.value);
        var picked := Select(networks, choice.value);
        if picked.Some? {
          AddNetwork(picked.value, password);
        }
      }
    }

    /**
     * `delete_a_network`: number the saved SSIDs, read an index, remove the
     * SSID at that index and write QUERY0 back to record 0. SSID_EXISTS is
     * left as it is, even when the last profile goes.
     */
    method DeleteNetwork(choice: Option<int>) returns (listing: seq<string>, removed: Option<string>)
      requires Valid()
      modifies this
      ensures Valid()
      ensures IsListing(listing, old(profiles))
      ensures removed.Some? <==> choice.Some? && 1 <= choice.value <= |listing|
      ensures removed.Some? ==>
                && removed.value == listing[choice.value - 1]
                && profiles == old(profiles) - {removed.value}
                && store == old(store)[ProfilesKey := Profiles(profiles)]
      ensures removed.None? ==> profiles == old(profiles) && store == old(store)
      ensures ssidExists == old(ssidExists)
    {
      listing := ListKeys(profiles);
      var networks := IndexMenu(listing);
      removed := None;
      if choice.Some? {
        SelectFromIndexMenu(networks, listing, choice.value);
        removed := Select(networks, choice.value);
        if removed.Some? {
          RemoveProfile(removed.value);
        }
      }
    }

    /** `del QUERY0[ssid]`, then record 0 rewritten as the remaining map. */
    method RemoveProfile(ssid: string)
      requires Valid() && ssid in profiles
      modifies this
      ensures Valid()
      ensures profiles == old(profiles) - {ssid}
      ensures store == old(store)[ProfilesKey := Profiles(profiles)]
      ensures ssidExists == old(ssidExists)
    {
      profiles := profiles - {ssid};
      store := store[ProfilesKey := Profiles(profiles)];
    }

    /**
     * `access_point`: on esp8266 write the identity {ssid: password}; on
     * esp32 write {ssid: None} and the clamped client limit, or nothing
     * when the limit typed is not an integer; on other boards nothing.
     * QUERY1 and QUERY2 are not re-read, so the AP radio keeps its boot
     * setup until the next boot.
     */
    method AccessPoint(ssid: string, password: string, maxClients: Option<int>)
      requires Valid()
      modifies this
      ensures Valid()
      ensures profiles == old(profiles) && ssidExists == old(ssidExists)
      ensures board == Esp8266 ==>
                store == old(store)[IdentityKey := Identity(ApIdentity(ssid, Some(password)))]
      ensures board == Esp32 && maxClients.Some? ==>
                store == old(store)[IdentityKey := Identity(ApIdentity(ssid, None))]
                                   [SettingsKey := Settings(ClampMaxClients(maxClients.value))]
      ensures (board == Esp32 && maxClients.None?) || (board != Esp8266 && board != Esp32) ==>
                store == old(store)
    {
      if board == Esp8266 {
        store := store[IdentityKey := Identity(ApIdentity(ssid, Some(password)))];
      }
      if board == Esp32 {
        if maxClients.Some? {
          var m := ClampMaxClients(maxClients.value);
          store := store[IdentityKey := Identity(ApIdentity(ssid, None))];
          store := store[SettingsKey := Settings(m)];
        }
      }
    }
  }
}

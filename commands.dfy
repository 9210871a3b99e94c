/**
 * The command prompt of `Station.base`: which operation a typed command
 * starts, given whether any network profile is saved (SSID_EXISTS).
 */
module Commands {
  import opened Text

  datatype Action =
    | ConfigureAp       // "ap"
    | Radar             // "r"
    | AutoConnect       // "c", only with saved profiles
    | ManualConnect     // "mc", only with saved profiles
    | AddNetwork        // "a"
    | DeleteNetwork     // "d", only with saved profiles
    | NoProfilesNotice  // prints "No saved network/s."
    | Ignored           // falls through to `pass`

  /** The `if`/`elif` chain on `input().lower()`. */
  function Dispatch(input: string, ssidExists: bool): (a: Action)
    ensures a in {AutoConnect, ManualConnect, DeleteNetwork} ==> ssidExists
    ensures a == NoProfilesNotice ==> !ssidExists
  {
    var command := Lower(input);
    if command == "ap" then ConfigureAp
    else if command == "r" then Radar
    else if command == "c" && ssidExists then AutoConnect
    else if command == "mc" && ssidExists then ManualConnect
    else if command == "a" then AddNetwork
    else if command == "d" && ssidExists then DeleteNetwork
    else if (IsSubstring(command, "c") || IsSubstring(command, "mc") || IsSubstring(command, "d")) && !ssidExists
    then NoProfilesNotice
    else Ignored
  }

  /** Commands are case-insensitive. */
  lemma DispatchIgnoresCase(input: string, ssidExists: bool)
    ensures Dispatch(input, ssidExists) == Dispatch(Lower(input), ssidExists)
  {
    LowerIdempotent(input);
  }

  /** Each operation is started by exactly its command, the gated ones only with saved profiles. */
  lemma DispatchCommands(input: string, ssidExists: bool)
    ensures Dispatch(input, ssidExists) == ConfigureAp <==> Lower(input) == "ap"
    ensures Dispatch(input, ssidExists) == Radar <==> Lower(input) == "r"
    ensures Dispatch(input, ssidExists) == AddNetwork <==> Lower(input) == "a"
    ensures Dispatch(input, ssidExists) == AutoConnect <==> Lower(input) == "c" && ssidExists
    ensures Dispatch(input, ssidExists) == ManualConnect <==> Lower(input) == "mc" && ssidExists
    ensures Dispatch(input, ssidExists) == DeleteNetwork <==> Lower(input) == "d" && ssidExists
  {
  }

  /**
   * Without profiles, the notice is printed for every command that is a
   * substring of "c", "mc" or "d": the gated commands, and also "m" and
   * the empty command.
   */
  lemma {:induction false} DispatchNotice(input: string, ssidExists: bool)
    ensures Dispatch(input, ssidExists) == NoProfilesNotice
        <==> !ssidExists && Lower(input) in {"", "m", "c", "mc", "d"}
  {
    var command := Lower(input);
    SubstringsOfOne(command, 'c');
    SubstringsOfOne(command, 'd');
    SubstringsOfTwo(command, 'm', 'c');
    assert "c" == ['c'] && "d" == ['d'] && "m" == ['m'] && "mc" == ['m', 'c'];
  }
}

# esp-btree-db station: a verified model of its core

`station.py` runs a Wi-Fi station on an ESP8266 or ESP32 board. It keeps the
saved networks (SSID → password) in a btree file and mirrors them in the
in-memory dict `QUERY0`. It configures the board's own access point (AP) at
boot. It then joins a saved network that a scan finds, or hands over to a
command prompt. At the prompt the user can add or delete networks, connect
automatically or by index, and change the AP identity and client limit.

This project models that core in Dafny:

- `Records` (records.dfy): the three store records as abstract values, the
  first-run defaults, and the clamp on the client limit.
- `Text` (text.dfy): `str.lower()` and Python's substring test `a in b`.
  MicroPython's `str.lower()` changes ASCII letters only, and so does
  `Text.Lower`.
- `Menus` (menus.dfy): the numbered menus (`networks_dict`), index
  selection, and the enumeration of the dict's keys.
- `Radio` (radio.dfy): the `wlan_connect` retry loop against a sequence of
  `isconnected()` answers. It holds both the loop as written and the
  corrected loop (see Findings).
- `Commands` (commands.dfy): the command dispatch of `base`.
- `StationModel` (station.dfy): class `Station`. Its fields are the btree
  store, `QUERY0` and `SSID_EXISTS`. It also keeps records 1 and 2 as they
  were read at boot (`QUERY1`, `QUERY2`). Its methods are the operations.

Class invariant `Station.Valid()`: the store holds records 0, 1 and 2 with
their shapes, and record 0 always equals `QUERY0`.

Behaviour of the code worth knowing:

- No record of the last connected network is kept.
- An empty SSID is accepted by `add_a_network`.
- The client limit is clamped above at 10, with no lower clamp.
- `auto_connect` tries one arbitrary element of the intersection, not each
  candidate in turn.
- A record that `eval` cannot read raises at module start, and the program stops.

## Model

| member | source | states |
|---|---|---|
| Records.Defaults | station.py:36-38 | The first-run records are well formed: no profiles (so SSID_EXISTS starts false), identity `{'ESP_Station': 'MicroPython'}`, one client |
| Records.ClampMaxClients | station.py:194-195 | The persisted limit is at most 10, equal to the input when that is ≤ 10 (no lower clamp), and 10 otherwise |
| Text.SubstringIsSlice | station.py:364 | The substring test holds exactly when the first string occurs at some position of the second |
| Text.SubstringHasPosition | station.py:364 | A string that passes the substring test occurs at some position of the other |
| Text.PositionIsSubstring | station.py:364 | A string occurring at some position of the other passes the substring test |
| Text.SubstringsOfOne | station.py:364 | The substrings of a one-character command word are exactly "" and the word itself |
| Text.SubstringsOfTwo | station.py:364 | The substrings of a two-character command word are exactly "", each character, and the word itself |
| Text.LowerIdempotent | station.py:343 | Lower-casing an already lower-cased command changes nothing |
| Menus.IndexMenu | station.py:216-222 | `networks_dict` has exactly the keys 1..n, and key k holds the k-th item, in order |
| Menus.IndexMenuValues | station.py:244 | The values of the scan menu are exactly the scanned SSIDs |
| Menus.SelectFromIndexMenu | station.py:229-230 | An index is acted on if and only if 1 ≤ index ≤ n, and then it picks the item at that position |
| Menus.ListKeys | station.py:259 | Enumerating `QUERY0.keys()` lists every saved SSID exactly once and nothing else, in an unspecified order |
| Radio.WlanConnect | station.py:140-172 | Corrected loop: it always ends, with attempt ≤ 10 and at most 11 connect() calls. It ends connected exactly when one of the first 11 polls finds the link up, and the polls before that found it down. It gives up only when attempt = 10, and attempt is the stop round. It takes no store, so it writes none |
| Radio.StopRound | station.py:148-172 | The round at which the corrected loop stops: the first round up to 10 whose poll finds the link up, or 10 when none does |
| Radio.AsWrittenLoop | station.py:148-172 | Loop as written: every run keeps connects − attempt fixed and never lowers attempt. A connected end follows an "up" answer. Giving up happens only at attempt 10, after a "down" answer |
| Radio.AsWrittenRetries | station.py:157-172 | While the link answers "down", each round below attempt 10 costs two polls and one more connect() |
| Radio.AsWrittenGivesUpOnDeadLink | station.py:164-167 | A link that never comes up makes the loop as written give up at attempt 10, after 11 connect() calls and 22 polls |
| Radio.AsWrittenKeepsRetrying | station.py:164-171 | Once attempt is past 10, the loop as written never gives up while the link stays down |
| Radio.AsWrittenNeverGivesUp | station.py:164 | Finding: suppose the link is up for the extra poll at attempt 10 and down afterwards. Then the loop as written never gives up, for any length of outage |
| Radio.AsWrittenExceedsRetryBudget | station.py:169-171 | Finding: the same flicker lets the loop as written issue a 12th connect(), reaching attempt 11 |
| Radio.AsWrittenSteadyFrom | station.py:148-172 | From any round on, on a link that holds one state per round, the loop as written stops at the corrected loop's round, with the same end |
| Radio.AsWrittenAgreesOnSteadyLink | station.py:140-172 | On a link that holds one state per round, the loop as written ends like the corrected loop. It stops at the same round, connected exactly when that round finds the link up. It makes the same number of retries and connect() calls |
| Radio.AsWrittenSpinsFrom | station.py:150-171 | From any round on, a link down at each line-150 poll and up at each line-169 poll leaves the loop as written at attempt 0 with one connect() |
| Radio.AsWrittenSpinsWithoutRetry | station.py:169-171 | Finding: a link down at each line-150 poll and up at each line-169 poll keeps the loop as written at attempt 0. It neither connects, nor retries, nor gives up, for any number of rounds |
| Commands.Dispatch | station.py:343-369 | `c`, `mc` and `d` are dispatched only when SSID_EXISTS; the "no saved networks" notice only when it is false |
| Commands.DispatchIgnoresCase | station.py:343 | Commands are case-insensitive: dispatching a command and its lower-cased form agree |
| Commands.DispatchCommands | station.py:346-362 | `ap`, `r` and `a` start their operation exactly for that command, whatever the flag. `c`, `mc` and `d` start theirs exactly for that command when SSID_EXISTS |
| Commands.DispatchNotice | station.py:364-365 | The notice is printed exactly when there are no profiles and the command is one of "", "m", "c", "mc", "d": the substrings of "c", "mc" or "d" |
| StationModel.ApSetup | station.py:111-123 | esp8266 gets essid and password from record 1; esp32 gets essid and the client limit from record 2; any other board is not configured |
| StationModel.Station.constructor | station.py:91-102 | The board name is lower-cased, QUERY0..QUERY2 are the stored records, and SSID_EXISTS starts true exactly when record 0 is not the empty map |
| StationModel.Station.AutoMode | station.py:106-137 | The AP setup follows the board. Auto-connect runs if and only if SSID_EXISTS; otherwise the menu is entered. When it runs, it reports no match exactly when no scanned SSID is saved, otherwise it connects to a scanned, saved SSID with its saved password, with at most 11 connect() calls, connected exactly when a poll within the budget finds the link up |
| StationModel.Station.AutoConnect | station.py:243-253 | No connect is made exactly when no scanned SSID is saved. Otherwise one connect sequence goes to an SSID that is both scanned and saved, with its saved password |
| StationModel.Station.ManuallyConnect | station.py:257-271 | A non-integer index raises ValueError out of `manually_connect`. An index outside 1..n is rejected. Index k connects to the k-th listed SSID with its saved password, and no scan is made |
| StationModel.Station.AddNetwork | station.py:273-298 | QUERY0[ssid] = password, every other entry unchanged, record 0 rewritten as the new map, SSID_EXISTS true, whether or not the SSID was present |
| StationModel.Station.Radar | station.py:210-241 | The scan menu is numbered 1..n in order. A valid index adds that SSID with the typed password; any other input changes nothing |
| StationModel.Station.DeleteNetwork | station.py:300-323 | Index k in 1..n removes exactly the k-th listed SSID and rewrites record 0. Any other input changes nothing. SSID_EXISTS never changes |
| StationModel.Station.RemoveProfile | station.py:310-312 | `del QUERY0[ssid]` removes exactly that entry and record 0 is rewritten as the remaining map; SSID_EXISTS is unchanged |
| StationModel.Station.AccessPoint | station.py:174-207 | esp8266 writes `{ssid: password}` to record 1. esp32 writes `{ssid: None}` and `min(m_c, 10)`, or nothing for a non-integer limit. Other boards write nothing; QUERY0 and the flag are untouched |

## Findings

| source | as written | input that shows it | evidently intended | confidence | as-written member | corrected member |
|---|---|---|---|---|---|---|
| station.py:164 | The loop polls `isconnected()` again at line 164 and gives up only when `attempt == 10`. A poll at line 169 that sees the link down then raises `attempt` past 10, and the `==` test never fires again | `isconnected()` answers down 21 times, up once (the line-164 poll at attempt 10), then down: the loop never gives up and keeps re-issuing connect() | Stop after 10 retries (at most 11 connect() calls), as the comment at line 163 says | medium, not executed | Radio.AsWrittenNeverGivesUp | Radio.WlanConnect |
| station.py:169 | The retry test polls `isconnected()` again instead of reusing the answer of line 150. An "up" answer there skips the retry without leaving the loop | `isconnected()` answers down at every line-150 poll and up at every line-169 poll: the loop stays at attempt 0, never re-issues connect() and never gives up | Each round is either connected or counted as a retry | low, not executed | Radio.AsWrittenSpinsWithoutRetry | Radio.WlanConnect |

The rest of the model uses `Radio.WlanConnect`. It polls once per round, so
the link cannot change between the test at the top of a round and the retry
test. `Radio.AsWrittenAgreesOnSteadyLink` shows that the two loops end alike
whenever the link holds one state throughout each round.

## Left out

- `print`, `input`, `time.sleep`, the banner and the menu text are not
  modelled. Console input is a method parameter. A typed index or client
  limit is an `Option<int>`, where `None` stands for text that `int()`
  rejects.
- `machine.reset`, `os.uname`, `open`/`btree.open` and the first-run
  `OSError` fallback are not modelled. The board name and the stored records
  are constructor parameters. `Records.Defaults` gives the values a first run
  writes, but not the restart.
- `db.flush()` is not modelled separately: each write and its flush form one
  store update.
- The `network.WLAN` calls `active`, `config`, `scan` and `ifconfig` are not
  modelled. The scan result is a sequence of SSIDs. `isconnected()` is a
  `Radio.Link`: a sequence of answers, then a settled state. The AP setup is
  returned as a value.
- `eval` and `b"{}".format` serialisation are not modelled: records are
  abstract values. The constructor requires a store whose records have the
  expected shapes. The program is the store's only writer: the first-run
  defaults (lines 36-38) and its own writes (lines 181, 197-198, 280, 293,
  311) produce only these shapes, and every method that changes the store
  keeps `Station.Valid()`. A store written by anything else is not modelled.
- UTF-8 `decode` of scanned SSIDs is not modelled: SSIDs are strings.
- The recursive `self.base()` call after each operation is not modelled:
  each operation returns to idle.
- StationModel.Station.ManuallyConnect: its `ValueErrorRaised` outcome says
  only that `int()` raises ValueError out of `manually_connect`. Whether the
  program then stops depends on the re-entry path, which is not modelled.
  The prompt may have been reached through a `self.base()` call inside one
  of the `try` blocks at lines 192-207, 227-239 or 307-323. Then that
  `except ValueError` catches it, prints "Invalid input!" and the program
  goes on.
- StationModel.Station.AutoConnect: its bounds (at most 11 connect() calls,
  connected exactly when a poll within the budget finds the link up) hold of
  the corrected loop `Radio.WlanConnect` only. The loop as written can exceed
  them when the link changes within a round (see Findings).
- StationModel.Station.ManuallyConnect: its retry bounds likewise hold of the
  corrected loop `Radio.WlanConnect` only, not of the loop as written.
- StationModel.Station.AutoMode: its retry bounds (at most 11 connect()
  calls, connected exactly when a poll within the budget finds the link up)
  likewise hold of the corrected loop `Radio.WlanConnect` only. Through
  `auto_connect`, `wlan_connect` as written can make a 12th connect() or
  never end (see Findings).
- The success message of `add_a_network` (line 295) prints `ssid` rather than
  `ssid_`. It is output only.
- Menus.ListKeys: the order of `QUERY0.keys()` is left unspecified because
  MicroPython fixes no dict iteration order. Contracts name the k-th entry
  of the listing that was shown.

# GPD-4303S control panel: state decoding

This project models the device-state core of a desktop control panel for the
GW Instek GPD-4303S four-channel bench power supply. The panel keeps one
dictionary, `PSstate`, that holds what the instrument reports about itself.
Two operations fill that dictionary from the instrument's text replies:

- `ReadState` decodes the reply to `STATUS?`. It reads characters 0 to 7 at
  fixed positions and converts each one with Python's `int`. It writes six
  words: the control mode of channels 1 and 2 (`CV`/`CC`), the tracking mode,
  the beeper, the output switch and the serial baud rate.
- `IdentifyPS` decodes the reply to `*IDN?`. It splits the reply on commas and
  stores the manufacturer and the model. It stores the serial number without
  its first three characters and the firmware version cut to five characters.

The model follows the code as written, including its faults:

- The third test of the tracking chain and of the baud-rate chain is
  `(int(Status[k]), int(Status[k+1]) == (1,0))`. That is a two-element tuple,
  and Python treats every non-empty tuple as true. So `Track` is `Parallel`
  and `BaudRate` is `9600` for every digit pair the first two tests miss.
  `ParallelFallback`, `TrackRule` and `BaudRateRule` state this.
- An exception stops `ReadState` at the first character `int` cannot read.
  Keys written before that position stay written.
- `IdentifyPS` raises before it writes anything when the reply has fewer than
  four comma-separated fields.

Two further facts about the code shape the model:

- Any decimal digit is accepted at every position. Every digit other than 1
  reads as the "0" case of the channel, beep and output tests, and a digit
  pair that the first two tests of a pair chain miss takes the always-true
  third branch.
- The dictionary is patched key by key. Nothing clears it first, so a failed
  read leaves the keys it wrote before the failure, next to the old values
  of the rest.

Modules:

- `Outcomes`: `Option`, and the exceptions as `Fault`: `IndexError(k)` for an
  index past the end of a string or list, `ValueError(k)` for `int` on a
  non-digit. `Outcome` is `Done` or `Raised(fault)`.
- `StateKeys`: the ten dictionary keys as an enumeration, with `Text` giving
  each key's literal spelling.
- `CommaSplit`: Python's `str.split(",")` and `",".join`.
- `StatusDecode`: the meaning of a status reply, stated on its characters.
- `IdentityDecode`: the meaning of an identity reply, and Python's slices.
- `Gpd4303sGui`: the class `PowerSupply` with its `PSstate` field and the
  methods `ReadState`, `IdentifyPS` and `Startup`. It also holds the source's
  if/elif chains on the `int` values (`ModeWord`, `SwitchWord`, `TrackWord`,
  `BaudWord`) and the step lemmas that tie them to `StatusDecode`.

## Model

| member | source | states |
|---|---|---|
| `Gpd4303sGui.PowerSupply.constructor` | GPD_4303S_GUI.py:26-28 | The state dictionary starts empty. |
| `Gpd4303sGui.PowerSupply.Startup` | GPD_4303S_GUI.py:33-34 | Start-up reads the status, then the identity. A status exception stops start-up before the identity read and keeps the partial status writes. When both succeed, all ten keys are present. |
| `Gpd4303sGui.PowerSupply.ReadState` | GPD_4303S_GUI.py:37-78 | The dictionary afterwards is the old one merged with `StatusWrites(status)`. The call raises exactly the exception of the first unreadable position among 0-7. On success all six status keys are present. Every key outside the six keeps its old value. |
| `Gpd4303sGui.PowerSupply.IdentifyPS` | GPD_4303S_GUI.py:80-89 | With fewer than 3 fields it raises `IndexError(2)`, and with exactly 3 it raises `IndexError(3)`. In both cases the dictionary is unchanged. Otherwise the dictionary is the old one merged with the four identity entries, and no other key changes. |
| `Gpd4303sGui.ModeWordMeaning` | GPD_4303S_GUI.py:40-49 | On a digit, the `int(...) == 1` chain gives `CV` exactly for `'1'`, else `CC`. |
| `Gpd4303sGui.SwitchWordMeaning` | GPD_4303S_GUI.py:60-69 | On a digit, the beep/output chain gives `ON` exactly for `'1'`, else `OFF`. |
| `Gpd4303sGui.TrackWordMeaning` | GPD_4303S_GUI.py:52-57 | On two digits, the tracking chain always picks a word: the tuple-valued third test never falls through. |
| `Gpd4303sGui.BaudWordMeaning` | GPD_4303S_GUI.py:72-77 | On two digits, the baud-rate chain always picks a word, by the same always-true third test. |
| `StateKeys.TextInjective` | GPD_4303S_GUI.py:41-88 | Distinct keys are distinct dictionary strings, so keying by the enumeration loses nothing. |
| `StateKeys.StatusIdentityDisjoint` | GPD_4303S_GUI.py:41-88 | The status decode and the identity decode write disjoint key sets. |
| `CommaSplit.Split` | GPD_4303S_GUI.py:82 | A split always yields at least one field. |
| `CommaSplit.SplitCount` | GPD_4303S_GUI.py:82 | A split yields one more field than the reply has commas. |
| `CommaSplit.SplitFieldsCommaFree` | GPD_4303S_GUI.py:82 | No field of a split contains a comma. |
| `CommaSplit.JoinSplit` | GPD_4303S_GUI.py:82 | Joining the fields with commas gives back the reply. |
| `CommaSplit.SplitJoin` | GPD_4303S_GUI.py:82 | Splitting the join of comma-free fields gives back the fields. |
| `CommaSplit.SplitAppend` | GPD_4303S_GUI.py:82 | `split(a + "," + b)` is `split(a)` followed by `split(b)`. |
| `StatusDecode.IntAt` | GPD_4303S_GUI.py:40 | A value v from `int(s[k])` is below 10, and `s[k]` is the character that spells v. No value means k is past the end, or `s[k]` spells none of the digits 0-9. |
| `StatusDecode.FirstUnreadable` | GPD_4303S_GUI.py:40-77 | Gives the first position at or after `from` (below 8) where `int` fails, with every earlier position readable. Gives none exactly when all those positions read. |
| `StatusDecode.ReadCount` | GPD_4303S_GUI.py:40-77 | The number of characters read before decoding stops: all before it are digits, and the one at it (if below 8) is not readable. |
| `StatusDecode.CompletesIff` | GPD_4303S_GUI.py:38-77 | The status decode raises nothing exactly when the reply has at least 8 characters and the first 8 are digits. |
| `StatusDecode.StatusWrites` | GPD_4303S_GUI.py:37-77 | The decode writes exactly the keys whose characters were all read before it stopped. |
| `StatusDecode.WritesBeforeValues` | GPD_4303S_GUI.py:40-77 | Each written key holds the meaning of its own characters. |
| `StatusDecode.ChannelModeRule` | GPD_4303S_GUI.py:40-49 | On a complete decode, `C1CCCV` is `CV` exactly when character 0 is `'1'`, else `CC`. The same holds for `C2CCCV` and character 1. |
| `StatusDecode.TrackRule` | GPD_4303S_GUI.py:51-57 | Once characters 2-3 are read, `Track` is set. It is `Independent` exactly for "01", `Series` exactly for "11", and `Parallel` for every other digit pair. |
| `StatusDecode.SwitchRule` | GPD_4303S_GUI.py:59-69 | `Beep` is `ON` exactly when character 4 is `'1'`, and `Output` is `ON` exactly when character 5 is `'1'`. Otherwise each is `OFF`. |
| `StatusDecode.BaudRateRule` | GPD_4303S_GUI.py:71-77 | `BaudRate` is `115200` exactly for "00", `57600` exactly for "01", and `9600` for every other digit pair. |
| `StatusDecode.CompleteDecodeKeys` | GPD_4303S_GUI.py:37-77 | A complete decode writes exactly the six status keys. |
| `StatusDecode.FaultStopsDecode` | GPD_4303S_GUI.py:40-77 | A raising decode fails below position 8, after reading digits at every earlier position. It wrote exactly the keys before that position, and never `BaudRate`. |
| `StatusDecode.ShortReplyRaises` | GPD_4303S_GUI.py:38-77 | A reply shorter than 8 characters always raises. If all its characters are digits, it raises the index error at its length. |
| `StatusDecode.IgnoresTail` | GPD_4303S_GUI.py:38-77 | Two replies that agree on their first 8 characters decode to the same writes and the same outcome. |
| `StatusDecode.ParallelFallback` | GPD_4303S_GUI.py:56-57 | Tracking digits "00" and "10" decode as `Parallel`. "00" is named by none of the three tests as intended. |
| `StatusDecode.SampleReply` | GPD_4303S_GUI.py:37-77 | "01011000" decodes to CC, CV, Independent, beep ON, output OFF, 115200. |
| `IdentityDecode.DropFront` | GPD_4303S_GUI.py:83 | `s[3:]` is the suffix of `s` with `max(0, len - 3)` characters. |
| `IdentityDecode.TakeFront` | GPD_4303S_GUI.py:84 | `s[:5]` is the prefix of `s` with `min(5, len)` characters. |
| `IdentityDecode.IdentityWrites` | GPD_4303S_GUI.py:85-88 | The identity decode writes exactly the four identity keys. |
| `IdentityDecode.IdentityFields` | GPD_4303S_GUI.py:83-88 | `Mfr.` and `Model` are fields 0 and 1. `SN` is field 2 after its first three characters, and empty if the field is that short. `FWVer` is the first min(5, length) characters of field 3. |
| `IdentityDecode.TooFewFields` | GPD_4303S_GUI.py:82-84 | The identity decode lacks a field exactly when the reply has fewer than three commas. |
| `IdentityDecode.IgnoresTrailingFields` | GPD_4303S_GUI.py:82-88 | Fields after the fourth do not change the decoded identity. |
| `IdentityDecode.IdentityCommaFree` | GPD_4303S_GUI.py:82-88 | No decoded identity value contains a comma. |
| `IdentityDecode.IdentityRoundTrip` | GPD_4303S_GUI.py:80-88 | A reply built from comma-free manufacturer, model, 3-character prefix plus serial, and firmware decodes back to those values. The firmware comes back cut to five characters. |

## Left out

- Instrument I/O. The VISA resource manager, `open_resource`, the baud-rate
  setting of the link (lines 30-32) and the two `query` calls (lines 38 and
  81) are device I/O. The replies are parameters of `ReadState`,
  `IdentifyPS` and `Startup`.
- `UpdateState` (lines 91-103). It only copies dictionary values into Qt
  table cells, which is UI. Its lookups need the keys to be present, and the
  `ensures` of `ReadState` and `IdentifyPS` state that they are after a
  successful decode.
- `GUI_Shutdown`, `closeEvent` and the application bootstrap (lines 105-118)
  close VISA resources and the Qt window. They are I/O and event-loop
  behaviour.
- The program has no code for setpoints, output toggling, memory
  save/recall or measurement polling, so none is modelled.
- Gpd4303sGui.PowerSupply.constructor: the source's `__init__` also runs both
  reads. Dafny constructors have no out-parameter to report an exception, so
  those reads are the separate method `Startup`.
- Gpd4303sGui.PowerSupply.ReadState: only ASCII `'0'`-`'9'` count as digits.
  Python's `int` also accepts other Unicode decimal digits (Arabic-Indic,
  full-width and so on), where the model reports a `ValueError` instead.
- Gpd4303sGui.PowerSupply.IdentifyPS: `str(IDN)` is the identity on a
  string reply and is not modelled separately.

# Traffic-violation notifier: registration store and lookup workflow

A Dafny model of the core of a chat bot that lets users register
Vietnamese licence plates and reports traffic violations found by an
external lookup service. The whole program is one file, `app.py`; the
model covers its self-contained logic:

- **Plate text** (`plates.dfy`, module `Plates`): normalisation (upper-case,
  then delete every character that is not an ASCII letter or digit) and the
  plate pattern `^\d{2}[A-Z]{1,2}\d{5,6}$`, as a left-to-right scanner
  (`IsValidPlate`) proved equal to the pattern's language (`PlateShape`).
- **Registration store** (`registry.dfy`, module `Registry`): `DataManager.data`
  is a Python dict from plate to owner id. It is modelled as an
  insertion-ordered sequence of `(plate, owner)` entries with distinct
  plates, with the dict operations `k in data` / `data[k]`, `data[k] = v` (an existing key
  keeps its position, a new key is appended) and `del data[k]`. The class
  `DataManager` holds the dict and the saved file contents; the `register`,
  `list` and `remove` command handlers are its methods, and the reply the bot
  would send is their result.
- **Lookup classification** (`lookup.dfy`, module `Lookup`): `check_violation`
  turns the lookup service's decoded answer (or the exception raised while
  fetching it) into error text, "no violations" or a report with one field
  per violation record; the `check` command validates the plate first.
- **Weekly sweep** (`schedule.dfy`, module `Schedule`): the daily timer task
  that works only on Mondays, looks up every registered plate in store order
  and attempts a direct message for every report whose owner the chat
  client can resolve.

The clock, the lookup service and the chat client are parameters: the
weekday, one lookup outcome per plate, and the set of owner ids the chat
client can resolve. `wrappers.dfy` holds the `Option` type.

The model keeps these behaviours of the code, which a reader might not
expect:
- an empty `data` list yields an empty report, not "no violations";
- `remove` normalises its text but does not check it against the pattern;
- `register` checks the 4-plate limit before it normalises and validates;
- `register` silently takes a plate away from another owner.

## Model

| member | source | states |
|---|---|---|
| `Plates.ToUpper` | app.py:96 | the result is never a lower-case letter; letters and digits stay letters and digits; a lower-case letter becomes the upper-case letter at the same place in the alphabet |
| `Plates.Normalize` | app.py:96 | the result contains only `[A-Z0-9]` and is no longer than the input |
| `Plates.NormalizeConcat` | app.py:120 | normalisation works character by character: it distributes over concatenation |
| `Plates.NormalizeFixesNormal` | app.py:165 | a string of `[A-Z0-9]` is left unchanged |
| `Plates.NormalizeIgnoresCase` | app.py:165 | two texts that agree once upper-cased normalise to the same plate, so `remove` finds a plate registered in a different letter case |
| `Plates.NormalizeIdempotent` | app.py:96 | normalising twice equals normalising once |
| `Plates.NormalizeDeletesOnlyPunctuation` | app.py:96 | nothing is deleted iff every character is an ASCII letter or digit |
| `Plates.IsValidPlate` | app.py:97 | every accepted plate has length 8 to 10 |
| `Plates.PlateMatchesPattern` | app.py:121 | the scanner accepts exactly 2 digits, then 1 or 2 upper-case letters, then 5 or 6 digits |
| `Plates.ValidPlateIsNormal` | app.py:96-97 | an accepted plate is already normalised |
| `Registry.Get` | app.py:167-168 | a found owner comes from an entry for the plate; nothing is found only when no entry has the plate (see also `GetFindsEntry`, `GetAbsent`) |
| `Registry.Assign` | app.py:128 | the result holds the new entry and grows by at most one entry (see also `AssignExisting`, `AssignNew`, `AssignGet`) |
| `Registry.Delete` | app.py:169 | no remaining entry has the deleted plate and the store does not grow (see also `DeleteExisting`, `DeleteAbsent`, `DeleteGet`) |
| `Registry.OwnedBy` | app.py:141-142 | every listed plate is stored for the user, and the list is no longer than the store (see also `OwnedByMembers`, `OwnedByConcat`) |
| `Registry.GetFindsEntry` | app.py:167-168 | `k in data and data[k] == v` iff the store holds the entry `(k, v)` |
| `Registry.GetAbsent` | app.py:167 | `k in data` fails iff `k` is not a key |
| `Registry.AssignExisting` | app.py:128 | assigning to an existing key overwrites that entry in its position |
| `Registry.AssignNew` | app.py:128 | assigning to a new key appends the entry at the end |
| `Registry.AssignGet` | app.py:128 | after `data[k] = v` the key maps to `v` and every other key keeps its owner |
| `Registry.AssignDistinct` | app.py:128 | assignment keeps the keys distinct |
| `Registry.AssignCount` | app.py:110-128 | an assignment gives its owner at most one more plate and no one else any |
| `Registry.DeleteExisting` | app.py:169 | `del data[k]` removes exactly the entry at k's position, keeping the order of the rest |
| `Registry.DeleteAbsent` | app.py:169 | deleting an absent key changes nothing |
| `Registry.DeleteGet` | app.py:169 | after `del data[k]` the key is gone and every other key keeps its owner |
| `Registry.DeleteSubsequence` | app.py:169 | every remaining entry was in the store and is not the deleted key |
| `Registry.DeleteDistinct` | app.py:169 | deletion keeps the keys distinct |
| `Registry.DeleteCount` | app.py:169 | deletion never gives anyone more plates |
| `Registry.OwnedByMembers` | app.py:141-142 | a plate is listed for a user iff the store maps it to that user |
| `Registry.OwnedByConcat` | app.py:157-158 | the list keeps store iteration order |
| `Registry.NeverListsOthers` | app.py:141-142 | a plate owned by someone else is never in the caller's list |
| `Registry.RegisteredPlateListed` | app.py:128 | after registering, the plate is listed for the caller and for no other user |
| `Registry.RemovedPlateUnlisted` | app.py:169 | after removal, the plate is listed for nobody |
| `Registry.AssignKeepsLimit` | app.py:110-128 | an assignment by a user below `MAX_PLATES` keeps every user at most 4 plates |
| `Registry.AssignKeepsKeysValid` | app.py:120-128 | storing a valid plate keeps every stored plate valid |
| `Registry.DeleteKeepsInvariants` | app.py:165-169 | removal keeps both store invariants |
| `Registry.DataManager.constructor` | app.py:33-42 | the store starts as the saved file's object, or empty when there is none |
| `Registry.DataManager.Save` | app.py:44-47 | the saved file holds exactly the dict |
| `Registry.DataManager.Register` | app.py:110-129 | at 4 plates the caller gets the limit error, even for malformed text; below it a malformed plate gets the format error; on either error neither store nor file changes; below the limit with a valid normalised plate the reply is `Registered` with that plate, which is assigned to the caller and saved; the limit and key-validity invariants are preserved |
| `Registry.DataManager.ListPlates` | app.py:141-158 | the "none registered" reply iff the caller owns nothing; otherwise exactly the caller's plates, in store order |
| `Registry.DataManager.RemovePlate` | app.py:165-170 | the normalised plate is deleted and saved iff it is a key owned by the caller; otherwise store and file are unchanged; invariants are preserved |
| `Lookup.GetOr` | app.py:76-81 | `item.get(key, 'N/A')`: the value stored under the key, or "N/A" when the key is missing (`RenderItem` applies it to each of the five keys) |
| `Lookup.RenderItem` | app.py:73-84 | each of the five fields shows the item's value for its key, or "N/A" when the key is missing; red marker iff the status equals "Chưa xử phạt" |
| `Lookup.CheckViolation` | app.py:55-89 | error text iff an exception was raised or the answer has an `error` key; "no violations" iff no error and `data` is missing or not a list; otherwise a report with one field per item, in order |
| `Lookup.EmptyListIsEmptyReport` | app.py:64 | an empty `data` list gives an empty report |
| `Lookup.ErrorWins` | app.py:61-62 | an `error` key decides the answer whatever `data` holds |
| `Lookup.CheckCommand` | app.py:96-105 | refused iff the normalised text is not a valid plate; otherwise the normalised plate is looked up and its verdict relayed |
| `Schedule.DeliveryFor` | app.py:193-198 | a message is attempted iff the lookup gave a report and the owner is known; it goes to the owner and carries exactly that report (see also `DeliveriesExact`) |
| `Schedule.Deliveries` | app.py:191-198 | every message of the sweep goes to a known owner and carries a report (see also `DeliveriesExact`) |
| `Schedule.DeliveriesExact` | app.py:193-198 | a message is attempted exactly for plates whose lookup gave a report and whose owner is known, carrying that report |
| `Schedule.DeliveriesConcat` | app.py:191 | the sweep handles the plates one after another, independently |
| `Schedule.NoDeliveryAfterFailure` | app.py:88-89 | a lookup that raised is caught inside check_violation and turned into text, which is not a report, so it delivers nothing |
| `Schedule.FailedLookupSkipped` | app.py:191-203 | a failed lookup is skipped and the later plates are handled as if it were not there |
| `Schedule.CheckViolations` | app.py:185-203 | off Monday: no lookups, no messages, no pauses; on Monday: one lookup per store entry in store order, one pause per plate, and exactly the deliveries `Deliveries` describes |

## Left out

- The chat platform: slash-command routing, deferred replies, embeds, colours, ephemeral flags, `get_user` and `user.send`. Replies are result values; a delivery is an attempt recorded in the sweep's result, whether or not the platform refuses it.
- The HTTP request to the lookup service and JSON decoding. Their outcome is a parameter, either a decoded object or the exception's text. Non-object answers, non-string field values, and `data` list items that are not objects (the code answers error text for them, because `item.get` raises) are not modelled.
- The JSON file format and its reading and writing. The file is the field `file`; every mutation ends with `Save`. A corrupt file is not modelled.
- The timer (`tasks.loop(hours=24)`), `datetime.now()` and `asyncio.sleep(10)`: the weekday is a parameter, and each pause is counted.
- Concurrency between command handlers and the sweep.
- The exact reply texts of the commands and of "no violations", beyond the error prefixes.
- Plates.Normalize: upper-casing follows ASCII only. Non-ASCII characters whose Python upper case contains ASCII letters (such as 'ı', 'ß', 'ﬁ') are deleted here, where the code keeps those letters.
- Schedule.CheckViolations: requires one lookup outcome per registered plate. The source does not demand this of its callers; it is how the model injects the service's answers.
- Registry.DataManager.constructor: requires the loaded entries to have distinct plates, as a JSON object's keys are.

# Spin the Wheel: a verified model of the room client

Spin the Wheel is a browser game. Players meet in a room named by a
six-character code, each player suggests up to two games, and one player
spins a wheel whose slices are the suggested games. Every client in the room
animates the same spin and shows the same winner. All coordination goes
through a realtime key/value store. Each browser runs one `SpinTheWheel`
object that:

- reacts to the store's snapshots of the room's `games`, `presence`,
  `spinData` and `result` subtrees;
- writes to the store when its player creates or joins a room, adds a game,
  or spins.

This project models that object's room and spin logic in Dafny, and proves
what the logic promises:

- **Room codes.** A generated code has six symbols from the 32-symbol
  alphabet, each drawn uniformly. A typed code is trimmed and upper-cased,
  then refused before the store is consulted unless it is 6 characters long.
  A generated code typed back in lower case with white space around it
  normalises to itself.
- **Adding a game.** The four guards run in order: blank, quota, length,
  case-insensitive duplicate. The per-device counter moves by exactly one,
  only after a successful write, and is saved under
  `spinTheWheel_suggestions_<room>`. What is saved is what loads back, NaN
  included. A third attempt is refused on quota.
- **The choice list.** The `games` listener sorts the snapshot by push key.
  Every entry appears exactly once. Two clients holding the same snapshot
  build the same list, whatever order the children arrive in. In the
  code-point key order (`KeyLess`) the model uses, a newest entry goes to
  the end of the list; `localeCompare` need not put it last.
- **Presence.** The count shown is the number of participants whose entry is
  exactly `true`, whatever the enumeration order.
- **Spins.** Both the spin button and `spinWheel` depend on "at least two
  games and not spinning". The winner index is in range and uniform. The
  target angle centres the winner's slice, but the number of turns as
  written is not whole, so the wheel can stop on another slice (see
  Findings). The easing goes monotonically
  from 0 to 1 and is never behind linear. Completion snaps to
  `target % 360` without a visible jump. A replayed broadcast cannot disturb
  a spin already in flight. Two clients that join by the same code and
  animate the same broadcast come to rest at the same angle and write
  results naming the same game, each stamped with its own client's time.

Modules, one file each:

| file | module | what |
|---|---|---|
| `js_text.dfy` | `JsText` | the JavaScript string operations used (`trim`, ASCII `toUpperCase`/`toLowerCase`, `.length` in UTF-16 code units, key order) |
| `snapshot.dfy` | `Snapshot` | snapshot values and entry lists |
| `draw.dfy` | `Draw` | `Math.floor(Math.random() * n)` |
| `room_directory.dfy` | `RoomDirectory` | room codes and the join decision |
| `quota.dfy` | `Quota` | the counter as a JavaScript number (with NaN), `parseInt`/`toString`, `localStorage` |
| `choice_list.dfy` | `ChoiceList` | the `games` listener's sort and the duplicate guard |
| `presence.dfy` | `Presence` | the player count |
| `spin.dfy` | `Spin` | angles, easing, and the `spinData`/`result` filters |
| `spin_the_wheel.dfy` | `App` | the `SpinTheWheel` class, with a method per handler, plus client scenarios |

Values the program takes from its environment are method parameters:

- the time (`Date.now()`) and the animation clock (`performance.now()`);
- each `Math.random()` draw;
- whether a store write succeeds, and whether a read fails;
- the set of room codes the store holds;
- the snapshots the listeners receive.

A store write that succeeds is returned as the record written.

## Model

| member | source | states |
|---|---|---|
| JsText.Trim | app.js:159 | `trim` returns the slice of the input that starts after the leading white space, and neither starts nor ends with white space |
| JsText.TrimDropsWhitespace | app.js:326 | everything `trim` cuts off, before and after the kept slice, is ECMAScript white space |
| JsText.TrimStartDropsWhitespace | app.js:159 | what the leading-white-space pass removes is white space |
| JsText.TrimEndDropsWhitespace | app.js:159 | what the trailing-white-space pass removes is white space |
| JsText.TrimEmptyIff | app.js:326-330 | the trimmed name is empty exactly when the input is all white space, so the silent blank guard fires exactly then |
| JsText.TrimIdempotent | app.js:326 | trimming a trimmed name changes nothing |
| JsText.TrimOfTrimmed | app.js:326 | a string without white space at either end is its own trim |
| JsText.TrimPadded | app.js:159 | white space typed around a word is exactly what `trim` removes |
| JsText.ToUpper | app.js:159 | `toUpperCase` keeps the length, leaves no lower-case letter, and keeps every character the same up to case (ASCII letters only) |
| JsText.ToLower | app.js:343 | `toLowerCase` keeps the length, leaves no upper-case letter, and keeps every character the same up to case (ASCII letters only) |
| JsText.CaseMappingKeepsText | app.js:343 | upper- or lower-casing a text keeps it equal to the original ignoring case, and upper-casing forgets which case the input was typed in |
| JsText.Utf16Length | app.js:337 | `.length` counts UTF-16 code units: between one and two per character, and exactly one per character in the basic plane |
| JsText.KeyLessIrreflexive | app.js:261 | the key order used by the sort is irreflexive |
| JsText.KeyLessTransitive | app.js:261 | the key order is transitive |
| JsText.KeyLessTotal | app.js:261 | two different keys are ordered one way or the other |
| JsText.KeyLessAsymmetric | app.js:261 | the key order is asymmetric |
| Draw.Pick | app.js:526 | `Math.floor(Math.random() * n)` is an index below `n` |
| Draw.PickUniform | app.js:526 | index `k` is picked exactly by the draws in `[k/n, (k+1)/n)` |
| RoomDirectory.AlphabetShape | app.js:123 | the alphabet has 32 distinct symbols, none of them I, O, 0 or 1 |
| RoomDirectory.SymbolFor | app.js:126 | each drawn symbol is a code symbol |
| RoomDirectory.GenerateRoomCode | app.js:122-129 | the loop builds a code of exactly 6 symbols, the i-th picked by the i-th draw |
| RoomDirectory.SymbolForUniform | app.js:126 | each alphabet symbol is drawn with probability 1/32 |
| RoomDirectory.JoinDecision | app.js:157-182 | a malformed normalised code (empty, or length other than 6) is refused whatever the store holds; otherwise the outcome is "not connected" exactly without a database, "read failed" exactly when the read fails, "room not found" exactly when the code is not in the store, and the room is entered exactly when all three checks pass |
| RoomDirectory.GeneratedCodeIsJoinable | app.js:122-129 | a generated code passes the join check and normalises back to itself, even typed in lower case with surrounding white space |
| Quota.Increment | app.js:356 | `suggestionsUsed++` adds one to a number and leaves NaN as NaN: a counter at quota stays at quota, one below quota never passes it, and a NaN counter is never at quota |
| Quota.NumberToString | app.js:234 | `toString` never gives the empty text nor one starting with white space, and starts with `-` exactly for a negative number |
| Quota.ParseInt | app.js:228 | `parseInt(s, 10)` is NaN for blank text and for text whose first non-blank character is neither a sign nor a digit; a negative result only comes from text whose first non-blank character is `-` |
| Quota.LoadSuggestionCount | app.js:226-229 | only the room's own entry is read: a missing entry gives 0, and a non-empty stored text gives `parseInt` of that text |
| Quota.ParseIntOfToString | app.js:228 | `parseInt(x.toString(), 10)` gives back `x` for every value the counter can hold, NaN included |
| Quota.ParseIntOfNonNumeric | app.js:228 | text that starts with neither white space, a sign nor a digit parses as NaN |
| Quota.DefaultCountIsZero | app.js:228 | the fallback text `'0'` parses as 0 |
| Quota.SaveSuggestionCount | app.js:232-235 | saving writes exactly the room's key and keeps every other stored entry |
| Quota.SuggestionsKeyInjective | app.js:227 | different rooms have different storage keys |
| Quota.LoadAfterSave | app.js:226-235 | a room's counter loads back as it was saved, and saving one room's counter leaves every other room's counter as it was |
| Quota.FreshRoomStartsAtZero | app.js:228 | a room with no stored entry, or an empty one, starts at 0, the value of `parseInt('0', 10)` |
| ChoiceList.Insert | app.js:261 | inserting into a key-sorted list gives a sorted list holding exactly one more entry |
| ChoiceList.SortByKey | app.js:260-261 | the sort gives a key-sorted permutation of the snapshot's entries |
| ChoiceList.GamesFromSnapshot | app.js:257-266 | the list is sorted ascending by key, has one element per child, holds every child, and holds nothing else |
| ChoiceList.SortedUnique | app.js:260-261 | two key-sorted lists with the same entries are equal |
| ChoiceList.SnapshotConverges | app.js:257-266 | clients holding the same snapshot build the same list, whatever the order the children arrive in |
| ChoiceList.NewestEntryGoesLast | app.js:257-266 | an entry whose push key exceeds every present key is appended, and the earlier list is left as it was |
| Presence.LiveCount | app.js:221 | the count is at most the number of children, and is 0 exactly when no child is `true` |
| Presence.LiveCountIsLiveParticipants | app.js:219-221 | the count shown is the number of participants whose entry is exactly `true` |
| Presence.PresenceOrderIrrelevant | app.js:219-221 | the count does not depend on the enumeration order of the children |
| Presence.LiveCountBounds | app.js:219-221 | the count is at most the number of entries, and equals it exactly when every entry is `true` |
| Spin.SpinEnabled | app.js:387-388 | the button is enabled only when no spin runs and there are at least two games, so a slice can always be picked |
| Spin.SpinsAsWritten | app.js:525 | as written, a draw in [0, 1) gives between 5 and 10 turns, not necessarily whole |
| Spin.TargetRotationAsWritten | app.js:529 | as written, the target rotation for 5 to 10 turns lies strictly between 1800 and 3960 degrees |
| Spin.AsWrittenAgreesOnWholeTurns | app.js:525-529 | when the draw gives a whole number of turns, the rotation as written is the corrected one and the wheel rests on the winner's slice |
| Spin.Rem360 | app.js:580 | `x % 360` lies in [0, 360) for non-negative `x` and in (-360, 0] for negative `x` |
| Spin.TargetAngle | app.js:527-528 | the slice-centring angle lies strictly between 0 and 360 |
| Spin.WholeTurns | app.js:525 | the corrected spin count is a whole number of turns from 5 to 9 |
| Spin.TargetRotation | app.js:525-529 | the corrected target rotation lies strictly between 1800 and 3600 degrees |
| Spin.CentreUnderPointer | app.js:427-437 | with whole turns plus the target angle, the centre of slice `w` is under the pointer |
| Spin.PointerStopsOnWinner | app.js:525-529 | with whole turns, the wheel stops (also after the snap to `target % 360`) with the winner's slice under the pointer |
| Spin.WheelStopsOffWinnerAsWritten | app.js:525-529 | as written, two games, winner 0 and a draw of 0.5 leave the wheel at 90 degrees with slice 1 under the pointer |
| Spin.Progress | app.js:562-563 | progress is at most 1, non-negative for non-negative elapsed time, and equals 1 exactly when 6000 ms have elapsed |
| Spin.Eased | app.js:566 | on progress in [0, 1] the eased value is never behind linear progress and never past 1 |
| Spin.TotalRotation | app.js:555 | from a non-negative start, the rotation still to go is less than one turn short of the target and never beyond it |
| Spin.FrameRotation | app.js:568 | a frame shows the start rotation at progress 0 and the start plus the total at progress 1, and in between stays between the two for a forward spin |
| Spin.EasedShape | app.js:566 | ease-out cubic maps 0 to 0 and 1 to 1, stays in [0, 1], never decreases, and is never behind linear progress |
| Spin.SnapIsInvisible | app.js:555-580 | the last frame shows the target up to whole turns, so snapping to `target % 360` does not move the wheel as seen, from any start rotation |
| Spin.ShouldReplay | app.js:275-277 | a client never replays its own spin, never replays while it is spinning, and never replays an announcement 30 s old or older |
| Spin.StaleStaysStale | app.js:275-279 | a `spinData` record refused for age is refused at every later time |
| Spin.ResultToShow | app.js:284-294 | a result 5 s old or older, or one arriving while a spin runs after the delay, is never shown; what is shown is the recorded game; every fresher result is shown when no spin runs |
| Spin.StaleResultStaysHidden | app.js:286 | a result too old to show stays hidden at every later time |
| App.CheckAdd | app.js:326-346 | each refusal happens exactly when the earlier guards pass and its own fails, in the order blank, quota, length, duplicate; an accepted name is the trimmed input |
| App.AcceptedNameIsNew | app.js:326-346 | an accepted name is non-blank, already trimmed, at most 30 code units, differs from every listed name ignoring case, and comes with quota left, so a counter within 2 stays within 2 |
| App.AcceptedWhenGuardsPass | app.js:326-346 | a non-blank, short enough, unlisted name is accepted while quota is left |
| App.ThirdAttemptRefused | app.js:328-335 | after two counted suggestions every non-blank name is refused on quota, whatever its length and whether it is listed |
| App.AddedNameBecomesDuplicate | app.js:343-346 | once the listener delivers a snapshot holding a game, a name equal to it ignoring case is no longer accepted |
| App.OneGameBlocksOnlyItsName | app.js:343-346 | a list of one game refuses as duplicate only a name equal to that game's ignoring case |
| App.SpinTheWheel.constructor | app.js:4-18 | no room, no games, not spinning, rotation 0, counter 0 |
| App.SpinTheWheel.EnterRoom | app.js:184-230 | the room becomes current, its store and presence paths are set, and its counter is loaded |
| App.SpinTheWheel.CreateRoom | app.js:131-155 | without a database nothing happens; a failed write changes nothing; otherwise a fresh 6-symbol code over the alphabet is entered and the room record holds the time and the creator |
| App.SpinTheWheel.JoinRoom | app.js:157-182 | the outcome is `JoinDecision`; only a successful join changes state, entering the normalised code, which is in the store |
| App.SpinTheWheel.LeaveRoom | app.js:297-321 | room, references, list and rotation are reset; nothing else changes |
| App.SpinTheWheel.AddGame | app.js:324-366 | a refused name changes nothing; a game is added exactly when the guards pass and the write succeeds; an accepted name whose write fails reports the write failure; the entry holds the trimmed name, the author and the time; only then the counter grows by one and is saved for the room; the list is never changed here; the counter never passes 2 |
| App.SpinTheWheel.OnGamesSnapshot | app.js:257-270 | the list becomes the key-sorted snapshot, and only the list changes |
| App.SpinTheWheel.ExecuteSpinAnimation | app.js:548-557 | ignored while spinning; otherwise the spin starts from the current rotation with `total = target - (start % 360)` |
| App.SpinTheWheel.SpinButtonEnabled | app.js:385-388 | the spin button is enabled only with at least two games and no spin running; `SpinWheel` broadcasts exactly when it is enabled and the write succeeds |
| App.SpinTheWheel.SpinWheel | app.js:521-546 | a spin is broadcast exactly when the spin button is enabled and the write succeeds, otherwise nothing changes; the broadcast carries an in-range winner, the target rotation `(5 + 5r) * 360 + targetAngle` as written, the author and the time, and the local animation starts towards that target |
| App.SpinTheWheel.OnSpinData | app.js:273-281 | a broadcast is replayed exactly when it is younger than 30 s, this client is idle and someone else started it; while spinning nothing changes |
| App.SpinTheWheel.AnimationFrame | app.js:561-592 | before completion the eased rotation is drawn; at completion spinning stops, the rotation snaps to `target % 360`, and a result naming `games[winnerIndex]` is written exactly when that game exists |
| App.NewClientInFreshRoom | app.js:131-155 | a new client that creates a room is in it, idle, with an empty list and a counter of 0 |
| App.ThreeSuggestions | app.js:324-357 | on one device, two acceptable suggestions with different names are written, with the listener delivering the first in between, and a third is refused on quota |
| App.DeliverThenAdd | app.js:324-357 | after the listener delivers the first suggestion, a second with a different name is written and the counter reaches 2 |
| App.SpinToResult | app.js:521-592 | a spin in a room with two or more games broadcasts the rotation as written, rests at that rotation modulo 360, and writes a result naming the announced game, stamped with the completion time; the winner's slice is under the pointer when the draw gives whole turns |
| App.FinishSpin | app.js:576-591 | the frame 6 s after the start ends the spin at `target % 360` and writes the winner's result |
| App.StartSharedSpin | app.js:273-281 | when one client spins and another receives the broadcast at any time within 30 s and replays it, both animate towards the same target and winner |
| App.FinishBoth | app.js:576-591 | two clients finishing the same spin over the same list, at their own times, rest at the same angle and write results naming the same game, each stamped with its own finishing time |
| App.JoinWithGames | app.js:157-182 | a client joining by a valid code of an existing room is in it, idle, and holds the key-sorted snapshot |
| App.TwoClientsAgree | app.js:257-281 | two clients joined by the same code, one spinning and one replaying a broadcast received within 30 s, rest at the same angle and write results naming the same game, each stamped with its own finishing time |

## Left out

- All store I/O is left out: `ref`, `once`, `on`, `off`, `set`, `push` and `onDisconnect`. So are the push-key generator and the server-side disconnect clean-up. Write success, read failure, the set of existing rooms and snapshot contents are parameters.
- `firebase-config.js` is not part of this model. It holds only configuration and commented rules, and no logic.
- Canvas drawing, colours, text truncation, audio, and the DOM wiring are left out. The DOM wiring covers `bindEvents`, `updateGamesList`, button labels, `showResult`, `closeModal`, `copyInviteLink` and `showError`. All of it is presentation.
- `updateSuggestionsDisplay` is left out. It only sets input and button states from the counter. The counter itself is modelled.
- The URL and history handling in `enterRoom`, `leaveRoom` and `checkUrlForRoom` is left out. So are `getOrCreateUserId` (the user id is a constructor parameter) and the `visibilitychange`/`beforeunload` presence writes. These are plain store writes.
- The frame loop is left out. `requestAnimationFrame`, the random tick sound and the 100 ms delay before a result is shown are not modelled. `AnimationFrame` is one call of the `animate` closure. Whether a spin runs after the delay is a parameter of `ResultToShow`.
- JavaScript doubles are modelled as exact reals, and the counter as an unbounded integer or NaN. Rounding and `parseInt` precision beyond 2^53 are not modelled. `%` on numbers is written out as `Rem360`.
- `localeCompare` is modelled as code-point lexicographic order (`KeyLess`). The real comparison is locale-aware and may order letter case and punctuation differently.
  - The convergence results (`SortedUnique`, `SnapshotConverges`) use only that `KeyLess` is a strict total order, so they carry over to any such order, provided every client uses the same one.
  - They assume a single collation for all clients. `localeCompare` follows each browser's locale, and locales disagree (Danish sorts "aa" after "z"). Clients in different locales can then build differently ordered lists, and the same `winnerIndex` names different games on them.
  - `NewestEntryGoesLast` also assumes that the newest push key is the greatest in that order.
- `toUpperCase` and `toLowerCase` are modelled for ASCII letters only. Other characters map to themselves. The real mappings can change a string's length ('ß' upper-cases to "SS"), so `JoinDecision` can refuse or accept non-ASCII input differently from app.js:159-161: "ßABCD" is refused as malformed in the model, while the source upper-cases it to "SSABCD", which passes the length check.
- The pointer is taken to sit at the top of the wheel, where slice 0 starts at rotation 0 (slices are drawn from -90 degrees). The page markup that places the pointer is not part of this model.
- `spinWheel`'s `await` on the broadcast is treated as atomic. A snapshot or a second spin arriving during the write is not modelled.
- App.SpinTheWheel.AddGame: the `await` on the write is treated as atomic. A second submit during the write passes the quota guard before either count is made, so the source can reach a counter of 3; the model does not capture this.
- App.SpinTheWheel.CreateRoom: the `await` on the room write is treated as atomic. A second click or a snapshot during the write is not modelled.
- App.SpinTheWheel.JoinRoom: the `await` on the room read is treated as atomic. A second join or a change to the room during the read is not modelled.
- App.SpinTheWheel.AnimationFrame: the result write also requires a room reference. `leaveRoom` calls `off()` on the room reference itself (app.js:302), which leaves the listeners on its `games`, `spinData` and `result` children (app.js:257, 273, 284) attached. So after leaving, a change to the old room's games can refill the list while the room reference is null. A spin still running then completes with a defined winner, and `this.roomRef.child('result')` (app.js:587) throws after the snap, before any write. The model's room-reference condition gives the same outcome: the rotation snaps, spinning stops, and nothing is written. The thrown error itself is not modelled.
- The listeners that stay attached after `leaveRoom` are not modelled as a leak: `OnGamesSnapshot` may be called on a client that has left, and it then refills the list as the source does.
- App.SpinTheWheel.CreateRoom: the contract states the code's length and alphabet. That the code also passes the join check is stated by `RoomDirectory.GeneratedCodeIsJoinable`, not by this contract.
- App.SpinTheWheel.SpinWheel: the contract states the target rotation as written. It does not promise that the winner's slice ends under the pointer, because as written it need not (see Findings). `Spin.AsWrittenAgreesOnWholeTurns` states when it does.
- App.SpinToResult: promises the winner's slice under the pointer only for draws that give whole turns, for the same reason.
- Quota.LoadSuggestionCount: a missing or empty entry is read as 0 directly. That 0 is what `parseInt('0', 10)` gives is `Quota.DefaultCountIsZero`.

## Findings

| source | as written | input that shows it | evidently intended | confidence | as-written member | corrected member |
|---|---|---|---|---|---|---|
| app.js:525-529 | `spins = 5 + Math.random() * 5` is fractional, so `targetRotation % 360` is not the slice-centring angle and the wheel stops away from the announced winner | two games, winner 0, spins draw 0.5: target 2970 degrees, rest at 90 degrees, slice 1 under the pointer while slice 0 is announced | "5-10 full rotations": a whole number of turns, `Math.floor(5 + Math.random() * 5)`, so the wheel rests on the centre of the winner's slice | not executed | Spin.WheelStopsOffWinnerAsWritten | Spin.PointerStopsOnWinner |

The class follows the code as written (`Spin.TargetRotationAsWritten`). The corrected rotation is `Spin.TargetRotation`, with its property proved in `Spin.PointerStopsOnWinner`. `Spin.AsWrittenAgreesOnWholeTurns` shows the two agree when the draw gives whole turns.

# Snooker score counter: the score ledger, verified

The counter keeps a score for each of two players, `a` and `b`, and an undo stack.
Every click of a score or foul button pushes a history entry: the player, the points,
and a copy of both scores taken before the change. Then the points go to that player,
and scores may go negative. Undo pops the top entry and restores its copy of the
scores as a whole. Reset zeroes the scores, empties the stack, blanks both player
names and puts the settings back to 15 reds with respotting off. Every change saves
the scores, the history, the names and the settings to the browser's local storage
under the key `snookerScoreData`. A new counter loads that record. Missing fields
fall back to defaults.

The project has three modules:

- `Ledger` (ledger.dfy): the state as values. `AddScore`, `Undo` and `Reset` are the
  state changes as functions. The lemmas state the laws of undo by snapshot:
  undo inverts addScore, undo on an empty stack is a no-op, repeated undo unwinds to
  the earliest snapshot, and reset is idempotent. They also state the accounting
  invariant: in a consistent history, each score equals the earliest snapshot's score
  plus the points recorded for that player.
- `Persistence` (persistence.dfy): the stored record, `Save` and `Load`, and the
  round-trip lemmas. One lemma gives the exact condition under which loading a saved
  state gives it back.
- `ScoreCounter` (counter.dfy): `SnookerScoreCounter` as a class whose methods
  update its fields in place and write to a `LocalStorage` object. Each method's
  `ensures` ties the new state to the `Ledger`/`Persistence` function of the old
  state, and says exactly what the storage holds afterwards. `Reload` constructs a
  second counter over the same storage and proves that it shows the saved state.

## Model

| member | source | states |
|---|---|---|
| `Ledger.Credit` | script.js:87-88 | the player's score rises by exactly the points, with no lower bound; the other player's score is unchanged |
| `Ledger.AddScore` | script.js:79-88 | the history grows by exactly one entry, and the old history is its prefix; the new top entry records the player, the points and the scores from before the call; only that player's score moves, by the points; names and settings are unchanged |
| `Ledger.Undo` | script.js:139-153 | with an empty history the state is unchanged; otherwise the history shortened by one, plus the popped entry, is the old history, and the scores are that entry's snapshot; names and settings are unchanged |
| `Ledger.Reset` | script.js:177-190 | whatever the previous state, the result is scores 0/0, an empty history, empty names, reds count "15" and respot off |
| `Ledger.Play` | script.js:79-88 | a sequence of button clicks adds one history entry per click, in click order, each recording that click's player and points; the earlier history stays as a prefix; each player's score moves by the sum of the points of that player's clicks, counted independently over the clicks; names and settings are unchanged |
| `Ledger.CreditTouchesOneScore` | script.js:87-88 | a score pair is the credited one if and only if the player's score rose by the points and the other's is unchanged, so addScore touches exactly one key |
| `Ledger.UndoOnEmptyIsNoOp` | script.js:139-147 | undo on an empty history changes neither scores nor history nor anything else |
| `Ledger.UndoAfterAdd` | script.js:149-153 | an undo right after addScore restores both the scores and the history to what they were before the addScore |
| `Ledger.TwoAddsOneUndo` | script.js:150-153 | adding d1 and then d2 to one player, then undoing once, gives the state after only the first add: that player's score is the old score plus d1 |
| `Ledger.ResetIdempotent` | script.js:177-190 | resetting twice gives the same state as resetting once |
| `Ledger.UndoTimesPops` | script.js:149-153 | k undos, with k at most the history length, remove exactly the top k entries and restore the snapshot of the k-th entry from the top |
| `Ledger.UndoUnwindsToEarliest` | script.js:139-153 | undoing at least as many times as there are entries ends with an empty history and the earliest entry's snapshot as the scores; further undos change nothing |
| `Ledger.UndoUnwindsPlay` | script.js:149-153 | any n clicks followed by n undos give back exactly the state before the clicks |
| `Ledger.UndoEverythingFromStart` | script.js:4-8 | from the initial state (after a reset, or a new counter over empty storage), undoing every click returns both scores to zero and the whole state to its initial value |
| `Ledger.AddKeepsConsistent` | script.js:81-88 | addScore preserves the invariant that crediting each entry's points to its snapshot gives the next snapshot, and the last entry gives the current scores |
| `Ledger.UndoKeepsConsistent` | script.js:150-153 | undo preserves that invariant |
| `Ledger.PlayKeepsConsistent` | script.js:81-88 | every sequence of clicks from a consistent state leaves a consistent state |
| `Ledger.ConsistentScoresAreTallies` | script.js:81-88 | in a consistent state, each player's score is the earliest snapshot's score plus the sum of that player's recorded points |
| `Ledger.ExampleSession` | script.js:139-153 | 7 to A, then a foul of -4 against B, gives 7/0 and then 7/-4; three undos give 7/0, then 0/0, then still the initial state |
| `Persistence.Save` | script.js:200-208 | the saved record holds every field: scores, history, both names, reds count and respot flag |
| `Persistence.Overwrite` | script.js:232-242 | a stored name or reds count replaces the current one exactly when it is present and non-empty; otherwise the current value stays |
| `Persistence.Load` | script.js:217-245 | with nothing stored the state is unchanged; a stored scores or history field is taken, and a missing one gives 0/0 or []; a truthy stored name or reds count is taken, and otherwise the current value stays; a stored respot flag is taken, and otherwise the current one stays |
| `Persistence.SaveLoadRoundTrip` | script.js:223-245 | loading a saved state over a base state gives the saved state back if and only if every empty name or reds count in it is also empty in the base |
| `Persistence.SaveLoadIntoFresh` | script.js:223-245 | a saved state loaded into a newly built counter reproduces its scores, history, names, reds count and respot flag, provided the reds count is not empty |
| `Persistence.EmptyRedsCountNotRestored` | script.js:240-242 | an empty saved reds count does not survive the round trip: the new counter keeps "15" |
| `Persistence.LoadEmptyRecord` | script.js:224-225 | a record with every field absent gives scores 0/0 and an empty history, and keeps the names and settings |
| `Persistence.LoadIdempotent` | script.js:217-245 | loading the same record twice gives the same state as loading it once |
| `Persistence.LoadKeepsConsistent` | script.js:224-225 | loading a saved consistent state gives a consistent state |
| `ScoreCounter.SnookerScoreCounter.constructor` | script.js:3-18 | a new counter is not animating; its state is the initial state with the stored record loaded over it; storage is unchanged |
| `ScoreCounter.SnookerScoreCounter.HandleScoreClick` | script.js:69-77 | while animating, neither the state nor the storage changes; otherwise the state change is that of addScore, and the storage holds the new state |
| `ScoreCounter.SnookerScoreCounter.AddScore` | script.js:79-95 | the new state is the addScore transition of the old one; storage then holds the new state under the key, and other keys are untouched |
| `ScoreCounter.SnookerScoreCounter.Undo` | script.js:139-167 | the new state is the undo transition of the old one; nothing is saved when the history was empty; otherwise the new state is saved |
| `ScoreCounter.SnookerScoreCounter.Reset` | script.js:169-198 | the new state is the reset state, and it is saved |
| `ScoreCounter.SnookerScoreCounter.EditPlayerName` | script.js:61-62 | only that player's name changes, and the new state is saved |
| `ScoreCounter.SnookerScoreCounter.SelectRedsCount` | script.js:65 | only the reds count changes, and the new state is saved |
| `ScoreCounter.SnookerScoreCounter.ToggleRespot` | script.js:66 | only the respot flag changes, and the new state is saved |
| `ScoreCounter.SnookerScoreCounter.SaveToStorage` | script.js:200-215 | the storage maps the key to the saved record of the current state, and every other key is unchanged |
| `ScoreCounter.SnookerScoreCounter.LoadFromStorage` | script.js:217-250 | the new state is the stored record loaded over the old state, with all the default fallbacks; the animation flag is untouched |
| `ScoreCounter.Reload` | script.js:257-259 | after a save, a counter built anew over the same storage shows exactly the saved state (reds count not empty) and is not animating |

## Left out

- Display updates are left out: `cacheElements`, `attachEventListeners`, `updateScoreDisplay`, and the score texts set by `undo`, `reset` and `loadFromStorage`. They only write to the page.
- `animateScore` is left out. It uses floating-point easing, `performance.now` and `requestAnimationFrame`.
- The timers are left out: the shake and highlight `setTimeout`s, `delay`, and the two awaits in `reset`. `Reset` models the synchronous block between the awaits.
- Keyboard shortcuts, the `confirm` dialog, the `beforeunload` guard and the touch listener are left out. They are browser event wiring.
- `characters.js` is a static catalogue with no behaviour, so it is not part of this model.
- The roster selector and the multi-player variant are not part of this model.
- The stored value is an abstract record, not JSON text. Each field is either absent or of the right type. Unparsable text, `null` and wrongly typed fields are not modelled, and neither are the `try`/`catch` warnings around them.
- Storage write failures are not modelled. A full or unavailable storage makes the source print a warning and keep the old record; here every save succeeds.
- `HandleScoreClick` takes the player and the points as parameters. The buttons' `data-player` is assumed to be `a` or `b`, and `data-points` is assumed to parse to an integer. `parseInt` and other keys (which would produce `NaN`) are not modelled.
- Ledger.Credit: scores and points are unbounded integers here. script.js keeps them as JavaScript Numbers (doubles), which add exactly only up to 2^53; beyond that the source rounds and the model does not.
- `isAnimating` is set to `false` in the constructor, and no code in script.js ever sets it to `true`. The guard is modelled, but in the source as written it never fires.
- index.html is not part of this model. The initial values of the name inputs, the reds selector and the respot toggle are taken to be those that reset restores: empty names, `"15"`, and off.

## Behaviour of script.js worth knowing

- There are exactly two players, `a` and `b`, and their scores are the object's only keys.
- There is one reset. It clears the scores and the history, and also blanks both names and restores the default settings.
- Undo on an empty stack plays the same shake animation as a successful undo, and gives no other signal.
- The history is saved along with the scores, names and settings, so undo still works after a reload.

# Podcast player queue, modelled in Dafny

This project models the player context of a podcast web client (`src/contexts/PlayerContext.tsx`).
The context holds an episode queue (`episodeList`) and the position of the current episode
(`currentEpisodeIndex`). It also holds three mode flags: `isPlaying`, `isLooping` and
`isShuffling`. It derives `hasNext` and `hasPrevious` from the queue and the position, and it
exports handlers that change this state: `play`, `playlist`, `clearPlayerState`, `playNext`,
`playPrevious`, `togglePlay`, `toggleShuffle`, `toggleLoop` and `setPlayingState`.

The model has three modules.

- `PlayerState` (`player_state.dfy`) holds the state as a value (`Snapshot`). Each handler is a
  function from the state before the call to the state after it. Each handler reads the state it
  was created with and never reads back a value it has just written, so one call is one atomic
  step. The contracts say what each call does to the queue, the position and the flags. They
  also say whether the call keeps the position invariant: when the queue is not empty, the
  position is one of its indices.
- `PlayerRuns` (`player_runs.dfy`) covers sequences of calls (`Action`, `Run`). It proves that
  the invariant survives any session whose `playlist` calls name a real position. It proves that
  the queue is only replaced wholesale and that each of the loop and shuffle flags follows the
  parity of its toggle. It also describes what many `playNext` or `playPrevious` calls do:
  cycling, stopping at the ends, and staying stranded outside the queue.
- `PlayerContext` (`player_context.dfy`) is the context as an object, `Player`. The five state
  cells are its fields, and each handler is a method that updates them in place. Every method
  is proved against the `Snapshot` transition of the same name.

`Math.random()` becomes a parameter of type `Draw`, a real number in [0, 1). `shuffle` moves to
`Floor(draw * |episodeList|)`, as line 56 computes it.

Out-of-range positions follow the code literally. `playlist` stores any index without a check.
`hasNext` and `hasPrevious` test whether `episodeList[i ± 1]` exists, so outside the queue the
outcome depends on the position:

- On a non-empty queue, `hasPrevious` is true at position `|episodeList|` and `hasNext` is true
  at position -1. Both positions recover (`EdgePositionsRecover`).
- Without shuffling, `playNext` on a looping queue moves any position outside the queue to 0
  (`LoopingNextLeavesOutside`). `playPrevious` never wraps, looping or not.
- A position at least two places outside the queue is a dead end when the queue neither loops
  nor shuffles. So is any position of an empty queue, including -1 and 0
  (`StrandedPosition`).
- `Snapshot.Playlist` proves exactly when the stored index keeps the position invariant.

## Model

| member | source | states |
|---|---|---|
| `PlayerState.ShuffleIndex` | src/contexts/PlayerContext.tsx:55-57 | the position `shuffle` picks is an index of a non-empty queue, and 0 for an empty one |
| `PlayerState.ShuffleCanPickAny` | src/contexts/PlayerContext.tsx:56 | every index of a non-empty queue is the outcome of some draw of `Math.random()` |
| `PlayerState.Snapshot.HasNext` | src/contexts/PlayerContext.tsx:46 | `hasNext` holds exactly when `currentEpisodeIndex + 1` is an index of the queue (episodes are truthy objects, a missing element is `undefined`) |
| `PlayerState.Snapshot.HasPrevious` | src/contexts/PlayerContext.tsx:47 | `hasPrevious` holds exactly when `currentEpisodeIndex - 1` is an index of the queue |
| `PlayerState.Snapshot.Play` | src/contexts/PlayerContext.tsx:49-53 | the queue becomes `[episode]`, the position 0 and `isPlaying` true; loop and shuffle are unchanged; the invariant holds, the current episode is `episode`, and there is neither a next nor a previous episode |
| `PlayerState.Snapshot.Shuffle` | src/contexts/PlayerContext.tsx:55-57 | only the position changes; it is a valid position, or 0 on an empty queue |
| `PlayerState.Snapshot.ClearPlayerState` | src/contexts/PlayerContext.tsx:59-62 | the queue becomes empty and the position 0; none of the three flags changes; no current, next or previous episode remains |
| `PlayerState.Snapshot.Playlist` | src/contexts/PlayerContext.tsx:64-68 | queue and position are set as given, unchecked, and `isPlaying` becomes true; loop and shuffle are unchanged; the invariant holds afterwards if and only if the list is empty or the index is one of its positions, and then the current episode is `list[index]` |
| `PlayerState.Snapshot.PlayNext` | src/contexts/PlayerContext.tsx:70-78 | only the position may change; when shuffling it lands on a valid position (0 on an empty queue); otherwise it advances by one when there is a next episode, wraps to 0 at the end of a looping queue, and leaves the state unchanged at the end of a queue that does not loop; it keeps the invariant |
| `PlayerState.Snapshot.PlayPrevious` | src/contexts/PlayerContext.tsx:80-86 | only the position may change; when shuffling it lands on a valid position (0 on an empty queue); otherwise it steps back by one when there is a previous episode and is a no-op otherwise, even on a looping queue; it keeps the invariant |
| `PlayerState.Snapshot.TogglePlay` | src/contexts/PlayerContext.tsx:88-90 | `isPlaying` is negated and nothing else changes |
| `PlayerState.Snapshot.ToggleShuffle` | src/contexts/PlayerContext.tsx:92-94 | `isShuffling` is negated and nothing else changes |
| `PlayerState.Snapshot.ToggleLoop` | src/contexts/PlayerContext.tsx:96-98 | `isLooping` is negated and nothing else changes |
| `PlayerState.Snapshot.SetPlayingState` | src/contexts/PlayerContext.tsx:100-102 | `isPlaying` becomes `state` and nothing else changes |
| `PlayerState.NeighboursAtBoundaries` | src/contexts/PlayerContext.tsx:46-47 | on a valid non-empty queue there is no previous episode exactly at the first position and no next episode exactly at the last |
| `PlayerState.NextPreviousRoundTrip` | src/contexts/PlayerContext.tsx:70-86 | without shuffling, from a valid position, `playNext` then `playPrevious` restores the state when there was a next episode, and `playPrevious` then `playNext` does so when there was a previous one |
| `PlayerState.TogglesAreInvolutions` | src/contexts/PlayerContext.tsx:88-98 | each of the three toggles applied twice restores the state |
| `PlayerState.LoopingNextLeavesOutside` | src/contexts/PlayerContext.tsx:70-78 | without shuffling, on a looping queue, `playNext` from any position outside the queue lands on 0, a valid position |
| `PlayerState.EdgePositionsRecover` | src/contexts/PlayerContext.tsx:46-47 | on a non-empty queue, from one past the end `playPrevious` returns to the last episode, and from -1 `playNext` moves to the first, both ending in a valid position |
| `PlayerRuns.Apply` | src/contexts/PlayerContext.tsx:20-28 | any exported call keeps the invariant unless it is a `playlist` with an index outside a non-empty list; calls other than `play`, `playlist` and `clearPlayerState` keep the queue |
| `PlayerRuns.RunKeepsPositionValid` | src/contexts/PlayerContext.tsx:49-102 | after any sequence of calls whose `playlist` indices are in range, the invariant still holds |
| `PlayerRuns.RunKeepsQueue` | src/contexts/PlayerContext.tsx:49-102 | a sequence without `play`, `playlist` or `clearPlayerState` leaves the queue unchanged: the queue is only replaced wholesale |
| `PlayerRuns.FlagsFollowToggleParity` | src/contexts/PlayerContext.tsx:43-44 | after any sequence of calls, `isLooping` and `isShuffling` are each flipped exactly when their toggle occurred an odd number of times |
| `PlayerRuns.LoopingNextCycles` | src/contexts/PlayerContext.tsx:70-78 | on a looping queue, without shuffling, k calls of `playNext` move the position k places forward modulo the queue length and change nothing else |
| `PlayerRuns.LoopingReachesEvery` | src/contexts/PlayerContext.tsx:70-78 | on a looping queue, without shuffling, every episode is reached by fewer than `|episodeList|` calls of `playNext` |
| `PlayerRuns.NextStopsAtLast` | src/contexts/PlayerContext.tsx:70-78 | on a queue that does not loop, without shuffling, k calls of `playNext` advance to `min(position + k, last)` |
| `PlayerRuns.PreviousStopsAtFirst` | src/contexts/PlayerContext.tsx:80-86 | without shuffling, looping or not, k calls of `playPrevious` step back to `max(position - k, 0)`: there is no wrap to the end |
| `PlayerRuns.StrandedPosition` | src/contexts/PlayerContext.tsx:64-86 | a position two or more places outside the queue, or any position of an empty queue, is never left by `playNext` or `playPrevious` when the queue neither loops nor shuffles |
| `PlayerContext.Player.constructor` | src/contexts/PlayerContext.tsx:40-44 | a new context has an empty queue, position 0 and all three flags false |
| `PlayerContext.Player.HasNext` | src/contexts/PlayerContext.tsx:46 | `hasNext` over the fields: `currentEpisodeIndex + 1` is an index of `episodeList` |
| `PlayerContext.Player.HasPrevious` | src/contexts/PlayerContext.tsx:47 | `hasPrevious` over the fields: `currentEpisodeIndex - 1` is an index of `episodeList` |
| `PlayerContext.Player.Play` | src/contexts/PlayerContext.tsx:49-53 | updates queue, position and `isPlaying` in place as `Snapshot.Play` does; the flags it does not modify are untouched |
| `PlayerContext.Player.Shuffle` | src/contexts/PlayerContext.tsx:55-57 | updates only the position, as `Snapshot.Shuffle` does |
| `PlayerContext.Player.ClearPlayerState` | src/contexts/PlayerContext.tsx:59-62 | updates only queue and position, as `Snapshot.ClearPlayerState` does |
| `PlayerContext.Player.Playlist` | src/contexts/PlayerContext.tsx:64-68 | updates queue, position and `isPlaying` in place as `Snapshot.Playlist` does |
| `PlayerContext.Player.PlayNext` | src/contexts/PlayerContext.tsx:70-78 | updates only the position, as `Snapshot.PlayNext` does, keeping the invariant |
| `PlayerContext.Player.PlayPrevious` | src/contexts/PlayerContext.tsx:80-86 | updates only the position, as `Snapshot.PlayPrevious` does, keeping the invariant |
| `PlayerContext.Player.TogglePlay` | src/contexts/PlayerContext.tsx:88-90 | negates only `isPlaying` |
| `PlayerContext.Player.ToggleShuffle` | src/contexts/PlayerContext.tsx:92-94 | negates only `isShuffling` |
| `PlayerContext.Player.ToggleLoop` | src/contexts/PlayerContext.tsx:96-98 | negates only `isLooping` |
| `PlayerContext.Player.SetPlayingState` | src/contexts/PlayerContext.tsx:100-102 | sets only `isPlaying` to `state` |

## Left out

- React wiring is left out: `createContext`, the `useState` hooks, the provider markup and the `userPlayer` hook (lines 1, 35, 104-130). The model uses plain fields and methods. Re-rendering and the closures that capture each render's state are covered only by treating each call as one atomic step from the old state. Consecutive calls are assumed to be separated by a re-render. Several calls from one event handler are not modelled: they all read the same captured state, so `toggleLoop(); toggleLoop();` in one click negates `isLooping` only once.
- `Math.random()` is not modelled as a random source. It becomes the `Draw` parameter. The uniform distribution of shuffled positions is a probabilistic property and is not stated. `ShuffleCanPickAny` states only that every position can be drawn.
- `ShuffleIndex` uses exact real arithmetic. IEEE 754 rounding of `Math.random() * length` is not modelled.
- `playlist` takes a JavaScript number. The model takes an integer, so fractional or non-finite indices are not modelled.
- The fields of an episode (title, members, thumbnail, duration, url) are carried but never inspected, as in the code. The JavaScript number `duration` is an exact real.
- Audio playback, data fetching, static page generation, formatting and styling are not part of this model. The episode page that calls `playlist([episode], 0)` is not part of this model either.

/** The state kept by the podcast player context: the episode queue, the position of the
    current episode in it and three mode flags, with every transition the context exports
    written as a function from the state before a call to the state after it.

    Each handler of the context reads the state as it was when the handler was created and
    only then issues its updates, and no handler reads back a value it has just written, so
    every call is one atomic step from the old state to the new one. */
module PlayerState {

  /** An episode as the player receives it from the page that starts playback. The player
      only stores episodes in its queue; it never looks inside one. */
  datatype Episode = Episode(title: string, members: string, thumbnail: string, duration: real, url: string)

  datatype Option<T> = None | Some(value: T)

  /** `list[k]` in JavaScript: the element at k, or `undefined` (None) when k is not an
      index of the list. */
  function Lookup(list: seq<Episode>, k: int): Option<Episode>
  {
    if 0 <= k < |list| then Some(list[k]) else None
  }

  /** `!!v` for an element read from the queue: an episode is an object and therefore
      truthy, `undefined` is falsy. */
  predicate Truthy(v: Option<Episode>)
  {
    v.Some?
  }

  /** A value returned by `Math.random()`: a number in [0, 1). */
  type Draw = r: real | 0.0 <= r < 1.0

  /** The position `shuffle` jumps to: `Math.floor(Math.random() * episodeList.length)`.
      Some position of the queue, or 0 when the queue is empty. */
  function ShuffleIndex(draw: Draw, length: nat): (k: int)
    ensures length == 0 ==> k == 0
    ensures length > 0 ==> 0 <= k < length
  {
    assert draw * length as real <= 1.0 * length as real;
    (draw * length as real).Floor
  }

  /** Every position of a non-empty queue is the outcome of some draw, so shuffling can
      land on any episode. */
  lemma ShuffleCanPickAny(length: nat, k: int)
    requires 0 <= k < length
    ensures var draw: Draw := k as real / length as real; ShuffleIndex(draw, length) == k
  {
  }

  /** The five state cells of the player context. */
  datatype Snapshot = Snapshot(
    episodeList: seq<Episode>,
    currentEpisodeIndex: int,
    isPlaying: bool,
    isLooping: bool,
    isShuffling: bool)
  {
    /** `hasNext`: an episode exists after the current position. An in-range test, so an
        out-of-range position is treated literally (position -1 has a next episode). */
    predicate HasNext()
      ensures HasNext() <==> 0 <= currentEpisodeIndex + 1 < |episodeList|
    {
      Truthy(Lookup(episodeList, currentEpisodeIndex + 1))
    }

    /** `hasPrevious`: an episode exists before the current position (true at position
        `|episodeList|`, one past the end). */
    predicate HasPrevious()
      ensures HasPrevious() <==> 0 <= currentEpisodeIndex - 1 < |episodeList|
    {
      Truthy(Lookup(episodeList, currentEpisodeIndex - 1))
    }

    /** The episode at the current position, if there is one. */
    function Current(): Option<Episode>
    {
      Lookup(episodeList, currentEpisodeIndex)
    }

    /** The position invariant the rest of the application relies on: when the queue is
        not empty, the position is one of its indices. */
    predicate Valid()
    {
      |episodeList| > 0 ==> 0 <= currentEpisodeIndex < |episodeList|
    }

    /** `t` differs from this state at most in its position. */
    predicate OnlyPositionMay(t: Snapshot)
    {
      t == this.(currentEpisodeIndex := t.currentEpisodeIndex)
    }

    /** `play(episode)`: the queue becomes that single episode, playing from its start. */
    function Play(episode: Episode): (t: Snapshot)
      ensures t.episodeList == [episode] && t.currentEpisodeIndex == 0 && t.isPlaying
      ensures t.isLooping == isLooping && t.isShuffling == isShuffling
      ensures t.Valid() && t.Current() == Some(episode)
      ensures !t.HasNext() && !t.HasPrevious()
    {
      this.(episodeList := [episode], currentEpisodeIndex := 0, isPlaying := true)
    }

    /** `shuffle()`: jump to the position picked by the draw; nothing else changes. */
    function Shuffle(draw: Draw): (t: Snapshot)
      ensures OnlyPositionMay(t) && t.Valid()
      ensures episodeList == [] ==> t.currentEpisodeIndex == 0
    {
      this.(currentEpisodeIndex := ShuffleIndex(draw, |episodeList|))
    }

    /** `clearPlayerState()`: empty the queue and reset the position; the three flags are
        left as they are (so `isPlaying` may stay true). */
    function ClearPlayerState(): (t: Snapshot)
      ensures t.episodeList == [] && t.currentEpisodeIndex == 0
      ensures t.isPlaying == isPlaying && t.isLooping == isLooping && t.isShuffling == isShuffling
      ensures t.Valid() && t.Current() == None && !t.HasNext() && !t.HasPrevious()
    {
      this.(episodeList := [], currentEpisodeIndex := 0)
    }

    /** `playlist(list, index)`: replace the queue and start playing at `index`, which is
        not checked. The result keeps the position invariant exactly when `index` is a
        position of `list` (or `list` is empty). */
    function Playlist(list: seq<Episode>, index: int): (t: Snapshot)
      ensures t.episodeList == list && t.currentEpisodeIndex == index && t.isPlaying
      ensures t.isLooping == isLooping && t.isShuffling == isShuffling
      ensures t.Valid() <==> (list == [] || 0 <= index < |list|)
      ensures 0 <= index < |list| ==> t.Current() == Some(list[index])
    {
      this.(episodeList := list, currentEpisodeIndex := index, isPlaying := true)
    }

    /** `playNext()`: when shuffling, jump to a drawn position; otherwise advance when
        there is a next episode, wrap to the start at the end of a looping queue, and do
        nothing at the end of a queue that does not loop. */
    function PlayNext(draw: Draw): (t: Snapshot)
      ensures OnlyPositionMay(t)
      ensures Valid() ==> t.Valid()
      ensures isShuffling ==> t.Valid() && (episodeList == [] ==> t.currentEpisodeIndex == 0)
      ensures !isShuffling && HasNext() ==> t.currentEpisodeIndex == currentEpisodeIndex + 1
      ensures !isShuffling && !HasNext() && isLooping ==> t.currentEpisodeIndex == 0
      ensures !isShuffling && !HasNext() && !isLooping ==> t == this
    {
      if isShuffling then Shuffle(draw)
      else if !HasNext() && isLooping then this.(currentEpisodeIndex := 0)
      else if HasNext() then this.(currentEpisodeIndex := currentEpisodeIndex + 1)
      else this
    }

    /** `playPrevious()`: when shuffling, jump to a drawn position; otherwise step back
        when there is a previous episode and do nothing at the start, even when looping. */
    function PlayPrevious(draw: Draw): (t: Snapshot)
      ensures OnlyPositionMay(t)
      ensures Valid() ==> t.Valid()
      ensures isShuffling ==> t.Valid() && (episodeList == [] ==> t.currentEpisodeIndex == 0)
      ensures !isShuffling && HasPrevious() ==> t.currentEpisodeIndex == currentEpisodeIndex - 1
      ensures !isShuffling && !HasPrevious() ==> t == this
    {
      if isShuffling then Shuffle(draw)
      else if HasPrevious() then this.(currentEpisodeIndex := currentEpisodeIndex - 1)
      else this
    }

    /** `togglePlay()`: negate `isPlaying` and nothing else. */
    function TogglePlay(): (t: Snapshot)
      ensures t.isPlaying != isPlaying && t.(isPlaying := isPlaying) == this
    {
      this.(isPlaying := !isPlaying)
    }

    /** `toggleShuffle()`: negate `isShuffling` and nothing else. */
    function ToggleShuffle(): (t: Snapshot)
      ensures t.isShuffling != isShuffling && t.(isShuffling := isShuffling) == this
    {
      this.(isShuffling := !isShuffling)
    }

    /** `toggleLoop()`: negate `isLooping` and nothing else. */
    function ToggleLoop(): (t: Snapshot)
      ensures t.isLooping != isLooping && t.(isLooping := isLooping) == this
    {
      this.(isLooping := !isLooping)
    }

    /** `setPlayingState(state)`: set `isPlaying` to `state` and nothing else. */
    function SetPlayingState(state: bool): (t: Snapshot)
      ensures t.isPlaying == state && t.(isPlaying := isPlaying) == this
    {
      this.(isPlaying := state)
    }
  }

  /** The state the context starts with: an empty queue at position 0, all flags false. */
  const Initial := Snapshot([], 0, false, false, false)

  /** On a valid non-empty queue the neighbours exist everywhere except at the ends:
      there is no previous episode exactly at the first position and no next episode
      exactly at the last. */
  lemma NeighboursAtBoundaries(s: Snapshot)
    requires s.Valid() && s.episodeList != []
    ensures s.HasPrevious() <==> s.currentEpisodeIndex != 0
    ensures s.HasNext() <==> s.currentEpisodeIndex != |s.episodeList| - 1
  {
  }

  /** Without shuffling and from a valid position, `playNext` followed by `playPrevious`
      returns to the same state when there was a next episode, and `playPrevious` followed
      by `playNext` does so when there was a previous one. From the positions -1 and
      `|episodeList|`, which `playlist` can store, neither round trip holds. */
  lemma NextPreviousRoundTrip(s: Snapshot, d1: Draw, d2: Draw)
    requires !s.isShuffling && s.Valid()
    ensures s.HasNext() ==> s.PlayNext(d1).PlayPrevious(d2) == s
    ensures s.HasPrevious() ==> s.PlayPrevious(d1).PlayNext(d2) == s
  {
  }

  /** Each toggle undoes itself. */
  lemma TogglesAreInvolutions(s: Snapshot)
    ensures s.TogglePlay().TogglePlay() == s
    ensures s.ToggleShuffle().ToggleShuffle() == s
    ensures s.ToggleLoop().ToggleLoop() == s
  {
  }

  /** Without shuffling, `playNext` on a looping queue moves any position outside the
      queue to 0, the first episode (or position 0 of an empty queue). */
  lemma LoopingNextLeavesOutside(s: Snapshot, d: Draw)
    requires !s.isShuffling && s.isLooping
    requires !(0 <= s.currentEpisodeIndex < |s.episodeList|)
    ensures s.PlayNext(d).currentEpisodeIndex == 0 && s.PlayNext(d).Valid()
  {
  }

  /** The two positions just outside a non-empty queue are not dead ends: from one past
      the end `playPrevious` returns to the last episode, and from -1 `playNext` moves to
      the first, whatever the loop flag. */
  lemma EdgePositionsRecover(s: Snapshot, d: Draw)
    requires !s.isShuffling && s.episodeList != []
    ensures s.currentEpisodeIndex == |s.episodeList| ==>
      s.PlayPrevious(d).Valid() && s.PlayPrevious(d).Current() == Some(s.episodeList[|s.episodeList| - 1])
    ensures s.currentEpisodeIndex == -1 ==>
      s.PlayNext(d).Valid() && s.PlayNext(d).Current() == Some(s.episodeList[0])
  {
  }
}

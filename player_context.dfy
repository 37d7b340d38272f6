/** The player context as an object: the five state cells are fields that the exported
    handlers update in place. Each handler is proved against the transition of the same
    name on snapshots (module PlayerState), whose properties are proved there and in
    module PlayerRuns. */
module PlayerContext {
  import opened PlayerState

  class Player {
    var episodeList: seq<Episode>
    var currentEpisodeIndex: int
    var isPlaying: bool
    var isLooping: bool
    var isShuffling: bool

    /** The current values of the five state cells. */
    function State(): Snapshot
      reads this
    {
      Snapshot(episodeList, currentEpisodeIndex, isPlaying, isLooping, isShuffling)
    }

    /** A new context: an empty queue at position 0 with every flag false. */
    constructor ()
      ensures State() == Initial
      ensures State().Valid() && !HasNext() && !HasPrevious()
    {
      episodeList := [];
      currentEpisodeIndex := 0;
      isPlaying := false;
      isLooping := false;
      isShuffling := false;
    }

    /** `hasNext`, recomputed from the fields on every read. */
    predicate HasNext()
      reads this
      ensures HasNext() <==> 0 <= currentEpisodeIndex + 1 < |episodeList|
    {
      State().HasNext()
    }

    /** `hasPrevious`, recomputed from the fields on every read. */
    predicate HasPrevious()
      reads this
      ensures HasPrevious() <==> 0 <= currentEpisodeIndex - 1 < |episodeList|
    {
      State().HasPrevious()
    }

    method Play(episode: Episode)
      modifies this`episodeList, this`currentEpisodeIndex, this`isPlaying
      ensures State() == old(State()).Play(episode)
      ensures episodeList == [episode] && currentEpisodeIndex == 0 && isPlaying
      ensures !HasNext() && !HasPrevious()
    {
      episodeList := [episode];
      currentEpisodeIndex := 0;
      isPlaying := true;
    }

    method Shuffle(draw: Draw)
      modifies this`currentEpisodeIndex
      ensures State() == old(State()).Shuffle(draw)
      ensures State().Valid()
    {
      currentEpisodeIndex := ShuffleIndex(draw, |episodeList|);
    }

    method ClearPlayerState()
      modifies this`episodeList, this`currentEpisodeIndex
      ensures State() == old(State()).ClearPlayerState()
      ensures episodeList == [] && currentEpisodeIndex == 0
    {
      episodeList := [];
      currentEpisodeIndex := 0;
    }

    method Playlist(list: seq<Episode>, index: int)
      modifies this`episodeList, this`currentEpisodeIndex, this`isPlaying
      ensures State() == old(State()).Playlist(list, index)
      ensures episodeList == list && currentEpisodeIndex == index && isPlaying
    {
      episodeList := list;
      currentEpisodeIndex := index;
      isPlaying := true;
    }

    method PlayNext(draw: Draw)
      modifies this`currentEpisodeIndex
      ensures State() == old(State()).PlayNext(draw)
      ensures old(State().Valid()) ==> State().Valid()
    {
      if isShuffling {
        Shuffle(draw);
      } else if !HasNext() && isLooping {
        currentEpisodeIndex := 0;
      } else if HasNext() {
        currentEpisodeIndex := currentEpisodeIndex + 1;
      }
    }

    method PlayPrevious(draw: Draw)
      modifies this`currentEpisodeIndex
      ensures State() == old(State()).PlayPrevious(draw)
      ensures old(State().Valid()) ==> State().Valid()
    {
      if isShuffling {
        Shuffle(draw);
      } else if HasPrevious() {
        currentEpisodeIndex := currentEpisodeIndex - 1;
      }
    }

    method TogglePlay()
      modifies this`isPlaying
      ensures State() == old(State()).TogglePlay()
      ensures isPlaying == !old(isPlaying)
    {
      isPlaying := !isPlaying;
    }

    method ToggleShuffle()
      modifies this`isShuffling
      ensures State() == old(State()).ToggleShuffle()
      ensures isShuffling == !old(isShuffling)
    {
      isShuffling := !isShuffling;
    }

    method ToggleLoop()
      modifies this`isLooping
      ensures State() == old(State()).ToggleLoop()
      ensures isLooping == !old(isLooping)
    {
      isLooping := !isLooping;
    }

    method SetPlayingState(state: bool)
      modifies this`isPlaying
      ensures State() == old(State()).SetPlayingState(state)
      ensures isPlaying == state
    {
      isPlaying := state;
    }
  }

  /** A client session against one context: in a queue of three started in the middle,
      `playNext` reaches the last episode and then stays there; with looping on it wraps
      to the first, `playPrevious` does not wrap back, and after clearing the queue
      navigation changes nothing. */
  method QueueSession(a: Episode, b: Episode, c: Episode)
  {
    var player := new Player();
    player.Playlist([a, b, c], 1);
    player.PlayNext(0.5);
    assert player.currentEpisodeIndex == 2;
    player.PlayNext(0.5);
    assert player.currentEpisodeIndex == 2;
    player.ToggleLoop();
    player.PlayNext(0.5);
    assert player.currentEpisodeIndex == 0 && player.isLooping && player.isPlaying;
    player.PlayPrevious(0.5);
    assert player.currentEpisodeIndex == 0;
    player.ClearPlayerState();
    player.PlayNext(0.5);
    assert player.currentEpisodeIndex == 0 && !player.HasNext() && !player.HasPrevious();
  }
}

/** Sequences of calls to the player context, in the order a UI session issues them, and
    what the queue, the position and the flags do over many calls. */
module PlayerRuns {
  import opened PlayerState

  /** One call of a function the player context exports. The calls that may shuffle carry
      the value `Math.random()` returns during that call. */
  datatype Action =
    | Play(episode: Episode)
    | Playlist(list: seq<Episode>, index: int)
    | ClearPlayerState
    | PlayNext(draw: Draw)
    | PlayPrevious(draw: Draw)
    | TogglePlay
    | ToggleShuffle
    | ToggleLoop
    | SetPlayingState(state: bool)
  {
    /** The call cannot store a position outside a non-empty queue: every call but a
        `playlist` whose index is not a position of its (non-empty) list. */
    predicate StartsInRange()
    {
      Playlist? ==> list == [] || 0 <= index < |list|
    }

    /** `playNext` or `playPrevious`. */
    predicate IsNavigation()
    {
      PlayNext? || PlayPrevious?
    }

    /** `play`, `playlist` or `clearPlayerState`: the calls that replace the queue. */
    predicate ReplacesQueue()
    {
      Play? || Playlist? || ClearPlayerState?
    }
  }

  /** The state after one call. */
  function Apply(s: Snapshot, a: Action): (t: Snapshot)
    ensures s.Valid() && a.StartsInRange() ==> t.Valid()
    ensures !a.ReplacesQueue() ==> t.episodeList == s.episodeList
  {
    match a
    case Play(episode) => s.Play(episode)
    case Playlist(list, index) => s.Playlist(list, index)
    case ClearPlayerState => s.ClearPlayerState()
    case PlayNext(draw) => s.PlayNext(draw)
    case PlayPrevious(draw) => s.PlayPrevious(draw)
    case TogglePlay => s.TogglePlay()
    case ToggleShuffle => s.ToggleShuffle()
    case ToggleLoop => s.ToggleLoop()
    case SetPlayingState(state) => s.SetPlayingState(state)
  }

  /** The state after the calls `actions`, first to last. Each call reads the state the
      previous one left, so consecutive calls are assumed to be separated by a re-render;
      several calls from one event handler, which all read the same captured state, are
      not modelled. */
  function Run(s: Snapshot, actions: seq<Action>): Snapshot
    decreases |actions|
  {
    if actions == [] then s else Run(Apply(s, actions[0]), actions[1..])
  }

  /** `n` copies of the same call. */
  function Repeat(a: Action, n: nat): (r: seq<Action>)
    ensures |r| == n && forall i :: 0 <= i < n ==> r[i] == a
  {
    seq(n, _ => a)
  }

  /** How many of `actions` are the call `a`. */
  function Occurrences(actions: seq<Action>, a: Action): nat
    decreases |actions|
  {
    if actions == [] then 0
    else (if actions[0] == a then 1 else 0) + Occurrences(actions[1..], a)
  }

  /** `n` is odd. */
  predicate Odd(n: nat)
  {
    if n == 0 then false else !Odd(n - 1)
  }

  /** The position invariant holds after any sequence of calls in which every `playlist`
      names a position of its list; the state the context starts in satisfies it. */
  lemma {:induction false} RunKeepsPositionValid(s: Snapshot, actions: seq<Action>)
    requires s.Valid()
    requires forall i :: 0 <= i < |actions| ==> actions[i].StartsInRange()
    ensures Run(s, actions).Valid()
    decreases |actions|
  {
    if actions != [] {
      RunKeepsPositionValid(Apply(s, actions[0]), actions[1..]);
    }
  }

  /** The queue is only ever replaced wholesale: calls other than `play`, `playlist` and
      `clearPlayerState` leave it exactly as it was. */
  lemma {:induction false} RunKeepsQueue(s: Snapshot, actions: seq<Action>)
    requires forall i :: 0 <= i < |actions| ==> !actions[i].ReplacesQueue()
    ensures Run(s, actions).episodeList == s.episodeList
    decreases |actions|
  {
    if actions != [] {
      RunKeepsQueue(Apply(s, actions[0]), actions[1..]);
    }
  }

  /** The loop and shuffle flags change only through their toggles: after any sequence of
      calls each is flipped exactly when its toggle occurs an odd number of times. */
  lemma {:induction false} FlagsFollowToggleParity(s: Snapshot, actions: seq<Action>)
    ensures Run(s, actions).isLooping == (s.isLooping != Odd(Occurrences(actions, ToggleLoop)))
    ensures Run(s, actions).isShuffling == (s.isShuffling != Odd(Occurrences(actions, ToggleShuffle)))
    decreases |actions|
  {
    if actions != [] {
      FlagsFollowToggleParity(Apply(s, actions[0]), actions[1..]);
    }
  }

  /** `a * n + n <= b * n` for a < b: rules out a second quotient in ModuloUnique. */
  lemma {:induction false} MultiplyMonotone(a: int, b: int, n: int)
    requires a < b && n > 0
    ensures a * n + n <= b * n
    decreases b - a
  {
    assert b * n == (b - 1) * n + n;
    if a < b - 1 {
      MultiplyMonotone(a, b - 1, n);
    }
  }

  /** The remainder is the only r in [0, n) with x == q * n + r. */
  lemma ModuloUnique(x: int, n: int, q: int, r: int)
    requires 0 <= r < n && x == q * n + r
    ensures x % n == r
  {
    var q', r' := x / n, x % n;
    assert x == q' * n + r';
    if q < q' {
      MultiplyMonotone(q, q', n);
    } else if q' < q {
      MultiplyMonotone(q', q, n);
    }
  }

  /** One wrap step of the `playNext` cycle in LoopingNextCycles. */
  lemma ModuloStep(i: int, m: nat, n: int)
    requires 0 <= i < n
    ensures ((i + 1) % n + m) % n == (i + 1 + m) % n
  {
    if i + 1 < n {
      ModuloUnique(i + 1, n, 0, i + 1);
    } else {
      ModuloUnique(n, n, 1, 0);
      var q, r := m / n, m % n;
      assert m == q * n + r;
      ModuloUnique(n + m, n, q + 1, r);
    }
  }

  /** On a looping queue, without shuffling, `playNext` cycles through the queue: after
      `k` calls the position has moved `k` places forward modulo the queue's length, and
      nothing else has changed. */
  lemma {:induction false} LoopingNextCycles(s: Snapshot, actions: seq<Action>)
    requires s.Valid() && s.episodeList != [] && s.isLooping && !s.isShuffling
    requires forall i :: 0 <= i < |actions| ==> actions[i].PlayNext?
    ensures Run(s, actions) == s.(currentEpisodeIndex := (s.currentEpisodeIndex + |actions|) % |s.episodeList|)
    decreases |actions|
  {
    if actions != [] {
      var n, i := |s.episodeList|, s.currentEpisodeIndex;
      var t := Apply(s, actions[0]);
      if i + 1 < n {
        ModuloUnique(i + 1, n, 0, i + 1);
      } else {
        ModuloUnique(n, n, 1, 0);
      }
      assert t == s.(currentEpisodeIndex := (i + 1) % n);
      LoopingNextCycles(t, actions[1..]);
      var m := |actions| - 1;
      ModuloStep(i, m, n);
    } else {
      ModuloUnique(s.currentEpisodeIndex, |s.episodeList|, 0, s.currentEpisodeIndex);
    }
  }

  /** On a looping queue, without shuffling, every episode is reached by fewer than
      `|episodeList|` calls of `playNext`. */
  lemma LoopingReachesEvery(s: Snapshot, k: int)
    requires s.Valid() && s.episodeList != [] && s.isLooping && !s.isShuffling
    requires 0 <= k < |s.episodeList|
    ensures exists n :: 0 <= n < |s.episodeList| && Run(s, Repeat(PlayNext(0.0), n)).currentEpisodeIndex == k
  {
    var len, i := |s.episodeList|, s.currentEpisodeIndex;
    var n := if i <= k then k - i else k - i + len;
    LoopingNextCycles(s, Repeat(PlayNext(0.0), n));
    if i <= k {
      ModuloUnique(i + n, len, 0, k);
    } else {
      ModuloUnique(i + n, len, 1, k);
    }
  }

  /** On a queue that does not loop, without shuffling, `playNext` advances one place per
      call and then stays on the last episode. */
  lemma {:induction false} NextStopsAtLast(s: Snapshot, actions: seq<Action>)
    requires s.Valid() && s.episodeList != [] && !s.isLooping && !s.isShuffling
    requires forall i :: 0 <= i < |actions| ==> actions[i].PlayNext?
    ensures var last := |s.episodeList| - 1;
      Run(s, actions) == s.(currentEpisodeIndex :=
        if s.currentEpisodeIndex + |actions| < last then s.currentEpisodeIndex + |actions| else last)
    decreases |actions|
  {
    if actions != [] {
      NextStopsAtLast(Apply(s, actions[0]), actions[1..]);
    }
  }

  /** Without shuffling, `playPrevious` steps back one place per call and then stays on
      the first episode, whether or not the queue loops: there is no wrap to the end. */
  lemma {:induction false} PreviousStopsAtFirst(s: Snapshot, actions: seq<Action>)
    requires s.Valid() && s.episodeList != [] && !s.isShuffling
    requires forall i :: 0 <= i < |actions| ==> actions[i].PlayPrevious?
    ensures Run(s, actions) == s.(currentEpisodeIndex :=
      if s.currentEpisodeIndex - |actions| > 0 then s.currentEpisodeIndex - |actions| else 0)
    decreases |actions|
  {
    if actions != [] {
      PreviousStopsAtFirst(Apply(s, actions[0]), actions[1..]);
    }
  }

  /** A position that `playlist` stored more than one place outside the queue, and any
      position of an empty queue (-1 and 0 included), can never be left by `playNext` or
      `playPrevious` unless the queue loops or shuffles. */
  lemma {:induction false} StrandedPosition(s: Snapshot, actions: seq<Action>)
    requires !s.isLooping && !s.isShuffling
    requires s.currentEpisodeIndex < -1 || s.currentEpisodeIndex > |s.episodeList| || s.episodeList == []
    requires forall i :: 0 <= i < |actions| ==> actions[i].IsNavigation()
    ensures Run(s, actions) == s
    decreases |actions|
  {
    if actions != [] {
      StrandedPosition(Apply(s, actions[0]), actions[1..]);
    }
  }
}

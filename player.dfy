/**
 * player.js: the track navigation of `initPlayer(tracks)`, whose closure holds the index
 * `currentTrack`, the `playHistory` stack, `isShuffled` and `repeatMode`. Audio output is
 * reduced to whether the element plays and where its position is.
 */
module Player {

  datatype RepeatMode = Off | All | One

  /** The repeat button: 'all' becomes 'one', anything else becomes 'all'. */
  function NextRepeat(m: RepeatMode): RepeatMode {
    if m == All then One else All
  }

  /** The button never reaches 'off', and two presses from 'all' come back to 'all'. */
  lemma NextRepeatCycle(m: RepeatMode)
    ensures NextRepeat(m) != Off
    ensures m != Off ==> NextRepeat(NextRepeat(m)) == m
    ensures NextRepeat(m) != m
  {
  }

  /** `(currentTrack + 1) % tracks.length`. */
  function NextIndex(cur: int, n: nat): int
    requires n > 0
  {
    (cur + 1) % n
  }

  /** `(currentTrack - 1 + tracks.length) % tracks.length`. */
  function PrevIndex(cur: int, n: nat): int
    requires n > 0
  {
    (cur - 1 + n) % n
  }

  /** Both steps stay on the list, and the backward step undoes the forward one. */
  lemma IndexSteps(cur: int, n: nat)
    requires n > 0 && 0 <= cur < n
    ensures 0 <= NextIndex(cur, n) < n && 0 <= PrevIndex(cur, n) < n
    ensures PrevIndex(NextIndex(cur, n), n) == cur
    ensures NextIndex(PrevIndex(cur, n), n) == cur
    ensures n > 1 ==> NextIndex(cur, n) != cur && PrevIndex(cur, n) != cur
  {
    if cur + 1 < n {
      ModSmall(cur + 1, n);
      ModWrap(cur + n, n);
    } else {
      ModWrap(cur + 1, n);
      ModWrap(n - 1 + n, n);
    }
    if cur > 0 {
      ModWrap(cur - 1 + n, n);
      ModSmall(cur, n);
    } else {
      ModSmall(n - 1, n);
      ModWrap(n, n);
    }
  }

  lemma ModSmall(x: int, n: int)
    requires 0 <= x < n
    ensures x % n == x
  {
    assert x == n * 0 + x;
  }

  lemma ModWrap(x: int, n: int)
    requires n > 0 && n <= x < 2 * n
    ensures x % n == x - n
  {
    assert x == n * 1 + (x - n);
  }

  /** The navigation part of the player's state: the current index and the history stack. */
  datatype Nav = Nav(current: int, history: seq<int>)

  /**
   * `nextTrack()`: the current index is pushed; shuffle mode moves to `pick`, the index the
   * random draw settled on, and sequential mode to the next index.
   */
  function NextNav(nav: Nav, shuffled: bool, pick: int, n: nat): Nav
    requires n > 0
  {
    Nav(if shuffled then pick else NextIndex(nav.current, n), nav.history + [nav.current])
  }

  /** `prevTrack()`: shuffle mode with a history pops it; otherwise the previous index, history kept. */
  function PrevNav(nav: Nav, shuffled: bool, n: nat): Nav
    requires n > 0
  {
    if shuffled && |nav.history| > 0 then Nav(nav.history[|nav.history| - 1], nav.history[..|nav.history| - 1])
    else Nav(PrevIndex(nav.current, n), nav.history)
  }

  /** The draw of shuffle mode is accepted only when it differs from the current index, unless there is one track. */
  predicate ShufflePick(cur: int, pick: int, n: nat) {
    0 <= pick < n && (pick != cur || n <= 1)
  }

  /** Every index in range: the current one and all the pushed ones. */
  predicate InRange(nav: Nav, n: nat) {
    0 <= nav.current < n && forall i :: 0 <= i < |nav.history| ==> 0 <= nav.history[i] < n
  }

  /** Next and prev keep every index, current and pushed, on the list. */
  lemma NavStaysInRange(nav: Nav, shuffled: bool, pick: int, n: nat)
    requires n > 0 && InRange(nav, n)
    requires shuffled ==> ShufflePick(nav.current, pick, n)
    ensures InRange(NextNav(nav, shuffled, pick, n), n)
    ensures InRange(PrevNav(nav, shuffled, n), n)
  {
    IndexSteps(nav.current, n);
  }

  /** In shuffle mode, prev right after next returns to the same track with the same history. */
  lemma ShuffleNextThenPrev(nav: Nav, pick: int, n: nat)
    requires n > 0
    ensures PrevNav(NextNav(nav, true, pick, n), true, n) == nav
  {
    var h := nav.history + [nav.current];
    assert h[..|h| - 1] == nav.history;
  }

  /**
   * In sequential mode, prev right after next returns to the same track, but the index that
   * next pushed stays on the history: sequential prev never pops.
   */
  lemma SequentialNextThenPrev(nav: Nav, n: nat)
    requires n > 0 && 0 <= nav.current < n
    ensures PrevNav(NextNav(nav, false, 0, n), false, n) == Nav(nav.current, nav.history + [nav.current])
  {
    IndexSteps(nav.current, n);
  }

  /** The closure of `initPlayer(tracks)` with `n == tracks.length`. */
  class MusicPlayer {
    const n: nat
    var currentTrack: int
    var playHistory: seq<int>
    var isShuffled: bool
    var repeatMode: RepeatMode
    /** Whether the audio element is playing (`audio.play()` / `audio.pause()`). */
    var playing: bool
    /** `audio.currentTime`, in whole seconds. */
    var currentTime: nat

    ghost predicate Valid()
      reads this
    {
      n > 0 && InRange(Nav(currentTrack, playHistory), n)
    }

    function State(): Nav
      reads this
    {
      Nav(currentTrack, playHistory)
    }

    /** `initPlayer(tracks)`: track 0 loaded and paused, empty history, shuffle off, repeat 'all'. */
    constructor (n: nat)
      requires n > 0
      ensures Valid() && this.n == n
      ensures currentTrack == 0 && playHistory == [] && !isShuffled && repeatMode == All
      ensures !playing && currentTime == 0
    {
      this.n := n;
      currentTrack := 0;
      playHistory := [];
      isShuffled := false;
      repeatMode := All;
      playing := false;
      currentTime := 0;
    }

    /**
     * `nextTrack()`. The shuffle draw `Math.floor(Math.random() * n)` is repeated while it hits
     * the current index and there is more than one track; the draw it stops at is any index the
     * exit condition allows.
     */
    method NextTrack()
      requires Valid()
      modifies this
      ensures Valid() && playing
      ensures isShuffled == old(isShuffled) && repeatMode == old(repeatMode)
      ensures State() == NextNav(old(State()), isShuffled, currentTrack, n)
      ensures isShuffled ==> ShufflePick(old(currentTrack), currentTrack, n)
      ensures !isShuffled ==> currentTrack == NextIndex(old(currentTrack), n)
      ensures currentTime == 0
    {
      if isShuffled {
        assert ShufflePick(currentTrack, NextIndex(currentTrack, n), n) by {
          IndexSteps(currentTrack, n);
        }
        var next :| ShufflePick(currentTrack, next, n);
        playHistory := playHistory + [currentTrack];
        currentTrack := next;
        NavStaysInRange(old(State()), true, next, n);
      } else {
        NavStaysInRange(State(), false, 0, n);
        playHistory := playHistory + [currentTrack];
        currentTrack := NextIndex(currentTrack, n);
      }
      currentTime := 0;
      playing := true;
    }

    /** `prevTrack()`. */
    method PrevTrack()
      requires Valid()
      modifies this
      ensures Valid() && playing
      ensures isShuffled == old(isShuffled) && repeatMode == old(repeatMode)
      ensures State() == PrevNav(old(State()), isShuffled, n)
      ensures currentTime == 0
    {
      if isShuffled && |playHistory| > 0 {
        currentTrack := playHistory[|playHistory| - 1];
        playHistory := playHistory[..|playHistory| - 1];
      } else {
        currentTrack := PrevIndex(currentTrack, n);
      }
      currentTime := 0;
      playing := true;
    }

    /** The shuffle button. */
    method ToggleShuffle()
      requires Valid()
      modifies this
      ensures Valid() && isShuffled == !old(isShuffled)
      ensures State() == old(State()) && repeatMode == old(repeatMode) && playing == old(playing)
      ensures currentTime == old(currentTime)
    {
      isShuffled := !isShuffled;
    }

    /** The repeat button. */
    method ToggleRepeat()
      requires Valid()
      modifies this
      ensures Valid() && repeatMode == NextRepeat(old(repeatMode))
      ensures State() == old(State()) && isShuffled == old(isShuffled) && playing == old(playing)
      ensures currentTime == old(currentTime)
    {
      repeatMode := NextRepeat(repeatMode);
    }

    /**
     * A click on the playlist item `i` (its `data-track`): that track plays from the start; the
     * history is kept. Loading a track (`audio.src = ...`) always restarts at position 0.
     */
    method SelectTrack(i: nat)
      requires Valid() && i < n
      modifies this
      ensures Valid() && currentTrack == i && playHistory == old(playHistory) && playing
      ensures isShuffled == old(isShuffled) && repeatMode == old(repeatMode) && currentTime == 0
    {
      currentTrack := i;
      currentTime := 0;
      playing := true;
    }

    /**
     * The `ended` event: 'one' rewinds and plays the same track, 'all' is `nextTrack()`, and
     * 'off' leaves the track stopped.
     */
    method Ended()
      requires Valid()
      modifies this
      ensures Valid() && isShuffled == old(isShuffled) && repeatMode == old(repeatMode)
      ensures old(repeatMode) == One ==> State() == old(State()) && currentTime == 0 && playing
      ensures old(repeatMode) == All ==>
                playing && currentTime == 0 && State() == NextNav(old(State()), isShuffled, currentTrack, n)
                && (isShuffled ==> ShufflePick(old(currentTrack), currentTrack, n))
                && (!isShuffled ==> currentTrack == NextIndex(old(currentTrack), n))
      ensures old(repeatMode) == Off ==> State() == old(State()) && !playing && currentTime == old(currentTime)
    {
      if repeatMode == One {
        currentTime := 0;
        playing := true;
      } else if repeatMode == All {
        NextTrack();
      } else {
        playing := false;
      }
    }
  }
}

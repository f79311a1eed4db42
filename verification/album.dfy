/**
 The full-screen photo viewer: a two-phase navigation state machine.

 A navigation intent (next, previous, or a click on a position dot) is
 accepted only while no flip is in progress; it records the flip direction,
 raises `isFlipping`, and schedules a settle callback that carries the index
 to land on. The index changes only when that callback fires (`Settle`),
 which also lowers `isFlipping`. Pending callbacks are kept as a queue of
 target indices so that "at most one is ever pending" is something to prove
 rather than something the representation assumes.

 The parent controls visibility through `isOpen`. While closed the viewer
 renders nothing, so no user event reaches it, but a pending callback still
 fires: closing cancels nothing and reopening resets nothing.
 */
module Album {

  datatype Photo = Photo(id: int, title: string, url: string)

  /** The side the incoming photo enters from during a flip. */
  datatype Direction = Next | Prev

  datatype State = State(
    currentIndex: int,
    isFlipping: bool,
    flipDirection: Direction,
    timers: seq<int>,   // pending settle callbacks, oldest first, each holding the index it sets
    isOpen: bool)

  /** The events that can reach the viewer. */
  datatype Event =
    | NextButton            // the right-hand chevron
    | PrevButton            // the left-hand chevron
    | Dot(index: int)       // the position dot for photo `index`
    | KeyDown(key: string)  // a key pressed while the viewer has focus
    | CloseButton           // the close control; the parent then hides the viewer
    | Open                  // the parent shows the viewer again
    | TimerFires            // the oldest pending settle callback runs

  /** What a key press asks for. */
  datatype KeyAction = GoNext | GoPrev | CloseViewer | Ignore

  /**
   The state on first mount: `initialIndex` (0 unless the parent passes one)
   seeds the index once and is never consulted again.
   */
  function Mount(isOpen: bool, initialIndex: int := 0): (s: State)
    ensures s.currentIndex == initialIndex && s.isOpen == isOpen
    ensures !s.isFlipping && s.timers == [] && s.flipDirection == Next
  {
    State(initialIndex, false, Next, [], isOpen)
  }

  /** The viewer is showing a photo of the collection and its flip flag matches its pending callbacks. */
  predicate Inv(s: State, photos: seq<Photo>)
  {
    && 0 <= s.currentIndex < |photos|
    && |s.timers| == (if s.isFlipping then 1 else 0)
    && forall i :: 0 <= i < |s.timers| ==> 0 <= s.timers[i] < |photos|
  }

  /** Begins a flip towards `target` in direction `dir`; the index itself is left alone. */
  function StartFlip(s: State, dir: Direction, target: int): (t: State)
    ensures t.currentIndex == s.currentIndex && t.isOpen == s.isOpen
    ensures t.isFlipping && t.flipDirection == dir
    ensures t.timers == s.timers + [target]
  {
    s.(isFlipping := true, flipDirection := dir, timers := s.timers + [target])
  }

  /** The "next" intent: refused on the last photo and during a flip. */
  function GoToNext(s: State, photos: seq<Photo>): (t: State)
    ensures t.currentIndex == s.currentIndex && t.isOpen == s.isOpen
    ensures t != s <==> s.currentIndex < |photos| - 1 && !s.isFlipping
    ensures t != s ==> t.isFlipping && t.flipDirection == Next && t.timers == s.timers + [s.currentIndex + 1]
  {
    if s.currentIndex < |photos| - 1 && !s.isFlipping then StartFlip(s, Next, s.currentIndex + 1)
    else s
  }

  /** The "previous" intent: refused on the first photo and during a flip. */
  function GoToPrev(s: State): (t: State)
    ensures t.currentIndex == s.currentIndex && t.isOpen == s.isOpen
    ensures t != s <==> s.currentIndex > 0 && !s.isFlipping
    ensures t != s ==> t.isFlipping && t.flipDirection == Prev && t.timers == s.timers + [s.currentIndex - 1]
  {
    if s.currentIndex > 0 && !s.isFlipping then StartFlip(s, Prev, s.currentIndex - 1)
    else s
  }

  /**
   A click on the dot of photo `index`: refused on the current photo and
   during a flip; otherwise the flip runs forward exactly when the target
   lies after the current photo.
   */
  function Jump(s: State, index: int): (t: State)
    ensures t.currentIndex == s.currentIndex && t.isOpen == s.isOpen
    ensures t != s <==> index != s.currentIndex && !s.isFlipping
    ensures t != s ==> t.isFlipping && t.timers == s.timers + [index]
    ensures t != s ==> (t.flipDirection == Next <==> index > s.currentIndex)
  {
    if !s.isFlipping && index != s.currentIndex then
      StartFlip(s, if index > s.currentIndex then Next else Prev, index)
    else s
  }

  /** The oldest pending callback runs: it sets the index it carries and ends the flip. */
  function Settle(s: State): (t: State)
    ensures s.timers == [] ==> t == s
    ensures s.timers != [] ==> t.currentIndex == s.timers[0] && !t.isFlipping && t.timers == s.timers[1..]
    ensures t.isOpen == s.isOpen && t.flipDirection == s.flipDirection
  {
    if s.timers == [] then s
    else s.(currentIndex := s.timers[0], isFlipping := false, timers := s.timers[1..])
  }

  /** The key binding: right arrow, left arrow and Escape; every other key is ignored. */
  function KeyActionOf(key: string): (a: KeyAction)
    ensures a == GoNext <==> key == "ArrowRight"
    ensures a == GoPrev <==> key == "ArrowLeft"
    ensures a == CloseViewer <==> key == "Escape"
  {
    if key == "ArrowRight" then GoNext
    else if key == "ArrowLeft" then GoPrev
    else if key == "Escape" then CloseViewer
    else Ignore
  }

  /** Closing hides the viewer and leaves everything else, pending callbacks included, as it was. */
  function Close(s: State): (t: State)
    ensures !t.isOpen
    ensures t.currentIndex == s.currentIndex && t.isFlipping == s.isFlipping
    ensures t.flipDirection == s.flipDirection && t.timers == s.timers
  {
    s.(isOpen := false)
  }

  /**
   A key press routed to the intent it is bound to. The three comparisons are
   independent `if`s, but the three keys are distinct, so at most one fires.
   */
  function HandleKey(s: State, photos: seq<Photo>, key: string): (t: State)
    ensures key == "ArrowRight" ==> t == GoToNext(s, photos)
    ensures key == "ArrowLeft" ==> t == GoToPrev(s)
    ensures key == "Escape" ==> t == Close(s)
    ensures key != "ArrowRight" && key != "ArrowLeft" && key != "Escape" ==> t == s
  {
    match KeyActionOf(key)
    case GoNext => GoToNext(s, photos)
    case GoPrev => GoToPrev(s)
    case CloseViewer => Close(s)
    case Ignore => s
  }

  /**
   One event. User events reach the viewer only while it is open; a pending
   callback fires whether or not it is.
   */
  function Step(s: State, photos: seq<Photo>, e: Event): (t: State)
    ensures !s.isOpen && !e.Open? && !e.TimerFires? ==> t == s
    ensures e.TimerFires? ==> t == Settle(s)
    ensures e.Open? ==> t.isOpen && t.currentIndex == s.currentIndex && t.timers == s.timers
    ensures t.currentIndex != s.currentIndex ==> e.TimerFires? && s.timers != []
    ensures t.isOpen != s.isOpen ==> e.Open? || (s.isOpen && (e.CloseButton? || e == KeyDown("Escape")))
    ensures s.isOpen && (e.CloseButton? || e == KeyDown("Escape")) ==> !t.isOpen
    ensures s.isOpen && e.NextButton? ==> t == GoToNext(s, photos)
    ensures s.isOpen && e.PrevButton? ==> t == GoToPrev(s)
    ensures s.isOpen && e.Dot? ==> t == Jump(s, e.index)
    ensures s.isOpen && e.KeyDown? ==> t == HandleKey(s, photos, e.key)
    ensures s.isOpen && e.CloseButton? ==> t == Close(s)
    ensures e.Open? ==> t == s.(isOpen := true)
  {
    match e
    case TimerFires => Settle(s)
    case Open => s.(isOpen := true)
    case _ =>
      if !s.isOpen then s
      else match e
        case NextButton => GoToNext(s, photos)
        case PrevButton => GoToPrev(s)
        case Dot(index) => Jump(s, index)
        case KeyDown(key) => HandleKey(s, photos, key)
        case CloseButton => Close(s)
  }

  /** The events the page can produce: there is one dot per photo. */
  predicate ValidEvent(photos: seq<Photo>, e: Event)
  {
    e.Dot? ==> 0 <= e.index < |photos|
  }

  /** The state after a sequence of events, in order. */
  function Run(s: State, photos: seq<Photo>, events: seq<Event>): State
    decreases |events|
  {
    if |events| == 0 then s else Run(Step(s, photos, events[0]), photos, events[1..])
  }

  /** The photo on display: the one at the current index (its image and its title). */
  function CurrentPhoto(s: State, photos: seq<Photo>): (p: Photo)
    requires 0 <= s.currentIndex < |photos|
    ensures p == photos[s.currentIndex]
    ensures p in photos
  {
    photos[s.currentIndex]
  }

  /** The position label: a 1-based ordinal and the number of photos. */
  function Position(s: State, photos: seq<Photo>): (pos: (int, int))
    requires 0 <= s.currentIndex < |photos|
    ensures pos == (s.currentIndex + 1, |photos|)
    ensures 1 <= pos.0 <= pos.1 == |photos|
    ensures pos.0 == pos.1 <==> s.currentIndex == |photos| - 1
  {
    (s.currentIndex + 1, |photos|)
  }

  /** The label names the photo on display: its ordinal, counted from one, picks that photo. */
  lemma PositionShowsCurrentPhoto(s: State, photos: seq<Photo>)
    requires 0 <= s.currentIndex < |photos|
    ensures 1 <= Position(s, photos).0 <= |photos|
    ensures photos[Position(s, photos).0 - 1] == CurrentPhoto(s, photos)
  {
  }

  // ---------------------------------------------------------------------
  // Invariants

  /** Mounting at a photo of the collection establishes the invariant. */
  lemma MountInv(initialIndex: int, isOpen: bool, photos: seq<Photo>)
    requires 0 <= initialIndex < |photos|
    ensures Inv(Mount(isOpen, initialIndex), photos)
  {
  }

  /** Every event the page can produce preserves the invariant. */
  lemma StepInv(s: State, photos: seq<Photo>, e: Event)
    requires Inv(s, photos) && ValidEvent(photos, e)
    ensures Inv(Step(s, photos, e), photos)
  {
  }

  /**
   From a mount at a photo of the collection, every reachable state shows a
   photo of the collection and has at most one pending settle callback.
   */
  lemma {:induction false} RunInv(s: State, photos: seq<Photo>, events: seq<Event>)
    requires Inv(s, photos)
    requires forall i :: 0 <= i < |events| ==> ValidEvent(photos, events[i])
    ensures Inv(Run(s, photos, events), photos)
    ensures 0 <= Run(s, photos, events).currentIndex < |photos|
    ensures |Run(s, photos, events).timers| <= 1
    decreases |events|
  {
    if |events| > 0 {
      StepInv(s, photos, events[0]);
      RunInv(Step(s, photos, events[0]), photos, events[1..]);
    }
  }

  /** Reachability from a fresh mount, stated directly. */
  lemma ReachableInBounds(initialIndex: int, isOpen: bool, photos: seq<Photo>, events: seq<Event>)
    requires 0 <= initialIndex < |photos|
    requires forall i :: 0 <= i < |events| ==> ValidEvent(photos, events[i])
    ensures 0 <= Run(Mount(isOpen, initialIndex), photos, events).currentIndex < |photos|
    ensures |Run(Mount(isOpen, initialIndex), photos, events).timers| <= 1
  {
    RunInv(Mount(isOpen, initialIndex), photos, events);
  }

  /**
   While a flip is in progress every navigation intent is refused rather than
   queued: no new callback is scheduled and the index, flag and direction
   stay as they are. Closing still hides the viewer.
   */
  lemma RejectedWhileFlipping(s: State, photos: seq<Photo>, e: Event)
    requires s.isFlipping && !e.TimerFires?
    ensures Step(s, photos, e).timers == s.timers
    ensures Step(s, photos, e).currentIndex == s.currentIndex
    ensures Step(s, photos, e).isFlipping
    ensures Step(s, photos, e).flipDirection == s.flipDirection
    ensures s.isOpen && e.CloseButton? ==> !Step(s, photos, e).isOpen
  {
  }

  /** Only a firing callback changes the displayed photo. */
  lemma IndexChangesOnlyOnSettle(s: State, photos: seq<Photo>, e: Event)
    requires Step(s, photos, e).currentIndex != s.currentIndex
    ensures e.TimerFires? && s.timers != []
    ensures Step(s, photos, e).currentIndex == s.timers[0]
  {
  }

  // ---------------------------------------------------------------------
  // Intents followed by their callback

  /** "Next" from an idle state not on the last photo lands on the following photo. */
  lemma NextThenSettle(s: State, photos: seq<Photo>)
    requires Inv(s, photos) && !s.isFlipping && s.currentIndex < |photos| - 1
    ensures GoToNext(s, photos).isFlipping
    ensures GoToNext(s, photos).currentIndex == s.currentIndex
    ensures Settle(GoToNext(s, photos)).currentIndex == s.currentIndex + 1
    ensures !Settle(GoToNext(s, photos)).isFlipping && Settle(GoToNext(s, photos)).timers == []
    ensures CurrentPhoto(Settle(GoToNext(s, photos)), photos) == photos[s.currentIndex + 1]
    ensures Position(Settle(GoToNext(s, photos)), photos) == (s.currentIndex + 2, |photos|)
  {
  }

  /** "Previous" from an idle state not on the first photo lands on the preceding photo. */
  lemma PrevThenSettle(s: State, photos: seq<Photo>)
    requires Inv(s, photos) && !s.isFlipping && s.currentIndex > 0
    ensures GoToPrev(s).isFlipping
    ensures GoToPrev(s).currentIndex == s.currentIndex
    ensures Settle(GoToPrev(s)).currentIndex == s.currentIndex - 1
    ensures !Settle(GoToPrev(s)).isFlipping && Settle(GoToPrev(s)).timers == []
    ensures CurrentPhoto(Settle(GoToPrev(s)), photos) == photos[s.currentIndex - 1]
    ensures Position(Settle(GoToPrev(s)), photos) == (s.currentIndex, |photos|)
  {
  }

  /** A dot click lands on its photo in one settle, however far away it is. */
  lemma JumpThenSettle(s: State, photos: seq<Photo>, k: int)
    requires Inv(s, photos) && !s.isFlipping && 0 <= k < |photos| && k != s.currentIndex
    ensures Jump(s, k).currentIndex == s.currentIndex
    ensures Settle(Jump(s, k)).currentIndex == k
    ensures !Settle(Jump(s, k)).isFlipping && Settle(Jump(s, k)).timers == []
    ensures Inv(Settle(Jump(s, k)), photos)
    ensures CurrentPhoto(Settle(Jump(s, k)), photos) == photos[k]
    ensures Position(Settle(Jump(s, k)), photos) == (k + 1, |photos|)
  {
  }

  /** "Next" at the last photo is a no-op, and so is "previous" at the first. */
  lemma EdgesAreNoOps(s: State, photos: seq<Photo>)
    ensures s.currentIndex == |photos| - 1 ==> GoToNext(s, photos) == s
    ensures s.currentIndex == 0 ==> GoToPrev(s) == s
  {
  }

  /**
   "Next" then, before the callback, "previous": the second intent is
   dropped, and after the callback exactly the first index change happened.
   */
  lemma NextThenPrevBeforeSettle(s: State, photos: seq<Photo>)
    requires Inv(s, photos) && !s.isFlipping && s.currentIndex < |photos| - 1
    ensures GoToPrev(GoToNext(s, photos)) == GoToNext(s, photos)
    ensures Settle(GoToPrev(GoToNext(s, photos))).currentIndex == s.currentIndex + 1
  {
  }

  /** "Next", its callback, "previous", its callback: back on the starting photo, idle. */
  lemma NextPrevRoundTrip(s: State, photos: seq<Photo>)
    requires Inv(s, photos) && !s.isFlipping && s.currentIndex < |photos| - 1
    ensures Settle(GoToPrev(Settle(GoToNext(s, photos)))).currentIndex == s.currentIndex
    ensures Settle(GoToPrev(Settle(GoToNext(s, photos)))).timers == []
  {
    NextThenSettle(s, photos);
  }

  /**
   Closing does not cancel a pending callback: it still moves the index while
   the viewer is hidden, and reopening shows the moved index rather than the
   one the viewer was first mounted with.
   */
  lemma CloseDoesNotCancel(s: State, photos: seq<Photo>)
    requires Inv(s, photos) && s.isOpen && !s.isFlipping && s.currentIndex < |photos| - 1
    ensures Run(s, photos, [NextButton, CloseButton]).timers == [s.currentIndex + 1]
    ensures Run(s, photos, [NextButton, CloseButton, TimerFires, Open]).currentIndex == s.currentIndex + 1
    ensures Run(s, photos, [NextButton, CloseButton, TimerFires, Open]).isOpen
  {
  }

  /** Keys other than the three bound ones leave the state untouched. */
  lemma UnboundKeyIgnored(s: State, photos: seq<Photo>, key: string)
    requires key != "ArrowRight" && key != "ArrowLeft" && key != "Escape"
    ensures Step(s, photos, KeyDown(key)) == s
  {
  }

  /** The arrow keys are the chevrons and Escape is the close control. */
  lemma KeysMatchButtons(s: State, photos: seq<Photo>)
    ensures Step(s, photos, KeyDown("ArrowRight")) == Step(s, photos, NextButton)
    ensures Step(s, photos, KeyDown("ArrowLeft")) == Step(s, photos, PrevButton)
    ensures Step(s, photos, KeyDown("Escape")) == Step(s, photos, CloseButton)
  {
  }

  // ---------------------------------------------------------------------
  // A three-photo walk-through

  function Sample(): seq<Photo>
  {
    [Photo(1, "A", "a.jpg"), Photo(2, "B", "b.jpg"), Photo(3, "C", "c.jpg")]
  }

  /**
   Opening three photos without an `initialIndex` shows the first as 1 of 3;
   one "next" and its callback show 2 of 3.
   */
  lemma SampleNext()
    ensures CurrentPhoto(Mount(true), Sample()).title == "A"
    ensures Position(Mount(true), Sample()) == (1, 3)
    ensures Run(Mount(true), Sample(), [NextButton]).isFlipping
    ensures Run(Mount(true), Sample(), [NextButton, TimerFires]).currentIndex == 1
    ensures Position(Run(Mount(true), Sample(), [NextButton, TimerFires]), Sample()) == (2, 3)
  {
  }

  /** On the last of three photos "next" does nothing; a jump from the first to the last flips forward. */
  lemma SampleEdgesAndJump()
    ensures Run(Mount(true, 2), Sample(), [NextButton]) == Mount(true, 2)
    ensures Run(Mount(true), Sample(), [Dot(2)]).flipDirection == Next
    ensures Run(Mount(true), Sample(), [Dot(2), TimerFires]).currentIndex == 2
  {
  }
}

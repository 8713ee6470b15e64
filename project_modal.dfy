/** The state behind the project detail modal: which gallery image is shown, the
    loading gate raised for a settling delay after opening, the document keydown
    listener and the swipe and carousel inputs that move the image index. */
module ProjectModal {
  import opened Wrappers

  // ---------------------------------------------------------------------------
  // Pure step functions: the `prev => ...` updaters handed to setCurrentImageIndex
  // ---------------------------------------------------------------------------

  /** The index after `index` in a gallery of `count` images (swipe left, ArrowRight). */
  function Next(index: int, count: nat): (r: int)
    ensures r == index + 1 || (r == 0 && index >= count - 1)
  {
    if index < count - 1 then index + 1 else 0
  }

  /** The index before `index` in a gallery of `count` images (swipe right, ArrowLeft). */
  function Previous(index: int, count: nat): (r: int)
    ensures r == index - 1 || (r == count - 1 && index <= 0)
  {
    if index > 0 then index - 1 else count - 1
  }

  /** `Next` applied `steps` times. */
  function NextTimes(index: int, count: nat, steps: nat): int
  {
    if steps == 0 then index else Next(NextTimes(index, count, steps - 1), count)
  }

  lemma NextIsSuccessorModulo(index: int, count: nat)
    requires 0 <= index < count
    ensures Next(index, count) == (index + 1) % count
    ensures 0 <= Next(index, count) < count
  {
  }

  lemma PreviousIsPredecessorModulo(index: int, count: nat)
    requires 0 <= index < count
    ensures Previous(index, count) == (index - 1 + count) % count
    ensures 0 <= Previous(index, count) < count
  {
  }

  /** Next and Previous undo each other on every valid index. */
  lemma NextPreviousInverse(index: int, count: nat)
    requires 0 <= index < count
    ensures Previous(Next(index, count), count) == index
    ensures Next(Previous(index, count), count) == index
  {
  }

  /** From -1 (what Previous leaves behind on an empty gallery) or any valid index,
      one step in either direction lands in range once the gallery has images. */
  lemma StepRecoversRange(index: int, count: nat)
    requires 1 <= count && -1 <= index < count
    ensures 0 <= Next(index, count) < count
    ensures 0 <= Previous(index, count) < count
  {
  }

  /** After `steps <= count` steps forward the index has advanced by `steps`, wrapping once. */
  lemma {:induction false} NextTimesAdvances(index: int, count: nat, steps: nat)
    requires 0 <= index < count && steps <= count
    ensures NextTimes(index, count, steps)
            == if index + steps < count then index + steps else index + steps - count
  {
    if steps > 0 {
      NextTimesAdvances(index, count, steps - 1);
    }
  }

  /** Going forward once per image comes back to the starting image. */
  lemma FullCycleReturns(index: int, count: nat)
    requires 0 <= index < count
    ensures NextTimes(index, count, count) == index
    ensures forall k :: 0 < k < count ==> NextTimes(index, count, k) != index
  {
    NextTimesAdvances(index, count, count);
    forall k | 0 < k < count
      ensures NextTimes(index, count, k) != index
    {
      NextTimesAdvances(index, count, k);
    }
  }

  /** Three images, starting at the first: forward steps visit 1, 2, 0. */
  lemma ThreeImageCycle()
    ensures NextTimes(0, 3, 1) == 1 && NextTimes(0, 3, 2) == 2 && NextTimes(0, 3, 3) == 0
  {
  }

  /** On an empty gallery, Next writes 0 but Previous writes `images.length - 1`, i.e. -1,
      which no image has: the range invariant needs at least one image. */
  lemma EmptyGallery(index: int)
    requires index >= -1
    ensures Next(index, 0) == 0
    ensures Previous(0, 0) == -1 && Previous(-1, 0) == -1
  {
  }

  /** An index left over from a larger gallery (the index is not reset when the project
      changes) is not pulled back into range by stepping backwards: Previous walks down
      one image at a time. Stepping forwards wraps to 0 at once. */
  lemma {:induction false} StaleIndexWalksDown(index: int, count: nat, steps: nat)
    requires 1 <= count <= index - steps
    ensures PreviousTimes(index, count, steps) == index - steps
    ensures Next(index, count) == 0
  {
    if steps > 0 {
      StaleIndexWalksDown(index, count, steps - 1);
    }
  }

  /** `Previous` applied `steps` times. */
  function PreviousTimes(index: int, count: nat, steps: nat): int
  {
    if steps == 0 then index else Previous(PreviousTimes(index, count, steps - 1), count)
  }

  /** Five images, ArrowLeft from the first gives 4; switching to a two-image project
      keeps 4, the counter reads "5 / 2", and a further ArrowLeft gives 3, still no image. */
  lemma StaleIndexAfterProjectSwitch()
    ensures HandleKeyDown(ArrowLeft, true, Some(5), 0).index == 4
    ensures Counter(4, 2) == CounterText(5, 2)
    ensures HandleKeyDown(ArrowLeft, true, Some(2), 4).index == 3
    ensures !(0 <= HandleKeyDown(ArrowLeft, true, Some(2), 4).index < 2)
  {
  }

  // ---------------------------------------------------------------------------
  // Input handlers as functions of the state they read
  // ---------------------------------------------------------------------------

  /** The two swipe gestures the swipe recogniser reports. */
  datatype Swipe = SwipedLeft | SwipedRight

  /** The swipe handlers: guarded only by the presence of a project, never by `isOpen`. */
  function HandleSwipe(swipe: Swipe, project: Option<nat>, index: int): (r: int)
    ensures project.None? ==> r == index
    ensures project.Some? && swipe == SwipedLeft ==> r == Next(index, project.value)
    ensures project.Some? && swipe == SwipedRight ==> r == Previous(index, project.value)
    ensures project.Some? && 0 <= index < project.value ==> 0 <= r < project.value
  {
    match project
    case None => index
    case Some(count) =>
      match swipe
      case SwipedLeft => Next(index, count)
      case SwipedRight => Previous(index, count)
  }

  /** What one keydown does: the image index it leaves and whether it called `onClose`. */
  datatype KeyOutcome = KeyOutcome(index: int, closeRequested: bool)

  const Escape: string := "Escape"
  const ArrowLeft: string := "ArrowLeft"
  const ArrowRight: string := "ArrowRight"

  /** `handleKeyDown` over the `isOpen` and `project` its closure captured. */
  function HandleKeyDown(key: string, isOpen: bool, project: Option<nat>, index: int): (out: KeyOutcome)
    ensures !isOpen || project.None? ==> out == KeyOutcome(index, false)
    ensures out.closeRequested <==> isOpen && project.Some? && key == Escape
    ensures out.index != index ==> isOpen && project.Some? && (key == ArrowLeft || key == ArrowRight)
    ensures isOpen && project.Some? && key == ArrowRight ==> out.index == Next(index, project.value)
    ensures isOpen && project.Some? && key == ArrowLeft ==> out.index == Previous(index, project.value)
    ensures isOpen && project.Some? && 0 <= index < project.value ==> 0 <= out.index < project.value
  {
    if !isOpen || project.None? then KeyOutcome(index, false)
    else if key == Escape then KeyOutcome(index, true)
    else if key == ArrowLeft then KeyOutcome(Previous(index, project.value), false)
    else if key == ArrowRight then KeyOutcome(Next(index, project.value), false)
    else KeyOutcome(index, false)
  }

  /** The arrow keys and the swipes share one updater each: ArrowRight is a left swipe,
      ArrowLeft a right swipe, whenever the modal is open (and without a project neither moves). */
  lemma ArrowKeysMatchSwipes(project: Option<nat>, index: int)
    ensures HandleKeyDown(ArrowRight, true, project, index).index == HandleSwipe(SwipedLeft, project, index)
    ensures HandleKeyDown(ArrowLeft, true, project, index).index == HandleSwipe(SwipedRight, project, index)
  {
  }

  /** While the modal is closed the key handler does nothing, but the swipe handler still
      moves the index: it tests only the project. (Whether a swipe can reach it at all is
      decided by what is rendered, see `ModalController.Swiped`.) */
  lemma SwipeNotGatedOnOpen(count: nat, index: int)
    requires 2 <= count && 0 <= index < count
    ensures HandleKeyDown(ArrowRight, false, Some(count), index).index == index
    ensures HandleSwipe(SwipedLeft, Some(count), index) != index
    ensures HandleKeyDown(ArrowLeft, false, Some(count), index).index == index
    ensures HandleSwipe(SwipedRight, Some(count), index) != index
  {
  }

  /** The "position / total" counter under the carousel. */
  datatype CounterText = CounterText(position: int, total: nat)

  function Counter(index: int, count: nat): (shown: CounterText)
    ensures shown.total == count
    ensures 0 <= index < count <==> 1 <= shown.position <= shown.total
    ensures shown.position - 1 == index
  {
    CounterText(index + 1, count)
  }

  /** The phases of the overlay: closed, open behind the loading spinner, open and interactive. */
  datatype Phase = Closed | Opening | Open

  // ---------------------------------------------------------------------------
  // The component instance
  // ---------------------------------------------------------------------------

  /** A keydown handler registered on the document, with the props its closure captured. */
  datatype KeyListener = KeyListener(id: nat, isOpen: bool, project: Option<nat>)

  /** One mounted ProjectModal: its props, its two state cells and the browser resources
      (document listener, settling timer) its effects hold. A project is represented by
      its number of images. */
  class ModalController {
    var project: Option<nat>
    var isOpen: bool
    var currentImageIndex: int
    var isLoading: bool
    /** The `handleKeyDown` closure the keydown effect registered last. */
    var keyListener: Option<KeyListener>
    /** Ids of the keydown listeners this component has on the document. */
    var documentListeners: set<nat>
    /** The id of the settling timer that has been armed and not cleared. */
    var pendingTimer: Option<nat>
    /** Source of fresh listener and timer ids. */
    var nextId: nat
    var mounted: bool

    ghost predicate Valid()
      reads this
    {
      // exactly one keydown handler while mounted, and it sees the current props
      && (mounted <==> keyListener.Some?)
      && (keyListener.Some? ==>
            keyListener.value.isOpen == isOpen && keyListener.value.project == project
            && keyListener.value.id < nextId)
      && documentListeners == (if keyListener.Some? then {keyListener.value.id} else {})
      // a settling timer is pending only while mounted and open
      && (pendingTimer.Some? ==> mounted && isOpen && pendingTimer.value < nextId)
      // while open, the loading gate is up exactly as long as the timer is pending
      && (mounted && isOpen ==> (isLoading <==> pendingTimer.Some?))
    }

    function Phase(): Phase
      reads this
    {
      if !isOpen then Closed else if isLoading then Opening else Open
    }

    /** The content branch, with the swipe area and the carousel inside it, is rendered only
        for a project once loading is over. */
    predicate ContentRendered()
      reads this
    {
      mounted && project.Some? && !isLoading
    }

    /** First render and the effects that follow it. */
    constructor (project: Option<nat>, isOpen: bool)
      ensures Valid() && mounted
      ensures this.project == project && this.isOpen == isOpen
      ensures currentImageIndex == 0 && isLoading
      ensures |documentListeners| == 1
      ensures pendingTimer.Some? <==> isOpen
      ensures Phase() == if isOpen then Opening else Closed
    {
      this.project := project;
      this.isOpen := isOpen;
      currentImageIndex := 0;
      isLoading := true;
      // keydown effect
      keyListener := Some(KeyListener(0, isOpen, project));
      documentListeners := {0};
      // loading effect
      pendingTimer := if isOpen then Some(1) else None;
      nextId := 2;
      mounted := true;
    }

    /** A re-render with new props, followed by the effects whose dependencies changed. */
    method SetProps(newProject: Option<nat>, newIsOpen: bool)
      requires Valid() && mounted
      modifies this
      ensures Valid() && mounted
      ensures project == newProject && isOpen == newIsOpen
      ensures currentImageIndex == old(currentImageIndex)
      ensures |documentListeners| == 1
      ensures newIsOpen == old(isOpen) ==> pendingTimer == old(pendingTimer) && isLoading == old(isLoading)
      ensures !newIsOpen ==> pendingTimer.None? && isLoading == old(isLoading)
      ensures newIsOpen && !old(isOpen) ==>
                isLoading && pendingTimer.Some? && pendingTimer.value >= old(nextId)
    {
      var depsChanged := newProject != project || newIsOpen != isOpen;
      var openChanged := newIsOpen != isOpen;
      project, isOpen := newProject, newIsOpen;
      if depsChanged {
        // the cleanup removes the old handler, then the new closure is added
        documentListeners := documentListeners - {keyListener.value.id};
        keyListener := Some(KeyListener(nextId, isOpen, project));
        documentListeners := documentListeners + {nextId};
        nextId := nextId + 1;
      }
      if openChanged {
        // the previous run's cleanup clears its timer (a closed run armed none)
        pendingTimer := None;
        if isOpen {
          isLoading := true;
          pendingTimer := Some(nextId);
          nextId := nextId + 1;
        }
      }
    }

    /** A timer callback runs; only the one still armed has any effect. */
    method FireTimer(id: nat)
      requires Valid()
      modifies this
      ensures Valid()
      ensures old(pendingTimer) == Some(id) ==> !isLoading && pendingTimer.None?
      ensures old(pendingTimer) != Some(id) ==> isLoading == old(isLoading) && pendingTimer == old(pendingTimer)
      ensures old(isOpen) && old(pendingTimer) == Some(id) ==> Phase() == Open
      ensures project == old(project) && isOpen == old(isOpen) && currentImageIndex == old(currentImageIndex)
      ensures keyListener == old(keyListener) && documentListeners == old(documentListeners)
      ensures nextId == old(nextId) && mounted == old(mounted)
    {
      if pendingTimer == Some(id) {
        isLoading := false;
        pendingTimer := None;
      }
    }

    /** A keydown reaches the registered handler, if any; returns whether `onClose` was called. */
    method KeyDown(key: string) returns (closeRequested: bool)
      requires Valid()
      modifies this`currentImageIndex
      ensures Valid()
      ensures keyListener.None? ==> !closeRequested && currentImageIndex == old(currentImageIndex)
      ensures keyListener.Some? ==>
                KeyOutcome(currentImageIndex, closeRequested)
                == HandleKeyDown(key, isOpen, project, old(currentImageIndex))
    {
      closeRequested := false;
      if keyListener.Some? {
        var listener := keyListener.value;
        var outcome := HandleKeyDown(key, listener.isOpen, listener.project, currentImageIndex);
        currentImageIndex := outcome.index;
        closeRequested := outcome.closeRequested;
      }
    }

    /** A swipe on the carousel area. The area exists only while the content is rendered,
        so no swipe reaches the handlers while the loading gate is up. */
    method Swiped(swipe: Swipe)
      requires Valid()
      modifies this`currentImageIndex
      ensures Valid()
      ensures ContentRendered() ==> currentImageIndex == HandleSwipe(swipe, project, old(currentImageIndex))
      ensures !ContentRendered() ==> currentImageIndex == old(currentImageIndex)
    {
      if ContentRendered() {
        currentImageIndex := HandleSwipe(swipe, project, currentImageIndex);
      }
    }

    /** The carousel reports its API object; the selected snap overwrites the index. */
    method SetApi(selectedSnap: Option<int>)
      requires Valid()
      modifies this`currentImageIndex
      ensures Valid()
      ensures ContentRendered() && selectedSnap.Some? ==> currentImageIndex == selectedSnap.value
      ensures !(ContentRendered() && selectedSnap.Some?) ==> currentImageIndex == old(currentImageIndex)
    {
      if ContentRendered() && selectedSnap.Some? {
        currentImageIndex := selectedSnap.value;
      }
    }

    /** Teardown: both effects' cleanups run. */
    method Unmount()
      requires Valid() && mounted
      modifies this
      ensures Valid() && !mounted
      ensures documentListeners == {} && pendingTimer.None?
      ensures currentImageIndex == old(currentImageIndex) && isLoading == old(isLoading)
    {
      documentListeners := documentListeners - {keyListener.value.id};
      keyListener := None;
      pendingTimer := None;
      mounted := false;
    }
  }

  /** Three images: open, let the timer fire, press ArrowRight three times. */
  method ThreeImageScenario()
  {
    var modal := new ModalController(Some(3), false);
    modal.SetProps(Some(3), true);
    assert modal.Phase() == Opening && modal.currentImageIndex == 0;
    var timer := modal.pendingTimer.value;
    modal.FireTimer(timer);
    assert modal.Phase() == Open;
    var closed := modal.KeyDown(ArrowRight);
    assert modal.currentImageIndex == 1;
    closed := modal.KeyDown(ArrowRight);
    assert modal.currentImageIndex == 2;
    closed := modal.KeyDown(ArrowRight);
    assert modal.currentImageIndex == 0 && !closed;
    closed := modal.KeyDown(Escape);
    assert closed && modal.currentImageIndex == 0;
    modal.SetProps(Some(3), false);
    modal.FireTimer(timer);
    assert modal.Phase() == Closed;
    modal.Unmount();
    assert modal.documentListeners == {} && modal.pendingTimer.None?;
  }

  /** A swipe while the loading gate is up does not move the index. */
  method SwipeWhileLoadingScenario()
  {
    var modal := new ModalController(Some(3), true);
    modal.Swiped(SwipedLeft);
    assert modal.Phase() == Opening && modal.currentImageIndex == 0;
    modal.FireTimer(modal.pendingTimer.value);
    modal.Swiped(SwipedLeft);
    assert modal.currentImageIndex == 1;
  }

  /** Switching to a smaller project keeps the index, which can then name no image. */
  method StaleIndexScenario()
  {
    var modal := new ModalController(Some(5), true);
    modal.FireTimer(modal.pendingTimer.value);
    var closed := modal.KeyDown(ArrowLeft);
    assert modal.currentImageIndex == 4;
    modal.SetProps(Some(2), true);
    assert modal.currentImageIndex == 4 && modal.Phase() == Open;
    closed := modal.KeyDown(ArrowLeft);
    assert modal.currentImageIndex == 3 && !(0 <= modal.currentImageIndex < 2);
  }
}

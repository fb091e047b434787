/** The corner-placement controller of the floating panel. The panel sits in one
    of four screen corners (0 bottom-left, 1 top-left, 2 top-right, 3
    bottom-right), starting top-left; a hover advances it one corner clockwise
    unless a move is in progress. An animated move locks further hovers; the
    lock is released only by the cooldown that follows the animation's end.
    Animation completion and cooldown expiry, which the app receives as
    deferred callbacks, are explicit events here. The screen frame a move
    targets is an input (`None` when no screen can be resolved). */
module WindowManager {
  import opened Wrappers
  import opened Config
  import Settings

  /** A point in screen coordinates, origin bottom-left. */
  datatype Point = Point(x: int, y: int)

  /** The visible frame of a screen. */
  datatype Rect = Rect(minX: int, minY: int, maxX: int, maxY: int)

  /** The corner a hover moves to from corner `i`. */
  function NextCorner(i: int): (j: int)
    requires 0 <= i < 4
    ensures 0 <= j < 4
    ensures j == if i == 3 then 0 else i + 1
  {
    (i + 1) % 4
  }

  /** Four hovers bring the panel back to where it started. */
  lemma FourAdvancesReturn(i: int)
    requires 0 <= i < 4
    ensures NextCorner(NextCorner(NextCorner(NextCorner(i)))) == i
  {}

  /** `calculateCornerPosition`: the panel's origin in corner `index`. The panel
      keeps exactly the screen padding to the two screen edges of its corner. */
  function CornerPosition(index: int, screen: Rect, cityCount: int): (p: Point)
    requires 0 <= index < 4
    ensures index == 0 || index == 1 ==> p.x - screen.minX == ScreenPadding
    ensures index == 2 || index == 3 ==> screen.maxX - (p.x + WindowWidth) == ScreenPadding
    ensures index == 0 || index == 3 ==> p.y - screen.minY == ScreenPadding
    ensures index == 1 || index == 2 ==> screen.maxY - (p.y + WindowHeight(cityCount)) == ScreenPadding
  {
    var height := WindowHeight(cityCount);
    var positions := [
      Point(screen.minX + ScreenPadding, screen.minY + ScreenPadding),
      Point(screen.minX + ScreenPadding, screen.maxY - height - ScreenPadding),
      Point(screen.maxX - WindowWidth - ScreenPadding, screen.maxY - height - ScreenPadding),
      Point(screen.maxX - WindowWidth - ScreenPadding, screen.minY + ScreenPadding)
    ];
    positions[index]
  }

  lemma CornerPositionExamples()
    ensures CornerPosition(1, Rect(0, 0, 1920, 1080), 4) == Point(40, 886)
    ensures CornerPosition(2, Rect(0, 0, 1920, 1080), 4) == Point(1580, 886)
    ensures CornerPosition(1, Rect(0, 0, 1920, 1080), 3) == Point(40, 928)
    ensures CornerPosition(2, Rect(0, 0, 1920, 1080), 3) == Point(1580, 928)
    ensures CornerPosition(0, Rect(0, 0, 1920, 1080), 4) == Point(40, 40)
    ensures CornerPosition(3, Rect(0, 0, 1920, 1080), 4) == Point(1580, 40)
  {}

  /** The frame a move targets: the preferred screen's, else the main screen's. */
  function TargetFrame(preferredScreenIndex: int, screens: seq<Rect>, main: Option<Rect>): (r: Option<Rect>)
    ensures 0 <= preferredScreenIndex < |screens| ==> r == Some(screens[preferredScreenIndex])
    ensures !(0 <= preferredScreenIndex < |screens|) ==> r == main
    ensures r.None? <==> main.None? && !(0 <= preferredScreenIndex < |screens|)
  {
    match Settings.PreferredScreen(preferredScreenIndex, screens, main)
    case Some(frame) => Some(frame)
    case None => main
  }

  class WindowManager {
    /** The current corner, 0 to 3. */
    var currentCornerIndex: int
    /** The debounce lock. */
    var isMoving: bool
    /** Number of rows the panel is sized for. */
    const cityCount: int
    /** Whether the panel window exists, whether it is on screen, and its origin. */
    var hasWindow: bool
    var visible: bool
    var origin: Point
    /** Animations whose completion has not been reported yet. */
    var pendingAnimations: nat
    /** Cooldowns scheduled by a completed animation that have not expired yet. */
    var pendingCooldowns: nat

    /** The corner is always one of the four, and the lock is only held while
        some animation or cooldown is still outstanding to release it. */
    ghost predicate Valid()
      reads this
    {
      && 0 <= currentCornerIndex < 4
      && (isMoving ==> pendingAnimations + pendingCooldowns > 0)
    }

    constructor(cityCount: int)
      ensures Valid()
      ensures this.cityCount == cityCount
      ensures currentCornerIndex == 1 && !isMoving
      ensures !hasWindow && pendingAnimations == 0 && pendingCooldowns == 0
    {
      this.cityCount := cityCount;
      currentCornerIndex := 1;
      isMoving := false;
      hasWindow := false;
      visible := false;
      origin := Point(0, 0);
      pendingAnimations := 0;
      pendingCooldowns := 0;
    }

    /** `createWindow`: a new panel at the origin, placed without animation in
        the current corner, then shown. */
    method CreateWindow(screen: Option<Rect>)
      requires Valid()
      modifies this
      ensures Valid()
      ensures hasWindow && visible
      ensures currentCornerIndex == old(currentCornerIndex)
      ensures pendingAnimations == old(pendingAnimations) && pendingCooldowns == old(pendingCooldowns)
      ensures screen.Some? ==> !isMoving && origin == CornerPosition(currentCornerIndex, screen.value, cityCount)
      ensures screen.None? ==> isMoving == old(isMoving) && origin == Point(0, 0)
    {
      hasWindow := true;
      visible := false;
      origin := Point(0, 0);
      MoveToCorner(false, screen);
      visible := true;
    }

    /** `handleMouseEnter` / `moveToNextCorner`: ignored while a move is in
        progress; otherwise the corner advances first, and then the panel is
        moved there with animation if a window and a screen are available. */
    method MoveToNextCorner(screen: Option<Rect>)
      requires Valid()
      modifies this
      ensures Valid()
      ensures hasWindow == old(hasWindow) && visible == old(visible)
      ensures old(isMoving) ==>
        && currentCornerIndex == old(currentCornerIndex) && isMoving
        && origin == old(origin)
        && pendingAnimations == old(pendingAnimations) && pendingCooldowns == old(pendingCooldowns)
      ensures !old(isMoving) ==> currentCornerIndex == NextCorner(old(currentCornerIndex))
      ensures !old(isMoving) && hasWindow && screen.Some? ==>
        && isMoving
        && origin == CornerPosition(currentCornerIndex, screen.value, cityCount)
        && pendingAnimations == old(pendingAnimations) + 1 && pendingCooldowns == old(pendingCooldowns)
      ensures !old(isMoving) && !(hasWindow && screen.Some?) ==>
        && !isMoving && origin == old(origin)
        && pendingAnimations == old(pendingAnimations) && pendingCooldowns == old(pendingCooldowns)
    {
      if isMoving {
        return;
      }
      currentCornerIndex := NextCorner(currentCornerIndex);
      MoveToCorner(true, screen);
    }

    /** `moveToCorner`: without a window or a screen nothing happens; otherwise
        the lock is taken and the panel is placed in the current corner. An
        animated placement keeps the lock and starts an animation; a direct
        one releases the lock at once. */
    method MoveToCorner(animated: bool, screen: Option<Rect>)
      requires Valid()
      modifies this
      ensures Valid()
      ensures currentCornerIndex == old(currentCornerIndex)
      ensures hasWindow == old(hasWindow) && visible == old(visible)
      ensures !(hasWindow && screen.Some?) ==>
        && isMoving == old(isMoving) && origin == old(origin)
        && pendingAnimations == old(pendingAnimations) && pendingCooldowns == old(pendingCooldowns)
      ensures hasWindow && screen.Some? ==>
        && origin == CornerPosition(currentCornerIndex, screen.value, cityCount)
        && isMoving == animated
        && pendingAnimations == old(pendingAnimations) + (if animated then 1 else 0)
        && pendingCooldowns == old(pendingCooldowns)
    {
      if !hasWindow {
        return;
      }
      if screen.None? {
        return;
      }
      isMoving := true;
      var position := CornerPosition(currentCornerIndex, screen.value, cityCount);
      if animated {
        origin := position;
        pendingAnimations := pendingAnimations + 1;
      } else {
        origin := position;
        isMoving := false;
      }
    }

    /** `handleAnimationComplete`: schedules the cooldown; the lock stays. */
    method AnimationComplete()
      requires Valid() && pendingAnimations > 0
      modifies this
      ensures Valid()
      ensures pendingAnimations == old(pendingAnimations) - 1
      ensures pendingCooldowns == old(pendingCooldowns) + 1
      ensures isMoving == old(isMoving) && currentCornerIndex == old(currentCornerIndex)
      ensures origin == old(origin) && hasWindow == old(hasWindow) && visible == old(visible)
    {
      pendingAnimations := pendingAnimations - 1;
      pendingCooldowns := pendingCooldowns + 1;
    }

    /** The cooldown timer fires: the lock is released. */
    method CooldownElapsed()
      requires Valid() && pendingCooldowns > 0
      modifies this
      ensures Valid()
      ensures pendingCooldowns == old(pendingCooldowns) - 1
      ensures pendingAnimations == old(pendingAnimations)
      ensures !isMoving && currentCornerIndex == old(currentCornerIndex)
      ensures origin == old(origin) && hasWindow == old(hasWindow) && visible == old(visible)
    {
      pendingCooldowns := pendingCooldowns - 1;
      isMoving := false;
    }

    /** `showWindow`: brings an existing panel on screen. */
    method ShowWindow()
      modifies this
      ensures visible == (old(visible) || hasWindow)
      ensures hasWindow == old(hasWindow) && origin == old(origin)
      ensures currentCornerIndex == old(currentCornerIndex) && isMoving == old(isMoving)
      ensures pendingAnimations == old(pendingAnimations) && pendingCooldowns == old(pendingCooldowns)
    {
      if hasWindow {
        visible := true;
      }
    }

    /** `hideWindow`: takes an existing panel off screen. */
    method HideWindow()
      modifies this
      ensures visible == (old(visible) && !hasWindow)
      ensures hasWindow == old(hasWindow) && origin == old(origin)
      ensures currentCornerIndex == old(currentCornerIndex) && isMoving == old(isMoving)
      ensures pendingAnimations == old(pendingAnimations) && pendingCooldowns == old(pendingCooldowns)
    {
      if hasWindow {
        visible := false;
      }
    }

    /** `toggleWindow`: hides a visible panel and shows one that is not. */
    method ToggleWindow()
      modifies this
      ensures hasWindow ==> visible == !old(visible)
      ensures !hasWindow ==> visible == old(visible)
      ensures hasWindow == old(hasWindow) && origin == old(origin)
      ensures currentCornerIndex == old(currentCornerIndex) && isMoving == old(isMoving)
      ensures pendingAnimations == old(pendingAnimations) && pendingCooldowns == old(pendingCooldowns)
    {
      if hasWindow && visible {
        HideWindow();
      } else {
        ShowWindow();
      }
    }

    /** `updateWindowPosition` (on a change of preferred screen): re-places the
        panel in the current corner with animation. It neither advances the
        corner nor looks at the lock. */
    method UpdateWindowPosition(screen: Option<Rect>)
      requires Valid()
      modifies this
      ensures Valid()
      ensures currentCornerIndex == old(currentCornerIndex)
      ensures hasWindow && screen.Some? ==>
        && isMoving
        && origin == CornerPosition(currentCornerIndex, screen.value, cityCount)
        && pendingAnimations == old(pendingAnimations) + 1
      ensures hasWindow == old(hasWindow) && visible == old(visible)
      ensures pendingCooldowns == old(pendingCooldowns)
      ensures !(hasWindow && screen.Some?) ==>
        isMoving == old(isMoving) && origin == old(origin) && pendingAnimations == old(pendingAnimations)
    {
      MoveToCorner(true, screen);
    }
  }

  /** A run of events: start-up, a hover, a hover during the move (dropped),
      the animation's end (still locked), a hover during the cooldown
      (dropped), the cooldown's end, and a hover that goes through. The
      corner after each step shows that the lock drops hovers from the start
      of an animated move until its cooldown ends. */
  method HoverDebounceScenario(screen: Rect) returns (corners: seq<int>, locks: seq<bool>, finalOrigin: Point)
    ensures corners == [1, 2, 2, 2, 2, 2, 3]
    ensures locks == [false, true, true, true, true, false, true]
    ensures finalOrigin == CornerPosition(3, screen, 4)
  {
    var m := new WindowManager(4);
    m.CreateWindow(Some(screen));
    corners, locks := [m.currentCornerIndex], [m.isMoving];
    m.MoveToNextCorner(Some(screen));
    corners, locks := corners + [m.currentCornerIndex], locks + [m.isMoving];
    m.MoveToNextCorner(Some(screen));
    corners, locks := corners + [m.currentCornerIndex], locks + [m.isMoving];
    m.AnimationComplete();
    corners, locks := corners + [m.currentCornerIndex], locks + [m.isMoving];
    m.MoveToNextCorner(Some(screen));
    corners, locks := corners + [m.currentCornerIndex], locks + [m.isMoving];
    m.CooldownElapsed();
    corners, locks := corners + [m.currentCornerIndex], locks + [m.isMoving];
    m.MoveToNextCorner(Some(screen));
    corners, locks := corners + [m.currentCornerIndex], locks + [m.isMoving];
    finalOrigin := m.origin;
  }
}

/**
 * The state machine inside the event handlers of `NamePickerApp`
 * (chouyipaoming.py): picking a name with no immediate repeat, dragging the
 * window within the screen, and sliding it to the top edge after 15 seconds
 * without activity. Clock readings are integer milliseconds passed in; the
 * random draws are a sequence of indices passed in.
 */
module Picker {
  import opened Wrappers
  import NameSource

  /** Inactivity, in milliseconds, after which the window slides away. */
  const IdleTimeoutMs := 15000
  /** The fixed window size set in the constructor. */
  const WindowWidth := 150
  const WindowHeight := 100
  /** The slide's target y, which is also the least y a drag may reach. */
  const TopEdge := -85
  /** The y change of one slide step. */
  const SlideDelta := -30
  /** The label text once the slide has finished. */
  const ClearedLabel := "\U{FF1F}\U{FF1F}\U{FF1F}"

  datatype MouseButton = LeftButton | RightButton | MiddleButton

  /** How the rejection loop of `show_random_name_with_animation` ends:
      with a name, by `random.choice` raising on an empty list, or not yet:
      every draw given repeated the last name and the loop keeps drawing. */
  datatype PickOutcome = Picked(name: string) | EmptyList | StillDrawing

  function Min(a: int, b: int): int { if a <= b then a else b }
  function Max(a: int, b: int): int { if a >= b then a else b }
  function Dist(a: int, b: int): nat { if a >= b then a - b else b - a }

  /** Every draw is an index `random.choice` could return for `names`. */
  predicate ValidDraws(names: seq<string>, draws: seq<nat>) {
    forall k :: 0 <= k < |draws| ==> draws[k] < |names|
  }

  /** The outcome of the rejection loop when `random.choice` returns the
      indices `draws` in turn: the first drawn name that differs from `last`. */
  function Pick(names: seq<string>, last: Option<string>, draws: seq<nat>): (r: PickOutcome)
    requires ValidDraws(names, draws)
    ensures r.Picked? ==> r.name in names && last != Some(r.name)
    ensures r.EmptyList? <==> names == []
  {
    if names == [] then EmptyList
    else if draws == [] then StillDrawing
    else if Some(names[draws[0]]) != last then Picked(names[draws[0]])
    else Pick(names, last, draws[1..])
  }

  /** The loop ends with a name exactly when some draw hits a name other than
      the last one. */
  lemma {:induction false} PickEndsIff(names: seq<string>, last: Option<string>, draws: seq<nat>)
    requires ValidDraws(names, draws)
    ensures Pick(names, last, draws).Picked?
        <==> exists k :: 0 <= k < |draws| && Some(names[draws[k]]) != last
  {
    if draws != [] {
      PickEndsIff(names, last, draws[1..]);
      if Some(names[draws[0]]) == last {
        if exists k :: 0 <= k < |draws| && Some(names[draws[k]]) != last {
          var k :| 0 <= k < |draws| && Some(names[draws[k]]) != last;
          assert draws[1..][k - 1] == draws[k];
        }
        if exists k :: 0 <= k < |draws[1..]| && Some(names[draws[1..][k]]) != last {
          var k :| 0 <= k < |draws[1..]| && Some(names[draws[1..][k]]) != last;
          assert draws[k + 1] == draws[1..][k];
        }
      }
    }
  }

  /** The name picked is the one of the first draw that differs from `last`. */
  lemma {:induction false} PickFirstFresh(names: seq<string>, last: Option<string>, draws: seq<nat>, k: nat)
    requires ValidDraws(names, draws)
    requires k < |draws| && Some(names[draws[k]]) != last
    requires forall j :: 0 <= j < k ==> Some(names[draws[j]]) == last
    ensures Pick(names, last, draws) == Picked(names[draws[k]])
  {
    if k > 0 {
      assert Some(names[draws[0]]) == last;
      assert ValidDraws(names, draws[1..]);
      forall j | 0 <= j < k - 1 ensures Some(names[draws[1..][j]]) == last {
        assert draws[1..][j] == draws[j + 1];
      }
      PickFirstFresh(names, last, draws[1..], k - 1);
    }
  }

  /** When every listed name equals the last one (one name, picked before),
      no number of draws ends the loop: the program hangs. A corollary of
      the contract of `Pick`. */
  lemma {:induction false} PickHangsWithoutAlternative(names: seq<string>, last: Option<string>, draws: seq<nat>)
    requires names != [] && ValidDraws(names, draws)
    requires forall i :: 0 <= i < |names| ==> Some(names[i]) == last
    ensures Pick(names, last, draws) == StillDrawing
  {
  }

  /** The drag clamp of `mouseMoveEvent` on one axis: below `lo` goes to `lo`,
      otherwise above `hi` goes to `hi`. */
  function Clamp(p: int, lo: int, hi: int): (r: int)
    ensures lo <= hi ==> lo <= r <= hi
    ensures lo <= hi ==> forall q :: lo <= q <= hi ==> Dist(r, p) <= Dist(q, p)
    ensures (lo <= p <= hi) <==> r == p
    ensures hi < lo ==> r == (if p < lo then lo else hi)
  {
    if p < lo then lo else if p > hi then hi else p
  }

  /** The y position after one call of `animate_move_to_edge` while moving. */
  function NextY(y: int): (r: int)
    ensures r >= TopEdge
    ensures r == TopEdge <==> y + SlideDelta <= TopEdge
    ensures r != TopEdge ==> r == y + SlideDelta
    ensures y >= TopEdge ==> 0 <= y - r <= -SlideDelta
  {
    var n := y + SlideDelta;
    if SlideDelta > 0 then Min(n, TopEdge) else Max(n, TopEdge)
  }

  /** The y position after `k` slide steps from `y`. */
  function YAfter(y: int, k: nat): int {
    if k == 0 then y else NextY(YAfter(y, k - 1))
  }

  /** The number of calls of `animate_move_to_edge` (the first and the
      rescheduled ones) until a call lands on the edge and stops. */
  function SlideSteps(y: int): nat
    decreases if y > TopEdge then y - TopEdge else 0
  {
    if NextY(y) == TopEdge then 1 else 1 + SlideSteps(NextY(y))
  }

  /** A step after `k` steps from `y` is the `k`-th step from the next position. */
  lemma {:induction false} YAfterShift(y: int, k: nat)
    ensures YAfter(y, k + 1) == YAfter(NextY(y), k)
  {
    if k > 0 {
      YAfterShift(y, k - 1);
    }
  }

  /** The slide lands on the edge after exactly `SlideSteps(y)` steps and on no
      earlier step. */
  lemma {:induction false} SlideStopsExactlyAtEdge(y: int)
    ensures YAfter(y, SlideSteps(y)) == TopEdge
    ensures forall k :: 1 <= k < SlideSteps(y) ==> YAfter(y, k) != TopEdge
    decreases if y > TopEdge then y - TopEdge else 0
  {
    YAfterShift(y, 0);
    if NextY(y) != TopEdge {
      var n := SlideSteps(NextY(y));
      SlideStopsExactlyAtEdge(NextY(y));
      YAfterShift(y, n);
      forall k | 1 <= k < SlideSteps(y) ensures YAfter(y, k) != TopEdge {
        YAfterShift(y, k - 1);
      }
    }
  }

  /** The number of steps is ceil((y + 85) / 30), and one step when the window
      is already at or above the edge. */
  lemma {:induction false} SlideStepsClosedForm(y: int)
    ensures SlideSteps(y) == if y <= TopEdge then 1 else (y - TopEdge - SlideDelta - 1) / -SlideDelta
    decreases if y > TopEdge then y - TopEdge else 0
  {
    if NextY(y) != TopEdge {
      SlideStepsClosedForm(NextY(y));
    }
  }

  /** The picker window. `names` is the list `read_excel` returned, so none
      of its entries is blank (`NameSource.ReadNames`). */
  class NamePickerApp {
    const names: seq<string>
    const screenWidth: int
    const screenHeight: int
    var lastName: Option<string>
    var lastActivityTime: int
    var moving: bool
    /** The window's top-left corner. */
    var x: int
    var y: int
    /** The press point relative to the window's top-left corner. */
    var dragStartX: int
    var dragStartY: int
    /** The text of the result label. */
    var resultLabel: string

    /** No listed name is blank, and the last name shown comes from the list. */
    ghost predicate Valid()
      reads this
    {
      (forall k :: 0 <= k < |names| ==> !NameSource.IsBlank(names[k]))
      && (lastName.Some? ==> lastName.value in names)
    }

    /** The state `__init__` leaves: nothing picked, the activity clock at 0,
        not moving, the window centred horizontally and 75 pixels above the
        vertical centre. */
    constructor (names: seq<string>, screenWidth: nat, screenHeight: nat)
      requires forall k :: 0 <= k < |names| ==> !NameSource.IsBlank(names[k])
      ensures Valid()
      ensures this.names == names && this.screenWidth == screenWidth && this.screenHeight == screenHeight
      ensures lastName == None && lastActivityTime == 0 && !moving && resultLabel == ""
      ensures x == screenWidth / 2 - WindowWidth / 2
      ensures y == screenHeight / 2 - WindowHeight / 2 - 75
      ensures dragStartX == 0 && dragStartY == 0
    {
      this.names := names;
      this.screenWidth := screenWidth;
      this.screenHeight := screenHeight;
      lastName := None;
      lastActivityTime := 0;
      moving := false;
      dragStartX, dragStartY := 0, 0;
      x := screenWidth / 2 - WindowWidth / 2;
      y := screenHeight / 2 - WindowHeight / 2 - 75;
      resultLabel := "";
    }

    /** `mousePressEvent`: a left press records where in the window it
        happened and counts as activity; other buttons do nothing. */
    method MousePress(button: MouseButton, globalX: int, globalY: int, now: int)
      requires Valid()
      modifies this`dragStartX, this`dragStartY, this`lastActivityTime
      ensures Valid()
      ensures button == LeftButton ==>
        dragStartX == globalX - x && dragStartY == globalY - y && lastActivityTime == now
      ensures button != LeftButton ==>
        dragStartX == old(dragStartX) && dragStartY == old(dragStartY)
        && lastActivityTime == old(lastActivityTime)
      ensures lastName == old(lastName) && moving == old(moving)
    {
      if button == LeftButton {
        dragStartX, dragStartY := globalX - x, globalY - y;
        lastActivityTime := now;
      }
    }

    /** `mouseMoveEvent`: while the left button is held, move the window to
        the pointer, kept within the screen, and count it as activity. */
    method MouseMove(held: set<MouseButton>, globalX: int, globalY: int, now: int)
      requires Valid()
      modifies this`x, this`y, this`lastActivityTime
      ensures Valid()
      ensures LeftButton in held ==>
        x == Clamp(globalX - dragStartX, 0, screenWidth - WindowWidth)
        && y == Clamp(globalY - dragStartY, TopEdge, screenHeight - WindowHeight)
        && lastActivityTime == now
      ensures LeftButton in held && screenWidth >= WindowWidth && screenHeight >= WindowHeight ==>
        0 <= x <= screenWidth - WindowWidth && TopEdge <= y <= screenHeight - WindowHeight
      ensures LeftButton !in held ==>
        x == old(x) && y == old(y) && lastActivityTime == old(lastActivityTime)
      ensures lastName == old(lastName) && moving == old(moving)
    {
      if LeftButton in held {
        var newX := globalX - dragStartX;
        var newY := globalY - dragStartY;
        if newX < 0 {
          newX := 0;
        } else if newX + WindowWidth > screenWidth {
          newX := screenWidth - WindowWidth;
        }
        if newY < TopEdge {
          newY := TopEdge;
        } else if newY + WindowHeight > screenHeight {
          newY := screenHeight - WindowHeight;
        }
        x, y := newX, newY;
        lastActivityTime := now;
      }
    }

    /** `show_random_name_with_animation`: draw names until one differs from
        the last one shown, then show it and count it as activity. */
    method ShowRandomName(draws: seq<nat>, now: int) returns (outcome: PickOutcome)
      requires Valid() && ValidDraws(names, draws)
      modifies this`lastName, this`lastActivityTime, this`resultLabel
      ensures Valid()
      ensures outcome == Pick(names, old(lastName), draws)
      ensures outcome.Picked? ==>
        outcome.name in names && Some(outcome.name) != old(lastName)
        && lastName == Some(outcome.name) && resultLabel == outcome.name && lastActivityTime == now
      ensures !outcome.Picked? ==>
        lastName == old(lastName) && resultLabel == old(resultLabel) && lastActivityTime == old(lastActivityTime)
    {
      if names == [] {
        return EmptyList;
      }
      var k := 0;
      while k < |draws|
        invariant 0 <= k <= |draws|
        invariant Pick(names, lastName, draws) == Pick(names, lastName, draws[k..])
      {
        var newName := names[draws[k]];
        assert draws[k..][1..] == draws[k + 1..];
        if Some(newName) != lastName {
          resultLabel := newName;
          lastName := Some(newName);
          lastActivityTime := now;
          return Picked(newName);
        }
        k := k + 1;
      }
      return StillDrawing;
    }

    /** `clear_result`: show the cleared label and count it as activity. */
    method ClearResult(now: int)
      modifies this`resultLabel, this`lastActivityTime
      ensures resultLabel == ClearedLabel && lastActivityTime == now
    {
      resultLabel := ClearedLabel;
      lastActivityTime := now;
    }

    /** `animate_move_to_edge`: one step of the slide towards the top edge.
        The result says whether the step scheduled another one; the step that
        lands on the edge stops the slide and clears the label. */
    method AnimateMoveToEdge(now: int) returns (rescheduled: bool)
      requires Valid()
      modifies this`y, this`moving, this`resultLabel, this`lastActivityTime
      ensures Valid()
      ensures !old(moving) ==>
        !rescheduled && !moving && y == old(y)
        && resultLabel == old(resultLabel) && lastActivityTime == old(lastActivityTime)
      ensures old(moving) ==> y == NextY(old(y)) && rescheduled == (y != TopEdge) && moving == rescheduled
      ensures old(moving) && !rescheduled ==> resultLabel == ClearedLabel && lastActivityTime == now
      ensures rescheduled ==> resultLabel == old(resultLabel) && lastActivityTime == old(lastActivityTime)
    {
      if !moving {
        return false;
      }
      var currentY := y;
      var targetY := TopEdge;
      var delta := SlideDelta;
      var newY := currentY + delta;
      newY := if delta > 0 then Min(newY, targetY) else Max(newY, targetY);
      y := newY;
      if newY != targetY {
        rescheduled := true;
      } else {
        moving := false;
        ClearResult(now);
        rescheduled := false;
      }
    }

    /** The chain of `animate_move_to_edge` calls the first call starts, as
        one loop: it runs while each step reschedules the next. `now` is the
        clock reading at the last step. */
    method SlideToEdge(now: int) returns (steps: nat)
      requires Valid()
      modifies this`y, this`moving, this`resultLabel, this`lastActivityTime
      ensures Valid()
      ensures !old(moving) ==>
        steps == 0 && !moving && y == old(y)
        && resultLabel == old(resultLabel) && lastActivityTime == old(lastActivityTime)
      ensures old(moving) ==>
        steps == SlideSteps(old(y)) && y == TopEdge && !moving
        && resultLabel == ClearedLabel && lastActivityTime == now
    {
      ghost var y0 := y;
      ghost var n := SlideSteps(y0);
      SlideStopsExactlyAtEdge(y0);
      steps := 0;
      var scheduled := moving;
      while scheduled
        invariant Valid()
        invariant scheduled == moving
        invariant steps <= n
        invariant !old(moving) ==>
          steps == 0 && !moving && y == y0
          && resultLabel == old(resultLabel) && lastActivityTime == old(lastActivityTime)
        invariant old(moving) ==> y == YAfter(y0, steps) && (moving <==> steps < n)
        invariant old(moving) && !moving ==> resultLabel == ClearedLabel && lastActivityTime == now
        decreases n - steps
      {
        scheduled := AnimateMoveToEdge(now);
        steps := steps + 1;
      }
    }

    /** `check_idle`: after more than 15 seconds without activity, start the
        slide with its first step; otherwise change nothing. */
    method CheckIdle(now: int) returns (rescheduled: bool)
      requires Valid()
      modifies this`y, this`moving, this`resultLabel, this`lastActivityTime
      ensures Valid()
      ensures now - old(lastActivityTime) > IdleTimeoutMs ==>
        y == NextY(old(y)) && rescheduled == (y != TopEdge) && moving == rescheduled
        && (rescheduled ==> resultLabel == old(resultLabel) && lastActivityTime == old(lastActivityTime))
        && (!rescheduled ==> resultLabel == ClearedLabel && lastActivityTime == now)
      ensures now - old(lastActivityTime) <= IdleTimeoutMs ==>
        !rescheduled && moving == old(moving) && y == old(y)
        && resultLabel == old(resultLabel) && lastActivityTime == old(lastActivityTime)
    {
      var currentTime := now;
      if currentTime - lastActivityTime > IdleTimeoutMs {
        moving := true;
        rescheduled := AnimateMoveToEdge(now);
      } else {
        rescheduled := false;
      }
    }
  }
}

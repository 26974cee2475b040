/**
 * SimpleVRMenu: the per-frame controller of the VR options menu. It reads the
 * D-pad axes and a few keys, drives the CustomMenu cursors (the D-pad debounced
 * through keypadPressed, the arrow keys not), commits a choice on confirm and
 * notifies the main script, and opens or closes the menu on the toggle keys.
 */
module VrMenu {
  import opened Common
  import opened Menu

  /** Everything Update reads from the input system in one frame. */
  datatype FrameInput = FrameInput(
    dpadV: real, dpadH: real,
    upArrow: bool, downArrow: bool, leftArrow: bool, rightArrow: bool,
    keypadEnter: bool, returnKey: bool, joystickButton0: bool,
    tabKey: bool, joystickButton7: bool, joystickButton1: bool)

  /** The four D-pad directions as Update derives them from the two axes. */
  datatype Dpad = Dpad(up: bool, down: bool, left: bool, right: bool)

  /** A call Update makes on the menu, or the notification it sends to the main script. */
  datatype Call = Invoke(cmd: MenuCommand) | NotifyOptionChange

  /** The calls a frame made, the menu they left and whether the frame ran to its end. */
  datatype Run = Run(menu: MenuState, done: seq<Call>, ok: bool)

  /** Vertical axis negative is up, positive is down; horizontal positive is left, negative is right. */
  function DpadOf(input: FrameInput): (d: Dpad)
    ensures !(d.up && d.down) && !(d.left && d.right)
    ensures Neutral(d) <==> input.dpadV == 0.0 && input.dpadH == 0.0
  {
    Dpad(input.dpadV < 0.0, input.dpadV > 0.0, input.dpadH > 0.0, input.dpadH < 0.0)
  }

  predicate Neutral(d: Dpad) {
    !d.up && !d.down && !d.left && !d.right
  }

  /** The D-pad calls of successive frames with the menu open, the debounce flag carried from frame to frame. */
  function DpadFrames(pressed: bool, ds: seq<Dpad>): seq<Call>
    decreases |ds|
  {
    if ds == [] then []
    else DpadCalls(pressed, ds[0]) + DpadFrames(NextKeypadPressed(pressed, true, ds[0]), ds[1..])
  }

  /** The D-pad action of a frame: the first pressed direction in the order
      up, down, left, right, unless a direction is still held from before. */
  function DpadCommand(blocked: bool, d: Dpad): Option<MenuCommand> {
    if blocked then None
    else if d.up then Some(PickItemAbove)
    else if d.down then Some(PickItemBelow)
    else if d.left then Some(PickOptionLeft)
    else if d.right then Some(PickOptionRight)
    else None
  }

  function When(b: bool, c: Call): seq<Call> {
    if b then [c] else []
  }

  function DpadCalls(blocked: bool, d: Dpad): seq<Call> {
    match DpadCommand(blocked, d)
    case None => []
    case Some(c) => [Invoke(c)]
  }

  /** The arrow keys, each acting on its own and in this order. */
  function ArrowCalls(input: FrameInput): seq<Call> {
    When(input.upArrow, Invoke(PickItemAbove)) + When(input.downArrow, Invoke(PickItemBelow))
    + When(input.leftArrow, Invoke(PickOptionLeft)) + When(input.rightArrow, Invoke(PickOptionRight))
  }

  predicate ConfirmPressed(input: FrameInput) {
    input.keypadEnter || input.returnKey || input.joystickButton0
  }

  /** Confirm commits the highlighted option, then tells the main script. */
  function ConfirmCalls(input: FrameInput): seq<Call> {
    if ConfirmPressed(input) then [Invoke(ChooseOption), NotifyOptionChange] else []
  }

  /** The calls a frame intends to make, given whether the D-pad is still held
      from an earlier frame and whether an attached menu is open. */
  function PlannedCalls(blocked: bool, open: bool, input: FrameInput): seq<Call> {
    if open then DpadCalls(blocked, DpadOf(input)) + (ArrowCalls(input) + ConfirmCalls(input)) else []
  }

  /** Carries out one more call after a run; a menu call that throws ends the run. */
  function Step(r: Run, c: Call): Run {
    if !r.ok then r
    else match c
      case NotifyOptionChange => Run(r.menu, r.done + [c], true)
      case Invoke(cmd) =>
        match Apply(r.menu, cmd)
        case None => Run(r.menu, r.done, false)
        case Some(m) => Run(m, r.done + [c], true)
  }

  /** Carries out a list of calls in order, stopping at the first that throws. */
  function Perform(m: MenuState, calls: seq<Call>): Run
    decreases |calls|
  {
    if calls == [] then Run(m, [], true)
    else Step(Perform(m, calls[..|calls| - 1]), calls[|calls| - 1])
  }

  predicate TogglePressed(input: FrameInput, active: bool) {
    input.tabKey || input.joystickButton7 || (active && input.joystickButton1)
  }

  /** The debounce flag after a frame: cleared exactly when the D-pad is neutral,
      set once an open menu has taken a D-pad press. */
  function NextKeypadPressed(pressed: bool, open: bool, d: Dpad): bool {
    !Neutral(d) && (pressed || open)
  }

  /**
   * Debouncing: a direction held over any number of frames makes one call, in
   * the first frame, and none at all when it was already held before.
   */
  lemma {:induction false} HeldDpadActsOnce(pressed: bool, d: Dpad, ds: seq<Dpad>)
    requires !Neutral(d) && forall i :: 0 <= i < |ds| ==> ds[i] == d
    ensures pressed ==> DpadFrames(pressed, ds) == []
    ensures !pressed && ds != [] ==> DpadFrames(pressed, ds) == DpadCalls(false, d) && |DpadFrames(pressed, ds)| == 1
    decreases |ds|
  {
    if ds != [] {
      assert ds[0] == d;
      HeldDpadActsOnce(true, d, ds[1..]);
      assert NextKeypadPressed(pressed, true, d);
    }
  }

  lemma {:induction false} PerformAppend(m: MenuState, p: seq<Call>, c: Call)
    ensures Perform(m, p + [c]) == Step(Perform(m, p), c)
  {
    assert (p + [c])[..|p + [c]| - 1] == p;
  }

  /** Once a call has thrown, later calls change nothing. */
  lemma {:induction false} PerformStops(m: MenuState, p: seq<Call>, q: seq<Call>)
    requires !Perform(m, p).ok
    ensures Perform(m, p + q) == Perform(m, p)
    decreases |q|
  {
    if q == [] {
      assert p + q == p;
    } else {
      var q' := q[..|q| - 1];
      assert p + q == (p + q') + [q[|q| - 1]];
      PerformStops(m, p, q');
      PerformAppend(m, p + q', q[|q| - 1]);
    }
  }

  /** Performing two lists one after the other is performing their concatenation. */
  lemma {:induction false} PerformConcat(m: MenuState, p: seq<Call>, q: seq<Call>)
    requires Perform(m, p).ok
    ensures var r := Perform(m, p);
            var r2 := Perform(r.menu, q);
            Perform(m, p + q) == Run(r2.menu, r.done + r2.done, r2.ok)
    decreases |q|
  {
    if q == [] {
      assert p + q == p;
    } else {
      var q' := q[..|q| - 1];
      assert p + q == (p + q') + [q[|q| - 1]];
      PerformConcat(m, p, q');
      PerformAppend(m, p + q', q[|q| - 1]);
      PerformAppend(Perform(m, p).menu, q', q[|q| - 1]);
      assert q' + [q[|q| - 1]] == q;
    }
  }

  /** Two blocks of a frame, the second performed on the menu the first left
      and skipped when the first threw, amount to performing the two call lists
      one after the other. */
  lemma PerformTwoBlocks(m0: MenuState, a: seq<Call>, b: seq<Call>, m1: MenuState, m2: MenuState,
                         c1: seq<Call>, c2: seq<Call>, ok1: bool, ok2: bool)
    requires Perform(m0, a) == Run(m1, c1, ok1)
    requires ok1 ==> Perform(m1, b) == Run(m2, c2, ok2)
    requires !ok1 ==> m2 == m1
    ensures Perform(m0, a + b) == Run(m2, if ok1 then c1 + c2 else c1, ok1 && ok2)
  {
    if ok1 {
      PerformConcat(m0, a, b);
    } else {
      PerformStops(m0, a, b);
    }
  }

  /** On a consistent menu with at least one item no call throws: the frame
      performs every planned call, and the menu stays consistent and non-empty. */
  lemma {:induction false} PerformCompletes(m: MenuState, calls: seq<Call>)
    requires Consistent(m) && m.items != []
    ensures Perform(m, calls).ok
    ensures Perform(m, calls).done == calls
    ensures Consistent(Perform(m, calls).menu)
    ensures |Perform(m, calls).menu.items| == |m.items|
    decreases |calls|
  {
    if calls != [] {
      var p := calls[..|calls| - 1];
      PerformCompletes(m, p);
      assert p + [calls[|calls| - 1]] == calls;
      var r := Perform(m, p);
      match calls[|calls| - 1]
      case NotifyOptionChange =>
      case Invoke(cmd) =>
        ApplyKeepsConsistent(r.menu, cmd);
    }
  }

  /** Menu calls never change the number of items, whether or not a call throws. */
  lemma {:induction false} PerformKeepsCount(m: MenuState, calls: seq<Call>)
    ensures |Perform(m, calls).menu.items| == |m.items|
    decreases |calls|
  {
    if calls != [] {
      PerformKeepsCount(m, calls[..|calls| - 1]);
    }
  }

  /** Without an open, attached menu a frame makes no menu call at all. */
  lemma ClosedMenuIgnoresInput(blocked: bool, input: FrameInput)
    ensures PlannedCalls(blocked, false, input) == []
  {
  }

  /** At most one D-pad action per frame, chosen with priority up > down > left > right,
      and none while the D-pad is still held from an earlier frame. */
  lemma DpadPriority(blocked: bool, d: Dpad)
    ensures |DpadCalls(blocked, d)| <= 1
    ensures DpadCommand(blocked, d).None? <==> blocked || Neutral(d)
    ensures DpadCommand(blocked, d) == Some(PickItemAbove) <==> !blocked && d.up
    ensures DpadCommand(blocked, d) == Some(PickItemBelow) <==> !blocked && !d.up && d.down
    ensures DpadCommand(blocked, d) == Some(PickOptionLeft) <==> !blocked && !d.up && !d.down && d.left
    ensures DpadCommand(blocked, d) == Some(PickOptionRight) <==> !blocked && !d.up && !d.down && !d.left && d.right
  {
  }

  /** The arrow keys are not debounced: held D-pad or not, they act, and they can
      act in the same frame as a D-pad action. */
  lemma ArrowsNotDebounced(input: FrameInput)
    ensures PlannedCalls(true, true, input) == ArrowCalls(input) + ConfirmCalls(input)
    ensures PlannedCalls(false, true, input)
            == DpadCalls(false, DpadOf(input)) + ArrowCalls(input) + ConfirmCalls(input)
  {
  }

  /** The notification is sent only on confirm, as the last call, right after ChooseOption. */
  lemma NotifyFollowsChoose(blocked: bool, open: bool, input: FrameInput)
    ensures var p := PlannedCalls(blocked, open, input);
            (NotifyOptionChange in p <==> open && ConfirmPressed(input))
            && (NotifyOptionChange in p ==>
                  |p| >= 2 && p[|p| - 1] == NotifyOptionChange && p[|p| - 2] == Invoke(ChooseOption))
  {
    var p := PlannedCalls(blocked, open, input);
    if open {
      var q := DpadCalls(blocked, DpadOf(input)) + ArrowCalls(input);
      assert NotifyOptionChange !in q;
      assert p == q + ConfirmCalls(input);
    }
  }

  class VrMenuController {
    /** Whether Awake created the render plane (guiRenderPlane != null). */
    var hasRenderPlane: bool
    var menuActive: bool
    var keypadPressed: bool
    var customMenu: CustomMenu?
    var mainScript: object?
    /** The player controller's halt-movement flag, which the toggle sets. */
    var movementHalted: bool

    ghost predicate Valid()
      reads this, customMenu
    {
      && (customMenu == null <==> mainScript == null)
      && (customMenu != null ==> customMenu.Valid())
      && (menuActive ==> hasRenderPlane)
    }

    /** The controller as Awake leaves it: menu closed, nothing attached;
        renderPlane says whether the render plane could be created. */
    constructor (renderPlane: bool)
      ensures Valid()
      ensures hasRenderPlane == renderPlane && !menuActive && !keypadPressed && !movementHalted
      ensures customMenu == null && mainScript == null
    {
      hasRenderPlane := renderPlane;
      menuActive := false;
      keypadPressed := false;
      customMenu := null;
      mainScript := null;
      movementHalted := false;
    }

    /** Attaches the menu and the main script; throws, attaching nothing, when either is missing
        (the menu is checked first). */
    method Initialize(main: object?, menu: CustomMenu?) returns (error: Option<string>)
      requires Valid()
      requires menu != null ==> menu.Valid()
      modifies this
      ensures Valid()
      ensures error == (if menu == null then Some("Undefined iCustomMenu object in Initialize")
                        else if main == null then Some("Undefined iMainScript object in Initialize")
                        else None)
      ensures error.None? ==> customMenu == menu && mainScript == main
      ensures error.Some? ==> customMenu == old(customMenu) && mainScript == old(mainScript)
      ensures menuActive == old(menuActive) && keypadPressed == old(keypadPressed)
      ensures hasRenderPlane == old(hasRenderPlane) && movementHalted == old(movementHalted)
    {
      if menu == null {
        return Some("Undefined iCustomMenu object in Initialize");
      }
      if main == null {
        return Some("Undefined iMainScript object in Initialize");
      }
      customMenu := menu;
      mainScript := main;
      error := None;
    }

    /** Shows the menu; without a render plane nothing happens. */
    method ActivateMenu()
      requires Valid()
      modifies this
      ensures Valid()
      ensures menuActive == (hasRenderPlane || old(menuActive))
      ensures hasRenderPlane == old(hasRenderPlane) && keypadPressed == old(keypadPressed)
      ensures customMenu == old(customMenu) && mainScript == old(mainScript) && movementHalted == old(movementHalted)
    {
      if hasRenderPlane {
        menuActive := true;
      }
    }

    /** Hides the menu; without a render plane nothing happens. */
    method DeactivateMenu()
      requires Valid()
      modifies this
      ensures Valid()
      ensures menuActive == (!hasRenderPlane && old(menuActive))
      ensures hasRenderPlane == old(hasRenderPlane) && keypadPressed == old(keypadPressed)
      ensures customMenu == old(customMenu) && mainScript == old(mainScript) && movementHalted == old(movementHalted)
    {
      if hasRenderPlane {
        menuActive := false;
      }
    }

    /** Runs one menu call; ok is false when it threw, and then the menu is unchanged. */
    method CallMenu(cmd: MenuCommand) returns (ok: bool)
      requires Valid() && customMenu != null
      modifies customMenu
      ensures Valid()
      ensures ok == Apply(old(customMenu.State()), cmd).Some?
      ensures customMenu.State() == if ok then Apply(old(customMenu.State()), cmd).value else old(customMenu.State())
    {
      match cmd
      case PickItemAbove => customMenu.PickItemAbove(); ok := true;
      case PickItemBelow => customMenu.PickItemBelow(); ok := true;
      case PickOptionLeft => customMenu.PickOptionLeft(); ok := true;
      case PickOptionRight => ok := customMenu.PickOptionRight();
      case ChooseOption => ok := customMenu.ChooseOption();
    }

    /** The D-pad block of Update: at most one debounced navigation call. */
    method DpadBlock(d: Dpad) returns (calls: seq<Call>, ok: bool)
      requires Valid() && customMenu != null
      modifies this, customMenu
      ensures Valid()
      ensures customMenu == old(customMenu) && mainScript == old(mainScript) && hasRenderPlane == old(hasRenderPlane)
      ensures menuActive == old(menuActive) && movementHalted == old(movementHalted)
      ensures keypadPressed == (old(keypadPressed) || !Neutral(d))
      ensures Perform(old(customMenu.State()), DpadCalls(old(keypadPressed), d)) == Run(customMenu.State(), calls, ok)
    {
      ghost var m0 := customMenu.State();
      calls, ok := [], true;
      if !keypadPressed && d.up {
        keypadPressed := true;
        ok := CallMenu(PickItemAbove);
        PerformAppend(m0, [], Invoke(PickItemAbove));
        calls := [Invoke(PickItemAbove)];
      }
      if !keypadPressed && d.down {
        keypadPressed := true;
        ok := CallMenu(PickItemBelow);
        PerformAppend(m0, [], Invoke(PickItemBelow));
        calls := [Invoke(PickItemBelow)];
      }
      if !keypadPressed && d.left {
        keypadPressed := true;
        ok := CallMenu(PickOptionLeft);
        PerformAppend(m0, [], Invoke(PickOptionLeft));
        calls := [Invoke(PickOptionLeft)];
      }
      if !keypadPressed && d.right {
        keypadPressed := true;
        ok := CallMenu(PickOptionRight);
        PerformAppend(m0, [], Invoke(PickOptionRight));
        calls := if ok then [Invoke(PickOptionRight)] else [];
      }
    }

    /** One arrow key: its call when pressed, after the calls made so far; nothing once a call has thrown. */
    method ArrowKey(pressed: bool, cmd: MenuCommand, ghost m0: MenuState, ghost sofar: seq<Call>,
                    before: seq<Call>, okBefore: bool)
      returns (calls: seq<Call>, ok: bool)
      requires Valid() && customMenu != null
      requires Perform(m0, sofar) == Run(customMenu.State(), before, okBefore)
      modifies customMenu
      ensures Valid()
      ensures Perform(m0, sofar + When(pressed, Invoke(cmd))) == Run(customMenu.State(), calls, ok)
    {
      calls, ok := before, okBefore;
      if !okBefore {
        PerformStops(m0, sofar, When(pressed, Invoke(cmd)));
      } else if pressed {
        ok := CallMenu(cmd);
        PerformAppend(m0, sofar, Invoke(cmd));
        if ok {
          calls := before + [Invoke(cmd)];
        }
      } else {
        assert sofar + [] == sofar;
      }
    }

    /** The arrow-key block of Update: up, down, left, right, none of them debounced. */
    method ArrowBlock(input: FrameInput) returns (calls: seq<Call>, ok: bool)
      requires Valid() && customMenu != null
      modifies customMenu
      ensures Valid()
      ensures Perform(old(customMenu.State()), ArrowCalls(input)) == Run(customMenu.State(), calls, ok)
    {
      ghost var m0 := customMenu.State();
      ghost var a := When(input.upArrow, Invoke(PickItemAbove));
      ghost var b := When(input.downArrow, Invoke(PickItemBelow));
      ghost var c := When(input.leftArrow, Invoke(PickOptionLeft));
      ghost var e := When(input.rightArrow, Invoke(PickOptionRight));
      assert Perform(m0, []) == Run(customMenu.State(), [], true);
      calls, ok := ArrowKey(input.upArrow, PickItemAbove, m0, [], [], true);
      assert [] + a == a;
      calls, ok := ArrowKey(input.downArrow, PickItemBelow, m0, a, calls, ok);
      calls, ok := ArrowKey(input.leftArrow, PickOptionLeft, m0, a + b, calls, ok);
      calls, ok := ArrowKey(input.rightArrow, PickOptionRight, m0, a + b + c, calls, ok);
      assert ArrowCalls(input) == a + b + c + e;
    }

    /** The confirm block of Update: ChooseOption, then the notification. */
    method ConfirmBlock(input: FrameInput) returns (calls: seq<Call>, ok: bool)
      requires Valid() && customMenu != null
      modifies customMenu
      ensures Valid()
      ensures Perform(old(customMenu.State()), ConfirmCalls(input)) == Run(customMenu.State(), calls, ok)
    {
      ghost var m0 := customMenu.State();
      calls, ok := [], true;
      if input.keypadEnter || input.returnKey || input.joystickButton0 {
        assert ConfirmCalls(input) == [Invoke(ChooseOption)] + [NotifyOptionChange];
        ok := CallMenu(ChooseOption);
        PerformAppend(m0, [], Invoke(ChooseOption));
        assert [] + [Invoke(ChooseOption)] == [Invoke(ChooseOption)];
        if !ok {
          PerformStops(m0, [Invoke(ChooseOption)], [NotifyOptionChange]);
          return;
        }
        // Call method on main script to process changed options
        PerformAppend(m0, [Invoke(ChooseOption)], NotifyOptionChange);
        calls := [Invoke(ChooseOption), NotifyOptionChange];
      }
    }

    /** The arrow and confirm blocks of Update in order, the confirm block
        skipped when an arrow call threw. */
    method ArrowConfirmBlock(input: FrameInput) returns (calls: seq<Call>, ok: bool)
      requires Valid() && customMenu != null
      modifies customMenu
      ensures Valid()
      ensures Perform(old(customMenu.State()), ArrowCalls(input) + ConfirmCalls(input))
              == Run(customMenu.State(), calls, ok)
    {
      ghost var m0 := customMenu.State();
      calls, ok := ArrowBlock(input);
      ghost var m1 := customMenu.State();
      var c2, ok2 := [], true;
      if ok {
        c2, ok2 := ConfirmBlock(input);
      }
      PerformTwoBlocks(m0, ArrowCalls(input), ConfirmCalls(input), m1, customMenu.State(), calls, c2, ok, ok2);
      calls := if ok then calls + c2 else calls;
      ok := ok && ok2;
    }

    /** The part of Update that runs while an attached menu is open: the D-pad,
        arrow and confirm blocks in order, ending early if a call throws. */
    method MenuBlock(input: FrameInput) returns (calls: seq<Call>, ok: bool)
      requires Valid() && customMenu != null
      modifies this, customMenu
      ensures Valid()
      ensures customMenu == old(customMenu) && mainScript == old(mainScript) && hasRenderPlane == old(hasRenderPlane)
      ensures menuActive == old(menuActive) && movementHalted == old(movementHalted)
      ensures keypadPressed == (old(keypadPressed) || !Neutral(DpadOf(input)))
      ensures Perform(old(customMenu.State()), PlannedCalls(old(keypadPressed), true, input))
              == Run(customMenu.State(), calls, ok)
      ensures customMenu.Count() == old(customMenu.Count())
    {
      ghost var m0 := customMenu.State();
      ghost var dpad := DpadCalls(keypadPressed, DpadOf(input));
      ghost var rest := ArrowCalls(input) + ConfirmCalls(input);
      assert PlannedCalls(keypadPressed, true, input) == dpad + rest;
      PerformKeepsCount(m0, dpad + rest);
      calls, ok := DpadBlock(DpadOf(input));
      ghost var m1 := customMenu.State();
      var c2, ok2 := [], true;
      if ok {
        c2, ok2 := ArrowConfirmBlock(input);
      }
      PerformTwoBlocks(m0, dpad, rest, m1, customMenu.State(), calls, c2, ok, ok2);
      calls := if ok then calls + c2 else calls;
      ok := ok && ok2;
    }

    /** The toggle block of Update: opens a closed, attached, non-empty menu and
        halts movement; any other toggle press closes it and resumes movement. */
    method ToggleBlock(input: FrameInput)
      requires Valid()
      modifies this
      ensures Valid()
      ensures customMenu == old(customMenu) && mainScript == old(mainScript) && hasRenderPlane == old(hasRenderPlane)
      ensures keypadPressed == old(keypadPressed)
      ensures !TogglePressed(input, old(menuActive)) ==>
        menuActive == old(menuActive) && movementHalted == old(movementHalted)
      ensures TogglePressed(input, old(menuActive)) ==>
        if !old(menuActive) && customMenu != null && customMenu.Count() > 0
        then movementHalted && menuActive == (hasRenderPlane || old(menuActive))
        else !movementHalted && menuActive == (!hasRenderPlane && old(menuActive))
    {
      if input.tabKey || input.joystickButton7 || (menuActive && input.joystickButton1) {
        // activate the menu only if it contains at least one item
        if !menuActive && customMenu != null && customMenu.Count() > 0 {
          ActivateMenu();
          movementHalted := true;
        } else {
          DeactivateMenu();
          movementHalted := false;
        }
      }
    }

    /**
     * One frame. The menu ends as the planned calls leave it and `calls` lists
     * the calls made (NotifyOptionChange asks the caller to run the main
     * script's option-change handler); `completed` is false when a menu call
     * threw, which ends the frame before the toggle is looked at.
     */
    method Update(input: FrameInput) returns (calls: seq<Call>, completed: bool)
      requires Valid()
      modifies this, customMenu
      ensures Valid()
      ensures customMenu == old(customMenu) && mainScript == old(mainScript) && hasRenderPlane == old(hasRenderPlane)
      ensures keypadPressed == NextKeypadPressed(old(keypadPressed), old(menuActive) && customMenu != null, DpadOf(input))
      ensures customMenu == null ==> calls == [] && completed
      ensures customMenu != null ==>
        var run := Perform(old(customMenu.State()),
                           PlannedCalls(old(keypadPressed) && !Neutral(DpadOf(input)), old(menuActive), input));
        customMenu.State() == run.menu && calls == run.done && completed == run.ok
      ensures !completed ==> menuActive == old(menuActive) && movementHalted == old(movementHalted)
      ensures completed && !TogglePressed(input, old(menuActive)) ==>
        menuActive == old(menuActive) && movementHalted == old(movementHalted)
      ensures completed && TogglePressed(input, old(menuActive)) ==>
        if !old(menuActive) && customMenu != null && customMenu.Count() > 0
        then movementHalted && menuActive == (hasRenderPlane || old(menuActive))
        else !movementHalted && menuActive == (!hasRenderPlane && old(menuActive))
    {
      // the D-pad has to return to neutral before a new press is accepted
      if Neutral(DpadOf(input)) {
        keypadPressed := false;
      }
      calls, completed := [], true;
      if menuActive && customMenu != null {
        calls, completed := MenuBlock(input);
        if !completed {
          return;
        }
      }
      ToggleBlock(input);
    }
  }
}

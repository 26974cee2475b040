/**
 * The per-frame and menu-driven state of the galaxy view (GenerateGalaxy):
 * the option-change dispatcher, the label-rotation frame counter and the
 * shortlist of visible labels. Engine work (painting, label toggles, music,
 * label rotation) is reported as the effect to perform instead of performed.
 */
module Galaxy {
  import opened Common
  import opened Menu

  // ---------------------------------------------------------------------------
  // The option-change dispatcher

  /** The system colouring schemes of menu item 0. */
  datatype SystemColoring = BySecurity | ByRegion | ByFaction | BySolarColor

  /** The jump colouring schemes of menu item 1. */
  datatype JumpColoring = Neutral | RegionColors | FactionColors

  /** SystemStatsType: which statistic the system details show. */
  datatype SystemStatsType = NoStats | KillStats | JumpStats

  /** What the view does in response to one changed menu option. */
  datatype Effect =
    | NoEffect
    | PaintSystems(systemColoring: SystemColoring)
    | PaintJumps(jumpColoring: JumpColoring)
    | RegionLabels(shown: bool)
    | FactionLabels(shown: bool)
    | SystemDetails(stats: SystemStatsType)
    | JumpLines(shown: bool)
    | BackgroundMusic(playing: bool)

  /** The first index at or after `i` at which the chosen options differ from the defaults. */
  function FirstChangeFrom(current: seq<int>, defaults: seq<int>, i: nat): (r: Option<nat>)
    requires |current| <= |defaults| && i <= |current|
    ensures r.Some? ==> i <= r.value < |current| && current[r.value] != defaults[r.value]
    ensures forall j :: i <= j < |current| && (r.None? || j < r.value) ==> current[j] == defaults[j]
    decreases |current| - i
  {
    if i == |current| then None
    else if current[i] != defaults[i] then Some(i)
    else FirstChangeFrom(current, defaults, i + 1)
  }

  /** The first index at which the chosen options differ from the defaults, if any. */
  function FirstChange(current: seq<int>, defaults: seq<int>): (r: Option<nat>)
    requires |current| <= |defaults|
    ensures r.None? <==> forall j :: 0 <= j < |current| ==> current[j] == defaults[j]
    ensures r.Some? ==> r.value < |current| && current[r.value] != defaults[r.value] &&
                        forall j :: 0 <= j < r.value ==> current[j] == defaults[j]
  {
    FirstChangeFrom(current, defaults, 0)
  }

  /** The search loop of OnSimpleVRMenuOptionChange: the first changed option, or -1. */
  method FindChangedOption(currentOpt: seq<int>, defaultOpt: seq<int>) returns (optionsChanged: bool, changedOptionIdx: int)
    requires |currentOpt| <= |defaultOpt|
    ensures optionsChanged == FirstChange(currentOpt, defaultOpt).Some?
    ensures optionsChanged ==> changedOptionIdx == FirstChange(currentOpt, defaultOpt).value
    ensures !optionsChanged ==> changedOptionIdx == -1
  {
    optionsChanged := false;
    changedOptionIdx := -1;
    var i := 0;
    while i < |currentOpt|
      invariant 0 <= i <= |currentOpt|
      invariant FirstChangeFrom(currentOpt, defaultOpt, i) == FirstChange(currentOpt, defaultOpt)
    {
      if currentOpt[i] != defaultOpt[i] {
        optionsChanged := true;
        changedOptionIdx := i;
        break;
      }
      i := i + 1;
    }
  }

  /**
   * The effect of setting menu item `item` to option `value`: the switch of
   * OnSimpleVRMenuOptionChange. Items 2, 3, 5 and 6 switch something off on
   * option 0 and on otherwise; other items and options do nothing.
   */
  function EffectOf(item: int, value: int): (e: Effect)
    ensures !(0 <= item <= 6) ==> e == NoEffect
    ensures item == 2 ==> e == RegionLabels(value != 0)
    ensures item == 3 ==> e == FactionLabels(value != 0)
    ensures item == 5 ==> e == JumpLines(value != 0)
    ensures item == 6 ==> e == BackgroundMusic(value != 0)
    ensures item == 0 ==> (e == NoEffect <==> !(0 <= value <= 3))
    ensures item == 1 ==> (e == NoEffect <==> !(0 <= value <= 2))
    ensures item == 4 ==> (e == NoEffect <==> !(0 <= value <= 2))
  {
    if item == 0 then
      if value == 0 then PaintSystems(BySecurity)
      else if value == 1 then PaintSystems(ByRegion)
      else if value == 2 then PaintSystems(ByFaction)
      else if value == 3 then PaintSystems(BySolarColor)
      else NoEffect
    else if item == 1 then
      if value == 0 then PaintJumps(Neutral)
      else if value == 1 then PaintJumps(RegionColors)
      else if value == 2 then PaintJumps(FactionColors)
      else NoEffect
    else if item == 2 then RegionLabels(value != 0)
    else if item == 3 then FactionLabels(value != 0)
    else if item == 4 then
      if value == 0 then SystemDetails(NoStats)
      else if value == 1 then SystemDetails(KillStats)
      else if value == 2 then SystemDetails(JumpStats)
      else NoEffect
    else if item == 5 then JumpLines(value != 0)
    else if item == 6 then BackgroundMusic(value != 0)
    else NoEffect
  }

  /** What the dispatcher does for the given options: nothing when none changed, else the effect of the first change. */
  function ChangeEffect(current: seq<int>, defaults: seq<int>): (e: Option<Effect>)
    requires |current| <= |defaults|
    ensures e.None? <==> forall j :: 0 <= j < |current| ==> current[j] == defaults[j]
    ensures e.Some? ==> exists i :: 0 <= i < |current| && current[i] != defaults[i] && e.value == EffectOf(i, current[i])
  {
    match FirstChange(current, defaults)
    case None => None
    case Some(i) => Some(EffectOf(i, current[i]))
  }

  /** After the defaults are reset, the dispatcher finds no change: a second call does nothing. */
  lemma ResetLeavesNoChange(items: seq<MenuItem>)
    ensures ChangeEffect(ChosenIndices(ResetDefaults(items)), DefaultIndices(ResetDefaults(items))) == None
  {
    ResetDefaultsMeaning(items);
  }

  // ---------------------------------------------------------------------------
  // The label-rotation frame counter

  /** updateLabelRotationFrameCount. */
  const UpdateLabelRotationFrameCount: int := 3

  /** One frame of Update on the counter: back to 1 when it reached the frame count, then incremented. */
  function Tick(counter: int): (next: int)
    ensures counter == UpdateLabelRotationFrameCount ==> next == 2
    ensures counter != UpdateLabelRotationFrameCount ==> next == counter + 1
  {
    (if counter == UpdateLabelRotationFrameCount then 1 else counter) + 1
  }

  /** The counter before frame k + 1, starting from its initial value 1. */
  function CounterAfter(k: nat): int {
    if k == 0 then 1 else Tick(CounterAfter(k - 1))
  }

  /** Frame k (counting from 1) rotates the labels. */
  predicate RotatesAt(k: nat)
    requires k >= 1
  {
    CounterAfter(k - 1) == UpdateLabelRotationFrameCount
  }

  /** After the first frame the counter alternates between 3 and 2. */
  lemma {:induction false} CounterValues(k: nat)
    ensures k == 0 ==> CounterAfter(k) == 1
    ensures k >= 1 ==> CounterAfter(k) == (if k % 2 == 0 then 3 else 2)
  {
    if k >= 1 {
      CounterValues(k - 1);
    }
  }

  /** As written, the labels rotate on frames 3, 5, 7, and so on: every second frame from the third. */
  lemma RotationEveryOtherFrame(k: nat)
    requires k >= 1
    ensures RotatesAt(k) <==> k >= 3 && k % 2 == 1
  {
    CounterValues(k - 1);
  }

  /** Frames 5 and 6 show the discrepancy with "every 3rd frame": the fifth rotates, the sixth does not. */
  lemma RotationNotEveryThirdFrame()
    ensures RotatesAt(5) && !RotatesAt(6)
  {
    RotationEveryOtherFrame(5);
    RotationEveryOtherFrame(6);
  }

  /** The counter as intended: reset to 0 before the increment, so the frame count is a period. */
  function TickCorrected(counter: int): (next: int)
    ensures counter == UpdateLabelRotationFrameCount ==> next == 1
    ensures counter != UpdateLabelRotationFrameCount ==> next == counter + 1
  {
    (if counter == UpdateLabelRotationFrameCount then 0 else counter) + 1
  }

  function CounterAfterCorrected(k: nat): int {
    if k == 0 then 1 else TickCorrected(CounterAfterCorrected(k - 1))
  }

  /** With the corrected counter, the value before frame k + 1 is k mod 3, plus 1. */
  lemma {:induction false} CounterCorrectedValues(k: nat)
    ensures CounterAfterCorrected(k) == k % UpdateLabelRotationFrameCount + 1
  {
    if k >= 1 {
      CounterCorrectedValues(k - 1);
      var q := (k - 1) / 3;
      var r := (k - 1) % 3;
      assert k == 3 * q + r + 1;
      if r == 2 {
        assert k == 3 * (q + 1);
        assert k % 3 == 0;
      } else {
        assert k % 3 == r + 1;
      }
    }
  }

  /** With the corrected counter, frame k rotates the labels exactly when k is a multiple of 3. */
  lemma RotationEveryThirdFrame(k: nat)
    requires k >= 1
    ensures CounterAfterCorrected(k - 1) == UpdateLabelRotationFrameCount <==> k % UpdateLabelRotationFrameCount == 0
  {
    CounterCorrectedValues(k - 1);
  }

  // ---------------------------------------------------------------------------
  // The view

  /** The parts of GenerateGalaxy's state that its menu handler, Update and the label shortlist change. */
  class GalaxyView<L> {
    var customMenu: CustomMenu
    var labelShortlist: map<string, L>
    var updateCounter: int

    /** The view's state after Start: the menu attached, an empty shortlist, the counter at 1. */
    constructor(menu: CustomMenu)
      ensures customMenu == menu && labelShortlist == map[] && updateCounter == 1
    {
      customMenu := menu;
      labelShortlist := map[];
      updateCounter := 1;
    }

    /**
     * OnSimpleVRMenuOptionChange: acts on the first option whose chosen index
     * differs from its default and then makes the chosen indices the defaults;
     * when no option changed, nothing happens and the defaults stay.
     */
    method OnSimpleVRMenuOptionChange() returns (effect: Option<Effect>)
      requires customMenu.Valid()
      modifies customMenu
      ensures customMenu.Valid()
      ensures effect == ChangeEffect(ChosenIndices(old(customMenu.items)), DefaultIndices(old(customMenu.items)))
      ensures effect.Some? ==> customMenu.items == ResetDefaults(old(customMenu.items))
      ensures effect.None? ==> customMenu.items == old(customMenu.items)
      ensures customMenu.currentItemIdx == old(customMenu.currentItemIdx)
      ensures customMenu.currentOptionIdx == old(customMenu.currentOptionIdx)
    {
      var currentOpt := customMenu.GetCurrentOptions();
      var defaultOpt := customMenu.GetDefaultOptions();
      assert currentOpt == ChosenIndices(customMenu.items);
      assert defaultOpt == DefaultIndices(customMenu.items);
      var optionsChanged, changedOptionIdx := FindChangedOption(currentOpt, defaultOpt);
      if optionsChanged {
        effect := Some(EffectOf(changedOptionIdx, currentOpt[changedOptionIdx]));
        customMenu.ResetDefaultOptions();
      } else {
        effect := None;
      }
    }

    /** Update: whether this frame rotates the shortlisted labels, and the counter step. */
    method Update() returns (rotateLabels: bool)
      modifies this
      ensures rotateLabels == (old(updateCounter) == UpdateLabelRotationFrameCount)
      ensures updateCounter == Tick(old(updateCounter))
      ensures labelShortlist == old(labelShortlist) && customMenu == old(customMenu)
    {
      rotateLabels := false;
      if updateCounter == UpdateLabelRotationFrameCount {
        updateCounter := 1;
        rotateLabels := true;
      }
      updateCounter := updateCounter + 1;
    }

    /** AddLabelToShortlist: Dictionary.Add, which throws, changing nothing, when the name is present. */
    method AddLabelToShortlist(name: string, goLabel: L) returns (ok: bool)
      modifies this
      ensures ok == (name !in old(labelShortlist))
      ensures labelShortlist == if ok then old(labelShortlist)[name := goLabel] else old(labelShortlist)
      ensures customMenu == old(customMenu) && updateCounter == old(updateCounter)
    {
      if name in labelShortlist {
        return false;
      }
      labelShortlist := labelShortlist[name := goLabel];
      ok := true;
    }

    /** RemoveLabeFromShortlist: Dictionary.Remove, which does nothing when the name is absent. */
    method RemoveLabelFromShortlist(name: string)
      modifies this
      ensures labelShortlist == old(labelShortlist) - {name}
      ensures customMenu == old(customMenu) && updateCounter == old(updateCounter)
    {
      labelShortlist := labelShortlist - {name};
    }
  }

  /** Removing a label that was just added restores the shortlist: add and remove are inverse. */
  lemma ShortlistAddRemove<L>(shortlist: map<string, L>, name: string, goLabel: L)
    requires name !in shortlist
    ensures shortlist[name := goLabel] - {name} == shortlist
    ensures name in shortlist[name := goLabel] && shortlist[name := goLabel][name] == goLabel
  {
    assert (shortlist[name := goLabel] - {name}).Keys == shortlist.Keys;
  }

  /** A label stays shortlisted until its name is removed; other names are unaffected by removal. */
  lemma ShortlistRemoveOthers<L>(shortlist: map<string, L>, name: string, other: string)
    requires other != name && other in shortlist
    ensures other in shortlist - {name} && (shortlist - {name})[other] == shortlist[other]
    ensures name !in shortlist - {name}
  {
  }
}

/**
 * CustomMenu: the data behind the options menu. A list of items, each with a
 * caption, its options, the option currently chosen and the option that was in
 * force when the menu was last applied, plus two cursors: the highlighted item
 * and the highlighted option of that item.
 */
module Menu {
  import opened Common

  /** One entry of the menu (a value type in the source: a struct copied in and out of the list). */
  datatype MenuItem = MenuItem(caption: string, options: seq<string>, chosenIdx: int, defaultIdx: int)

  /** A snapshot of a menu: its items and its two cursors. */
  datatype MenuState = MenuState(items: seq<MenuItem>, itemIdx: int, optionIdx: int)

  /** The navigation and selection operations the VR controller invokes. */
  datatype MenuCommand = PickItemAbove | PickItemBelow | PickOptionLeft | PickOptionRight | ChooseOption

  /** The exceptions AddItem throws. */
  datatype AddItemError = UndefinedLabel | UndefinedOptions | DefaultOutOfRange

  /** An item as AddItem builds it: an index in 0..|options| (upper bound included) for both choices. */
  ghost predicate ItemValid(it: MenuItem) {
    0 <= it.chosenIdx <= |it.options| && 0 <= it.defaultIdx <= |it.options|
  }

  /**
   * What every reachable menu satisfies: items are well formed, the item cursor
   * is an index of the list (or 0 for the empty list), and the option cursor
   * lies in 0..|options| of the highlighted item (0 for the empty list).
   */
  ghost predicate Consistent(s: MenuState) {
    && (forall i :: 0 <= i < |s.items| ==> ItemValid(s.items[i]))
    && 0 <= s.itemIdx
    && (if s.items == [] then s.itemIdx == 0 && s.optionIdx == 0
        else s.itemIdx < |s.items| && 0 <= s.optionIdx <= |s.items[s.itemIdx].options|)
  }

  /** The check AddItem makes on the default index; note the inclusive upper bound. */
  predicate DefaultAccepted(defaultIdx: int, options: seq<string>) {
    0 <= defaultIdx <= |options|
  }

  /**
   * The effect of one command on a menu; None when the list indexer would throw
   * (an item cursor outside the list).
   */
  function Apply(s: MenuState, c: MenuCommand): (r: Option<MenuState>)
    ensures r.Some? ==> |r.value.items| == |s.items|
    ensures r.Some? && c != ChooseOption ==> r.value.items == s.items
  {
    match c
    case PickItemBelow =>
      if s.itemIdx < |s.items| - 1 then
        if 0 <= s.itemIdx + 1 then Some(s.(itemIdx := s.itemIdx + 1, optionIdx := s.items[s.itemIdx + 1].chosenIdx))
        else None
      else Some(s)
    case PickItemAbove =>
      if s.itemIdx > 0 then
        if s.itemIdx - 1 < |s.items| then Some(s.(itemIdx := s.itemIdx - 1, optionIdx := s.items[s.itemIdx - 1].chosenIdx))
        else None
      else Some(s)
    case PickOptionLeft =>
      Some(if s.optionIdx > 0 then s.(optionIdx := s.optionIdx - 1) else s)
    case PickOptionRight =>
      if 0 <= s.itemIdx < |s.items| then
        Some(if s.optionIdx < |s.items[s.itemIdx].options| - 1 then s.(optionIdx := s.optionIdx + 1) else s)
      else None
    case ChooseOption =>
      if 0 <= s.itemIdx < |s.items| then
        Some(s.(items := s.items[s.itemIdx := s.items[s.itemIdx].(chosenIdx := s.optionIdx)]))
      else None
  }

  /** The list GetCurrentOptions returns: the chosen index of every item, in order. */
  function ChosenIndices(items: seq<MenuItem>): seq<int> {
    seq(|items|, i requires 0 <= i < |items| => items[i].chosenIdx)
  }

  /** The list GetDefaultOptions returns: the default index of every item, in order. */
  function DefaultIndices(items: seq<MenuItem>): seq<int> {
    seq(|items|, i requires 0 <= i < |items| => items[i].defaultIdx)
  }

  /** The items after ResetDefaultOptions: each default replaced by the chosen index. */
  function ResetDefaults(items: seq<MenuItem>): seq<MenuItem> {
    seq(|items|, i requires 0 <= i < |items| => items[i].(defaultIdx := items[i].chosenIdx))
  }

  /** Every command keeps a consistent menu consistent, and on such a menu only
      PickOptionRight and ChooseOption can throw, exactly when the menu is empty. */
  lemma ApplyKeepsConsistent(s: MenuState, c: MenuCommand)
    requires Consistent(s)
    ensures Apply(s, c).None? <==> (s.items == [] && (c == PickOptionRight || c == ChooseOption))
    ensures Apply(s, c).Some? ==> Consistent(Apply(s, c).value)
  {
    if c == ChooseOption && s.items != [] {
      var t := Apply(s, c).value;
      forall i | 0 <= i < |t.items| ensures ItemValid(t.items[i]) {
        if i != s.itemIdx { assert t.items[i] == s.items[i]; }
      }
    }
  }

  /** Navigation moves only the cursors: labels, options, chosen and default indices stay. */
  lemma NavigationKeepsItems(s: MenuState, c: MenuCommand)
    requires c != ChooseOption
    requires Apply(s, c).Some?
    ensures Apply(s, c).value.items == s.items
  {
  }

  /** PickOptionLeft never takes the cursor below 0; PickOptionRight moves it only
      while it is before the last option of the highlighted item, so it never
      moves it past that option. Neither touches the items or the item cursor. */
  lemma OptionCursorBounds(s: MenuState)
    requires Consistent(s) && s.items != []
    ensures var l := Apply(s, PickOptionLeft).value;
            l.items == s.items && l.itemIdx == s.itemIdx && l.optionIdx >= 0
            && l.optionIdx == if s.optionIdx > 0 then s.optionIdx - 1 else s.optionIdx
    ensures var n := |s.items[s.itemIdx].options|;
            var r := Apply(s, PickOptionRight).value;
            r.items == s.items && r.itemIdx == s.itemIdx
            && (r.optionIdx <= n - 1 || r.optionIdx == s.optionIdx)
            && (r.optionIdx > s.optionIdx <==> s.optionIdx < n - 1)
  {
  }

  /** ChooseOption changes only the chosen index of the highlighted item, setting it to the option cursor. */
  lemma ChooseOptionFrame(s: MenuState)
    requires 0 <= s.itemIdx < |s.items|
    ensures var t := Apply(s, ChooseOption).value;
            && t.itemIdx == s.itemIdx && t.optionIdx == s.optionIdx
            && |t.items| == |s.items|
            && t.items[s.itemIdx].chosenIdx == s.optionIdx
            && t.items[s.itemIdx].caption == s.items[s.itemIdx].caption
            && t.items[s.itemIdx].options == s.items[s.itemIdx].options
            && t.items[s.itemIdx].defaultIdx == s.items[s.itemIdx].defaultIdx
            && (forall i :: 0 <= i < |s.items| && i != s.itemIdx ==> t.items[i] == s.items[i])
  {
  }

  /** After a reset the defaults are the chosen indices and nothing else differs. */
  lemma {:induction false} ResetDefaultsMeaning(items: seq<MenuItem>)
    ensures DefaultIndices(ResetDefaults(items)) == ChosenIndices(items)
    ensures ChosenIndices(ResetDefaults(items)) == ChosenIndices(items)
    ensures |ResetDefaults(items)| == |items|
    ensures forall i :: 0 <= i < |items| ==>
      ResetDefaults(items)[i].caption == items[i].caption && ResetDefaults(items)[i].options == items[i].options
  {
  }

  class CustomMenu {
    var items: seq<MenuItem>
    var currentOptionIdx: int
    var currentItemIdx: int

    /** The menu as a value. */
    function State(): MenuState
      reads this
    {
      MenuState(items, currentItemIdx, currentOptionIdx)
    }

    ghost predicate Valid()
      reads this
    {
      Consistent(State())
    }

    /** An empty menu with both cursors at 0. */
    constructor ()
      ensures Valid()
      ensures items == [] && currentOptionIdx == 0 && currentItemIdx == 0
    {
      currentOptionIdx := 0;
      currentItemIdx := 0;
      items := [];
    }

    /**
     * Appends an item whose chosen and default index are both defaultIdx. A
     * missing caption or option list, or a default outside 0..|options|, throws
     * and leaves the menu as it was.
     */
    method AddItem(caption: Option<string>, options: Option<seq<string>>, defaultIdx: int)
      returns (error: Option<AddItemError>)
      requires Valid()
      modifies this
      ensures Valid()
      ensures error == (if caption.None? then Some(UndefinedLabel)
                        else if options.None? then Some(UndefinedOptions)
                        else if !DefaultAccepted(defaultIdx, options.value) then Some(DefaultOutOfRange)
                        else None)
      ensures error.Some? ==> items == old(items)
      ensures error.None? ==>
        items == old(items) + [MenuItem(caption.value, options.value, defaultIdx, defaultIdx)]
      ensures currentItemIdx == old(currentItemIdx) && currentOptionIdx == old(currentOptionIdx)
    {
      if caption.None? {
        return Some(UndefinedLabel);
      }
      if options.None? {
        return Some(UndefinedOptions);
      }
      if defaultIdx < 0 || defaultIdx > |options.value| {
        return Some(DefaultOutOfRange);
      }
      items := items + [MenuItem(caption.value, options.value, defaultIdx, defaultIdx)];
      error := None;
    }

    /** The two-argument overload: AddItem with default index 0. */
    method AddItemWithFirstDefault(caption: Option<string>, options: Option<seq<string>>)
      returns (error: Option<AddItemError>)
      requires Valid()
      modifies this
      ensures Valid()
      ensures error == (if caption.None? then Some(UndefinedLabel)
                        else if options.None? then Some(UndefinedOptions)
                        else None)
      ensures error.Some? ==> items == old(items)
      ensures error.None? ==> items == old(items) + [MenuItem(caption.value, options.value, 0, 0)]
      ensures currentItemIdx == old(currentItemIdx) && currentOptionIdx == old(currentOptionIdx)
    {
      error := AddItem(caption, options, 0);
    }

    /** One entry per item, in insertion order: the chosen index. */
    method GetCurrentOptions() returns (l: seq<int>)
      ensures |l| == |items|
      ensures forall i :: 0 <= i < |items| ==> l[i] == items[i].chosenIdx
    {
      l := [];
      for k := 0 to |items|
        invariant |l| == k
        invariant forall i :: 0 <= i < k ==> l[i] == items[i].chosenIdx
      {
        l := l + [items[k].chosenIdx];
      }
    }

    /** One entry per item, in insertion order: the default index. */
    method GetDefaultOptions() returns (l: seq<int>)
      ensures |l| == |items|
      ensures forall i :: 0 <= i < |items| ==> l[i] == items[i].defaultIdx
    {
      l := [];
      for k := 0 to |items|
        invariant |l| == k
        invariant forall i :: 0 <= i < k ==> l[i] == items[i].defaultIdx
      {
        l := l + [items[k].defaultIdx];
      }
    }

    /** Makes every item's default its chosen index; nothing else changes. */
    method ResetDefaultOptions()
      requires Valid()
      modifies this
      ensures Valid()
      ensures items == ResetDefaults(old(items))
      ensures currentItemIdx == old(currentItemIdx) && currentOptionIdx == old(currentOptionIdx)
    {
      var i := 0;
      while i < |items|
        invariant 0 <= i <= |items| == |old(items)|
        invariant forall k :: 0 <= k < i ==> items[k] == old(items[k]).(defaultIdx := old(items[k]).chosenIdx)
        invariant forall k :: i <= k < |items| ==> items[k] == old(items[k])
        invariant currentItemIdx == old(currentItemIdx) && currentOptionIdx == old(currentOptionIdx)
        invariant Valid()
      {
        var m := items[i];
        m := m.(defaultIdx := items[i].chosenIdx);
        items := items[i := m];
        i := i + 1;
      }
    }

    /** Moves the item cursor down unless it is on the last item, and puts the
        option cursor on the new item's chosen option. */
    method PickItemBelow()
      requires Valid()
      modifies this
      ensures Valid()
      ensures Apply(old(State()), MenuCommand.PickItemBelow) == Some(State())
      ensures items == old(items)
      ensures if old(currentItemIdx) < |items| - 1
              then currentItemIdx == old(currentItemIdx) + 1 && currentOptionIdx == items[currentItemIdx].chosenIdx
              else currentItemIdx == old(currentItemIdx) && currentOptionIdx == old(currentOptionIdx)
    {
      ApplyKeepsConsistent(State(), MenuCommand.PickItemBelow);
      if currentItemIdx < |items| - 1 {
        currentItemIdx := currentItemIdx + 1;
        currentOptionIdx := items[currentItemIdx].chosenIdx;
      }
    }

    /** Moves the item cursor up unless it is on item 0, and puts the option
        cursor on the new item's chosen option. */
    method PickItemAbove()
      requires Valid()
      modifies this
      ensures Valid()
      ensures Apply(old(State()), MenuCommand.PickItemAbove) == Some(State())
      ensures items == old(items)
      ensures if old(currentItemIdx) > 0
              then currentItemIdx == old(currentItemIdx) - 1 && currentOptionIdx == items[currentItemIdx].chosenIdx
              else currentItemIdx == old(currentItemIdx) && currentOptionIdx == old(currentOptionIdx)
    {
      ApplyKeepsConsistent(State(), MenuCommand.PickItemAbove);
      if currentItemIdx > 0 {
        currentItemIdx := currentItemIdx - 1;
        currentOptionIdx := items[currentItemIdx].chosenIdx;
      }
    }

    /** Moves the option cursor left, never below 0. */
    method PickOptionLeft()
      requires Valid()
      modifies this
      ensures Valid()
      ensures Apply(old(State()), MenuCommand.PickOptionLeft) == Some(State())
      ensures items == old(items) && currentItemIdx == old(currentItemIdx)
      ensures currentOptionIdx == if old(currentOptionIdx) > 0 then old(currentOptionIdx) - 1 else old(currentOptionIdx)
    {
      ApplyKeepsConsistent(State(), MenuCommand.PickOptionLeft);
      if currentOptionIdx > 0 {
        currentOptionIdx := currentOptionIdx - 1;
      }
    }

    /** Moves the option cursor right, never past the last option of the
        highlighted item; throws (ok false, nothing changed) on an empty menu. */
    method PickOptionRight() returns (ok: bool)
      requires Valid()
      modifies this
      ensures Valid()
      ensures ok == (items != [])
      ensures Apply(old(State()), MenuCommand.PickOptionRight) == if ok then Some(State()) else None
      ensures items == old(items) && currentItemIdx == old(currentItemIdx)
      ensures ok && old(currentOptionIdx) < |items[currentItemIdx].options| - 1
              ==> currentOptionIdx == old(currentOptionIdx) + 1
      ensures !(ok && old(currentOptionIdx) < |items[currentItemIdx].options| - 1)
              ==> currentOptionIdx == old(currentOptionIdx)
    {
      ApplyKeepsConsistent(State(), MenuCommand.PickOptionRight);
      if items == [] {
        return false;
      }
      if currentOptionIdx < |items[currentItemIdx].options| - 1 {
        currentOptionIdx := currentOptionIdx + 1;
      }
      ok := true;
    }

    /** Sets the highlighted item's chosen index to the option cursor; throws
        (ok false, nothing changed) on an empty menu. */
    method ChooseOption() returns (ok: bool)
      requires Valid()
      modifies this
      ensures Valid()
      ensures ok == (items != [])
      ensures Apply(old(State()), MenuCommand.ChooseOption) == if ok then Some(State()) else None
      ensures currentItemIdx == old(currentItemIdx) && currentOptionIdx == old(currentOptionIdx)
      ensures ok ==> items == old(items)[currentItemIdx := old(items)[currentItemIdx].(chosenIdx := currentOptionIdx)]
      ensures !ok ==> items == old(items)
    {
      ApplyKeepsConsistent(State(), MenuCommand.ChooseOption);
      if items == [] {
        return false;
      }
      var m := items[currentItemIdx];
      m := m.(chosenIdx := currentOptionIdx);
      items := items[currentItemIdx := m];
      ok := true;
    }

    /** The number of items: as many as GetCurrentOptions has entries. */
    function Count(): (n: nat)
      reads this
      ensures n == |ChosenIndices(items)| == |DefaultIndices(items)|
    {
      |items|
    }

    /** The highlighted item: an index of the list, or 0 when it is empty. */
    function CurrentItemNum(): (r: int)
      reads this
      ensures Valid() ==> 0 <= r && (r < Count() || (Count() == 0 && r == 0))
    {
      currentItemIdx
    }

    /** The highlighted option: within 0..|options| of the highlighted item. */
    function CurrentOptionNum(): (r: int)
      reads this
      ensures Valid() && Count() > 0 ==> 0 <= r <= |items[CurrentItemNum()].options|
      ensures Valid() && Count() == 0 ==> r == 0
    {
      currentOptionIdx
    }
  }
}

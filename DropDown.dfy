/**
 * The drop-down widget: a button labelled with the current item, stepped
 * through the items by the mouse wheel, which on any other click opens a
 * popup list box placed over it; picking from the popup copies the choice
 * back and closes it.
 */
module DropDowns {
  import opened Wrappers
  import opened ListBoxes

  /** SDLK_ESCAPE. */
  const EscapeKey := 27

  // ---------------------------------------------------------------------
  // Wheel steps.

  /**
   * Wheel-up: the item before the first item after the front holding the
   * value, or the front item when none does.
   */
  function PreviousItem(items: seq<Item>, value: string): (r: Item)
    requires |items| > 0
    ensures r in items
    ensures var i := IndexFrom(items, value, 1);
            && (i >= 1 ==> r == items[i - 1])
            && (i == -1 ==> r == items[0])
  {
    var i := IndexFrom(items, value, 1);
    if i >= 1 then items[i - 1] else items[0]
  }

  /**
   * Wheel-down: the item after the first item before the back holding the
   * value, or the back item when none does.
   */
  function NextItem(items: seq<Item>, value: string): (r: Item)
    requires |items| > 0
    ensures r in items
    ensures var i := IndexOf(items[..|items| - 1], value);
            && (i >= 0 ==> r == items[i + 1])
            && (i == -1 ==> r == items[|items| - 1])
  {
    var i := IndexOf(items[..|items| - 1], value);
    if i >= 0 then items[i + 1] else items[|items| - 1]
  }

  /** The items' values are pairwise different. */
  ghost predicate Distinct(items: seq<Item>)
  {
    forall a, b :: 0 <= a < b < |items| ==> items[a].value != items[b].value
  }

  /** Among distinct values, the only index holding item k's value is k. */
  lemma DistinctIndex(items: seq<Item>, k: nat, from: nat)
    requires Distinct(items) && k < |items| && from <= |items|
    ensures IndexFrom(items, items[k].value, from) == (if from <= k then k else -1)
  {
  }

  /**
   * With distinct values, wheel-down from item k (not the last) reaches
   * item k + 1 and wheel-up from there comes back to item k; wheel-up from
   * item k (not the first) reaches k - 1 and wheel-down comes back. At the
   * ends a step stays put.
   */
  lemma {:induction false} WheelSteps(items: seq<Item>, k: nat)
    requires Distinct(items) && k < |items|
    ensures k + 1 < |items| ==> NextItem(items, items[k].value) == items[k + 1]
    ensures k >= 1 ==> PreviousItem(items, items[k].value) == items[k - 1]
    ensures k + 1 < |items| ==> PreviousItem(items, NextItem(items, items[k].value).value) == items[k]
    ensures k >= 1 ==> NextItem(items, PreviousItem(items, items[k].value).value) == items[k]
    ensures k == 0 ==> PreviousItem(items, items[k].value) == items[0]
    ensures k + 1 == |items| ==> NextItem(items, items[k].value) == items[k]
  {
    var front := items[..|items| - 1];
    assert Distinct(front);
    if k + 1 < |items| {
      assert front[k] == items[k];
      DistinctIndex(front, k, 0);
      DistinctIndex(items, k + 1, 1);
    } else {
      assert forall j :: 0 <= j < |front| ==> front[j].value != items[k].value by {
        forall j | 0 <= j < |front|
          ensures front[j].value != items[k].value
        {
          assert front[j] == items[j];
        }
      }
    }
    if k >= 1 {
      DistinctIndex(items, k, 1);
      assert front[k - 1] == items[k - 1];
      DistinctIndex(front, k - 1, 0);
    } else {
      DistinctIndex(items, 0, 1);
    }
  }

  /** DropDown::Update: the text of the first item holding the value, or the label as it was. */
  function LabelFor(items: seq<Item>, value: string, shown: string): (r: string)
    ensures var i := IndexOf(items, value);
            && (i >= 0 ==> r == items[i].text)
            && (i == -1 ==> r == shown)
  {
    var i := IndexOf(items, value);
    if i >= 0 then items[i].text else shown
  }

  /** After a wheel step among distinct values, Update finds the label already right. */
  lemma WheelLabelAgrees(items: seq<Item>, value: string)
    requires |items| > 0 && Distinct(items)
    ensures var p := PreviousItem(items, value); LabelFor(items, p.value, "") == p.text
    ensures var n := NextItem(items, value); LabelFor(items, n.value, "") == n.text
  {
    var p := PreviousItem(items, value);
    var n := NextItem(items, value);
    var i :| 0 <= i < |items| && items[i] == p;
    var j :| 0 <= j < |items| && items[j] == n;
    DistinctIndex(items, i, 0);
    DistinctIndex(items, j, 0);
  }

  // ---------------------------------------------------------------------
  // Popup placement.

  /**
   * The DropDownListBox constructor's placement of the popup, on the path
   * without VR: shifted up so that the current item's row lies over the
   * drop-down, as tall as all its rows but no taller than the screen, then
   * moved up to end on screen and down to start below the container's top.
   */
  function PopupRect(r: Rect, index: int, count: nat, line: nat, screenH: int, containerY: Option<int>): (p: Rect)
    ensures p.x == r.x && p.w == r.w
    ensures p.h <= screenH && p.h <= count * line
    ensures p.y >= -containerY.GetOr(0)
  {
    var top := containerY.GetOr(0);
    var y1 := if index >= 0 then r.y - index * line else r.y;
    var h := if count * line > screenH then screenH else count * line;
    var offscreen := top + y1 + h - screenH;
    var y2 := if offscreen > 0 then y1 - offscreen else y1;
    var y3 := if y2 < -top then -top else y2;
    Rect(r.x, y3, r.w, h)
  }

  /**
   * The popup keeps the drop-down's x and width; its height is the lesser
   * of its rows' height and the screen's; it never starts above the
   * container's top, and unless it is held there its bottom is on screen;
   * and when the shifted position already fits, the current item's row is
   * exactly over the drop-down.
   */
  lemma PopupPlacement(r: Rect, index: int, count: nat, line: nat, screenH: int, containerY: Option<int>)
    ensures var p := PopupRect(r, index, count, line, screenH, containerY);
            var top := containerY.GetOr(0);
            var y1 := if index >= 0 then r.y - index * line else r.y;
            && p.x == r.x && p.w == r.w
            && p.h == (if count * line <= screenH then count * line else screenH)
            && p.y >= -top
            && (p.y != -top ==> top + p.y + p.h <= screenH)
            && (top + y1 + p.h <= screenH && y1 >= -top ==> p.y == y1)
  {
  }

  // ---------------------------------------------------------------------
  // The widgets.

  class DropDown {
    const rect: Rect
    /** The label font's line skip; None when there is no font. */
    const font: Option<nat>
    const scrollBarSize: int
    /** The top of the containing layer on screen (its CalcRect.y); None without a container. */
    const containerY: Option<int>

    var items: seq<Item>
    var value: string
    var labelText: string
    /** The open popup, if any. */
    var myListBox: DropDownListBox?
    /** How many times the Changed hook has run. */
    var changes: nat

    /** The drop-down starts with no items, an empty label and no popup. */
    constructor (rect: Rect, font: Option<nat>, scrollBarSize: int, containerY: Option<int>)
      ensures this.rect == rect && this.font == font && this.scrollBarSize == scrollBarSize
      ensures this.containerY == containerY
      ensures items == [] && value == "" && labelText == "" && myListBox == null && changes == 0
    {
      this.rect := rect;
      this.font := font;
      this.scrollBarSize := scrollBarSize;
      this.containerY := containerY;
      items := [];
      value := "";
      labelText := "";
      myListBox := null;
      changes := 0;
    }

    method AddItem(value: string, text: string)
      modifies this`items
      ensures items == old(items) + [Item(value, text)]
    {
      items := items + [Item(value, text)];
    }

    method Update()
      modifies this`labelText
      ensures labelText == LabelFor(items, value, old(labelText))
    {
      var i := 0;
      var found := false;
      while i < |items| && !found
        invariant 0 <= i <= |items|
        invariant !found ==> labelText == old(labelText) && forall j :: 0 <= j < i ==> items[j].value != value
        invariant found ==> IndexOf(items, value) >= 0 && labelText == items[IndexOf(items, value)].text
        decreases |items| - i, if found then 0 else 1
      {
        if items[i].value == value {
          labelText := items[i].text;
          found := true;
        } else {
          i := i + 1;
        }
      }
    }

    /**
     * DropDown::Clicked: with items, the wheel steps the value and label to
     * the previous or next item together and runs Changed; any other button
     * opens the popup on a screen `screenH` rows tall, unless one is open.
     */
    method Clicked(button: int, screenH: int)
      modifies this`value, this`labelText, this`changes, this`myListBox
      ensures (button == WheelUp || button == WheelDown) && |items| == 0 ==>
                value == old(value) && labelText == old(labelText) && changes == old(changes)
      ensures button == WheelUp && |items| > 0 ==>
                var p := PreviousItem(items, old(value));
                value == p.value && labelText == p.text && changes == old(changes) + 1
      ensures button == WheelDown && |items| > 0 ==>
                var n := NextItem(items, old(value));
                value == n.value && labelText == n.text && changes == old(changes) + 1
      ensures button == WheelUp || button == WheelDown || old(myListBox) != null ==> myListBox == old(myListBox)
      ensures button != WheelUp && button != WheelDown ==> value == old(value) && labelText == old(labelText) && changes == old(changes)
      ensures button != WheelUp && button != WheelDown && old(myListBox) == null ==>
                && myListBox != null && fresh(myListBox) && fresh(myListBox.list)
                && myListBox.calledBy == this && !myListBox.removed
                && myListBox.list.items == items && myListBox.list.selected == None
                && myListBox.list.rect == PopupRect(rect, IndexOf(items, value), |items|, myListBox.list.LineScroll(), screenH, containerY)
    {
      if button == WheelUp {
        if |items| > 0 {
          var p := PreviousOf(items, value);
          value := p.value;
          labelText := p.text;
          changes := changes + 1;
        }
      } else if button == WheelDown {
        if |items| > 0 {
          var n := NextOf(items, value);
          value := n.value;
          labelText := n.text;
          changes := changes + 1;
        }
      } else if myListBox == null {
        myListBox := new DropDownListBox(this, screenH);
      }
    }

    /** The wheel-up loop over indices 1..size-1. */
    static method PreviousOf(items: seq<Item>, value: string) returns (item: Item)
      requires |items| > 0
      ensures item == PreviousItem(items, value)
    {
      var found := false;
      var i := 1;
      item := items[0];
      while i < |items| && !found
        invariant 1 <= i <= |items|
        invariant !found ==> item == items[0] && IndexFrom(items, value, i) == IndexFrom(items, value, 1)
        invariant found ==> item == PreviousItem(items, value)
        decreases |items| - i, if found then 0 else 1
      {
        if items[i].value == value {
          item := items[i - 1];
          found := true;
        } else {
          i := i + 1;
        }
      }
    }

    /** The wheel-down loop over indices 0..size-2. */
    static method NextOf(items: seq<Item>, value: string) returns (item: Item)
      requires |items| > 0
      ensures item == NextItem(items, value)
    {
      var front := items[..|items| - 1];
      var found := false;
      var i := 0;
      item := items[|items| - 1];
      while i < |items| - 1 && !found
        invariant 0 <= i <= |items| - 1
        invariant !found ==> item == items[|items| - 1] && IndexFrom(front, value, i) == IndexOf(front, value)
        invariant found ==> item == NextItem(items, value)
        decreases |items| - i, if found then 0 else 1
      {
        if items[i].value == value {
          assert front[i] == items[i];
          item := items[i + 1];
          found := true;
        } else {
          assert front[i] == items[i];
          i := i + 1;
        }
      }
    }

    /** DropDown::Close: the open popup is removed and forgotten. It must be open. */
    method Close()
      requires myListBox != null
      modifies this`myListBox, myListBox`removed
      ensures myListBox == null && old(myListBox).removed
    {
      myListBox.removed := true;
      myListBox := null;
    }
  }

  /** DropDownListBox: the popup, a list box of the drop-down's items that reports back to it. */
  class DropDownListBox {
    const calledBy: DropDown
    const list: ListBox
    /** Whether the popup has taken itself off the screen. */
    var removed: bool

    /** Places the popup over `dropdown` on a screen `screenH` rows tall. */
    constructor (dropdown: DropDown, screenH: int)
      ensures calledBy == dropdown && fresh(list) && !removed
      ensures list.items == dropdown.items && list.selected == None && list.font == dropdown.font
      ensures list.rect == PopupRect(dropdown.rect, IndexOf(dropdown.items, dropdown.value), |dropdown.items|,
                                     list.LineScroll(), screenH, dropdown.containerY)
    {
      var box := new ListBox(dropdown.rect, dropdown.font, dropdown.scrollBarSize, dropdown.items);
      var selectedIndex := box.FindItem(dropdown.value);
      box.rect := Place(box.rect, selectedIndex, |box.items|, box.LineScroll(), screenH, dropdown.containerY);
      calledBy := dropdown;
      list := box;
      removed := false;
    }

    /** The constructor's adjustments of the popup's Rect, one after the other. */
    static method Place(r: Rect, selectedIndex: int, count: nat, line: nat, screenH: int, containerY: Option<int>) returns (p: Rect)
      ensures p == PopupRect(r, selectedIndex, count, line, screenH, containerY)
    {
      var minY := if containerY.Some? then -containerY.value else 0;
      var maxH := screenH;
      p := r;
      if selectedIndex >= 0 {
        p := p.(y := p.y - selectedIndex * line);
      }
      p := p.(h := count * line);
      if p.h > maxH {
        p := p.(h := maxH);
      }
      var offscreen := (if containerY.Some? then containerY.value else 0) + p.y + p.h - screenH;
      if offscreen > 0 {
        p := p.(y := p.y - offscreen);
      }
      if p.y < minY {
        p := p.(y := minY);
      }
    }

    /**
     * DropDownListBox::Changed: the selection's text and value are copied to
     * the drop-down, its Changed hook runs, and the popup closes itself.
     */
    method Changed()
      requires list.SelectionInRange()
      modifies calledBy`labelText, calledBy`value, calledBy`changes, calledBy`myListBox, this`removed
      ensures calledBy.labelText == list.SelectedText() && calledBy.value == list.SelectedValue()
      ensures calledBy.changes == old(calledBy.changes) + 1
      ensures calledBy.myListBox == null && removed
    {
      calledBy.labelText := list.SelectedText();
      calledBy.value := list.SelectedValue();
      calledBy.changes := calledBy.changes + 1;
      calledBy.myListBox := null;
      removed := true;
    }

    /** A release over the popup: the list box handles it, and a new selection runs this popup's Changed. */
    method MouseUp(button: int, mouseY: int, top: int) returns (handled: bool)
      requires list.LineScroll() > 0
      modifies list`scroll, list`selected, calledBy`labelText, calledBy`value, calledBy`changes, calledBy`myListBox, this`removed
      ensures handled
      ensures button == WheelUp ==> list.scroll == ScrolledUp(old(list.scroll), list.LineScroll())
      ensures button == WheelDown ==> list.scroll == ScrolledDown(old(list.scroll), list.LineScroll(), list.MaxScroll())
      ensures button != WheelUp && button != WheelDown ==> list.scroll == old(list.scroll)
      ensures var index := TruncDiv(mouseY - top + old(list.scroll), list.LineScroll());
              var hit := button != WheelUp && button != WheelDown && 0 <= index < |list.items|;
              && (hit ==>
                    var chosen := list.items[index];
                    && list.selected == Some(index)
                    && calledBy.value == chosen.value && calledBy.labelText == chosen.text
                    && calledBy.changes == old(calledBy.changes) + 1
                    && calledBy.myListBox == null && removed)
              && (!hit ==>
                    && list.selected == old(list.selected)
                    && calledBy.value == old(calledBy.value) && calledBy.labelText == old(calledBy.labelText)
                    && calledBy.changes == old(calledBy.changes)
                    && calledBy.myListBox == old(calledBy.myListBox) && removed == old(removed))
    {
      var changed;
      handled, changed := list.MouseUp(button, mouseY, top);
      if changed {
        Changed();
      }
    }

    /** DropDownListBox::KeyDown: Escape is claimed. */
    method KeyDown(key: int) returns (handled: bool)
      ensures handled <==> key == EscapeKey
    {
      handled := key == EscapeKey;
    }

    /** DropDownListBox::KeyUp: Escape closes the drop-down's popup and is claimed. */
    method KeyUp(key: int) returns (handled: bool)
      requires key == EscapeKey ==> calledBy.myListBox != null
      modifies calledBy`myListBox, calledBy.myListBox
      ensures handled <==> key == EscapeKey
      ensures handled ==> calledBy.myListBox == null && old(calledBy.myListBox).removed
      ensures !handled ==> calledBy.myListBox == old(calledBy.myListBox)
      ensures !handled && calledBy.myListBox != null ==> calledBy.myListBox.removed == old(calledBy.myListBox.removed)
    {
      if key == EscapeKey {
        calledBy.Close();
        return true;
      }
      return false;
    }
  }
}

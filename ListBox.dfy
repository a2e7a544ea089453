/**
 * The list box widget: a vertical list of (value, text) items with one
 * optional selection, scrolled by whole lines, and the two scroll buttons
 * beside it. The item search, removal and scrolling arithmetic are stated
 * as functions; the ListBox class updates its fields as the widget does and
 * is proved against them.
 */
module ListBoxes {
  import opened Wrappers

  /** ListBoxItem: the value a program reads back and the text shown. */
  datatype Item = Item(value: string, text: string)

  /** An SDL_Rect, relative to the containing layer. */
  datatype Rect = Rect(x: int, y: int, w: int, h: int)

  /** SDL's mouse buttons for the wheel. */
  const WheelUp := 4
  const WheelDown := 5

  /** The two actions a ListBoxButton can have. */
  const ScrollUpAction := 1
  const ScrollDownAction := 2

  /** The line height used without a font. */
  const DefaultLineSkip := 10

  // ---------------------------------------------------------------------
  // Searching and removing.

  /** The index of the first item at or after `from` whose value matches, or -1. */
  function IndexFrom(items: seq<Item>, value: string, from: nat): (r: int)
    requires from <= |items|
    ensures r == -1 || from <= r < |items|
    ensures r >= 0 ==> items[r].value == value && forall j :: from <= j < r ==> items[j].value != value
    ensures r == -1 ==> forall j :: from <= j < |items| ==> items[j].value != value
    decreases |items| - from
  {
    if from == |items| then -1
    else if items[from].value == value then from
    else IndexFrom(items, value, from + 1)
  }

  /** ListBox::FindItem: the first index holding the value, or -1. */
  function IndexOf(items: seq<Item>, value: string): (r: int)
    ensures -1 <= r < |items|
    ensures r >= 0 ==> items[r].value == value && forall j :: 0 <= j < r ==> items[j].value != value
    ensures r == -1 <==> forall j :: 0 <= j < |items| ==> items[j].value != value
  {
    IndexFrom(items, value, 0)
  }

  /** The items with the first one holding the value taken out, the rest in order. */
  function Without(items: seq<Item>, value: string): (r: seq<Item>)
    ensures IndexOf(items, value) == -1 ==> r == items
    ensures IndexOf(items, value) >= 0 ==> |r| == |items| - 1
  {
    var i := IndexOf(items, value);
    if i >= 0 then items[..i] + items[i + 1..] else items
  }

  /**
   * Removing by value takes out exactly one item when the value is present
   * and none when it is absent, and no other item is lost or gained.
   */
  lemma WithoutConserves(items: seq<Item>, value: string)
    ensures var i := IndexOf(items, value);
            && (i == -1 ==> Without(items, value) == items)
            && (i >= 0 ==> (|Without(items, value)| == |items| - 1
                            && multiset(Without(items, value)) + multiset{items[i]} == multiset(items)))
    ensures var i, r := IndexOf(items, value), Without(items, value);
            i >= 0 ==> && (forall j :: 0 <= j < i ==> r[j] == items[j])
                       && (forall j :: i <= j < |r| ==> r[j] == items[j + 1])
  {
    var i := IndexOf(items, value);
    if i >= 0 {
      assert items == items[..i] + [items[i]] + items[i + 1..];
      calc {
        multiset(items);
        multiset(items[..i] + [items[i]] + items[i + 1..]);
        multiset(items[..i]) + multiset{items[i]} + multiset(items[i + 1..]);
        multiset(items[..i] + items[i + 1..]) + multiset{items[i]};
      }
    }
  }

  /** Removing the value of an item just added, when no other item held it, gives back the old list. */
  lemma {:induction false} WithoutAfterAdd(items: seq<Item>, value: string, text: string)
    requires IndexOf(items, value) == -1
    ensures Without(items + [Item(value, text)], value) == items
  {
    var added := items + [Item(value, text)];
    assert added[|items|].value == value;
    assert forall j :: 0 <= j < |items| ==> added[j].value != value by {
      forall j | 0 <= j < |items|
        ensures added[j].value != value
      {
        assert added[j] == items[j];
      }
    }
    assert IndexOf(added, value) == |items|;
    assert added[..|items|] == items;
  }

  /**
   * Select(int) selects the first item sharing the value at the index: that
   * item is never after it, and is the one at the index when values are
   * distinct.
   */
  lemma FirstSharing(items: seq<Item>, k: nat)
    requires k < |items|
    ensures var i := IndexOf(items, items[k].value);
            && 0 <= i <= k && items[i].value == items[k].value
            && ((forall a, b :: 0 <= a < b < |items| ==> items[a].value != items[b].value) ==> i == k)
  {
  }

  // ---------------------------------------------------------------------
  // Scrolling.

  /** ListBox::MaxScroll: how far the list can scroll before its last line leaves the bottom. */
  function MaxScrollFor(count: nat, line: nat, height: int): (r: int)
    ensures r >= 0 && r >= count * line - height
    ensures r == 0 || r == count * line - height
  {
    var m := count * line - height;
    if m >= 0 then m else 0
  }

  /** ListBox::ScrollUp: one line up, stopping at the top. */
  function ScrolledUp(scroll: int, line: nat): (r: int)
    ensures r >= 0 && r >= scroll - line
    ensures r == 0 || r == scroll - line
  {
    var s := scroll - line;
    if s < 0 then 0 else s
  }

  /** ListBox::ScrollDown: one line down, stopping at the largest scroll. */
  function ScrolledDown(scroll: int, line: nat, max: int): (r: int)
    ensures r <= max && r <= scroll + line
    ensures r == max || r == scroll + line
  {
    var s := scroll + line;
    if s > max then max else s
  }

  /**
   * A scroll between 0 and the largest scroll stays there under either
   * step, and a step that is not stopped by an end is undone by the other.
   */
  lemma ScrollSteps(scroll: int, line: nat, max: int)
    requires 0 <= scroll <= max
    ensures 0 <= ScrolledUp(scroll, line) <= max
    ensures 0 <= ScrolledDown(scroll, line, max) <= max
    ensures scroll + line <= max ==> ScrolledUp(ScrolledDown(scroll, line, max), line) == scroll
    ensures scroll - line >= 0 ==> ScrolledDown(ScrolledUp(scroll, line), line, max) == scroll
  {
  }

  /** C's `/` on int, which truncates toward zero, for a positive divisor. */
  function TruncDiv(a: int, b: int): (r: int)
    requires b > 0
    ensures a >= 0 ==> 0 <= a - r * b < b
    ensures a < 0 ==> -b < a - r * b <= 0
  {
    if a >= 0 then a / b else -((-a) / b)
  }

  /**
   * The row a click lands on: for a point at or below the top of the
   * content it is the line holding that point, and a point less than one
   * line above the top is read as row 0, because C division truncates.
   */
  lemma ClickRow(offset: int, line: nat)
    requires line > 0
    ensures offset >= 0 ==> (TruncDiv(offset, line) >= 0
                             && TruncDiv(offset, line) * line <= offset < (TruncDiv(offset, line) + 1) * line)
    ensures -(line as int) < offset < 0 ==> TruncDiv(offset, line) == 0
  {
    var r := TruncDiv(offset, line);
    assert (r + 1) * line == r * line + line;
    if r < 0 {
      TimesAtMost(r, line);
    } else if r > 0 {
      TimesAtLeast(r, line);
    }
  }

  lemma TimesAtMost(r: int, line: nat)
    requires r < 0 && line > 0
    ensures r * line <= -(line as int)
    decreases -r
  {
    assert r * line == (r + 1) * line - line;
    if r + 1 < 0 {
      TimesAtMost(r + 1, line);
    }
  }

  lemma TimesAtLeast(r: int, line: nat)
    requires r > 0 && line > 0
    ensures r * line >= line
  {
    assert r * line == (r - 1) * line + line;
    if r - 1 > 0 {
      TimesAtLeast(r - 1, line);
    }
  }

  // ---------------------------------------------------------------------
  // The widget.

  class ListBox {
    var items: seq<Item>
    /** The selected slot: the Selected pointer, as the index it points at. */
    var selected: Option<nat>
    var scroll: int
    var rect: Rect
    /** The font's line skip; None when the box has no font. */
    const font: Option<nat>
    const scrollBarSize: int

    /** Both constructors: with no items, or with a copy of the given ones. */
    constructor (rect: Rect, font: Option<nat>, scrollBarSize: int, items: seq<Item>)
      ensures this.rect == rect && this.font == font && this.scrollBarSize == scrollBarSize
      ensures this.items == items && selected == None && scroll == 0
    {
      this.rect := rect;
      this.font := font;
      this.scrollBarSize := scrollBarSize;
      selected := None;
      scroll := 0;
      this.items := items;
    }

    /** ListBox::LineScroll: the font's line skip, or 10 without a font. */
    function LineScroll(): (r: nat)
      reads this
      ensures font.Some? ==> r == font.value
      ensures font.None? ==> r == DefaultLineSkip
    {
      if font.Some? then font.value else DefaultLineSkip
    }

    /** ListBox::MaxScroll: no less than 0 and than the content height less the box height, and one of the two. */
    function MaxScroll(): (r: int)
      reads this
      ensures r == MaxScrollFor(|items|, LineScroll(), rect.h)
      ensures r >= 0 && r >= |items| * LineScroll() - rect.h
      ensures r == 0 || r == |items| * LineScroll() - rect.h
    {
      var m := |items| * LineScroll() - rect.h;
      if m >= 0 then m else 0
    }

    /** Everything selected is an item: the selected slot is in range. */
    predicate SelectionInRange()
      reads this
    {
      selected.None? || selected.value < |items|
    }

    method AddItem(value: string, text: string)
      modifies this`items
      ensures items == old(items) + [Item(value, text)]
    {
      items := items + [Item(value, text)];
    }

    /** ListBox::FindItem: the search loop over the indices. */
    method FindItem(value: string) returns (index: int)
      ensures index == IndexOf(items, value)
      ensures index >= 0 ==> items[index].value == value
      ensures index == -1 <==> forall j :: 0 <= j < |items| ==> items[j].value != value
    {
      var size := |items|;
      var i := 0;
      while i < size
        invariant 0 <= i <= size
        invariant forall j :: 0 <= j < i ==> items[j].value != value
      {
        if items[i].value == value {
          return i;
        }
        i := i + 1;
      }
      return -1;
    }

    /**
     * RemoveItem by value: the first matching item goes, the others keep
     * their order, and a missing value removes nothing. The selected slot
     * is not touched.
     */
    method RemoveItem(value: string)
      modifies this`items
      ensures items == Without(old(items), value)
    {
      var index := FindItem(value);
      RemoveItemAt(index);
    }

    /**
     * RemoveItem by index: a negative index removes nothing. Erasing past
     * the end is undefined behaviour, not an out_of_range exception, so an
     * index below the count is demanded.
     */
    method RemoveItemAt(index: int)
      requires index < |items|
      modifies this`items
      ensures index < 0 ==> items == old(items)
      ensures index >= 0 ==> items == old(items)[..index] + old(items)[index + 1..]
    {
      if index >= 0 {
        items := items[..index] + items[index + 1..];
      }
    }

    method Clear()
      modifies this`items, this`selected
      ensures items == [] && selected == None
    {
      items := [];
      selected := None;
    }

    method ScrollUp()
      modifies this`scroll
      ensures scroll == ScrolledUp(old(scroll), LineScroll())
    {
      scroll := scroll - LineScroll();
      if scroll < 0 {
        scroll := 0;
      }
    }

    method ScrollDown()
      modifies this`scroll
      ensures scroll == ScrolledDown(old(scroll), LineScroll(), MaxScroll())
    {
      scroll := scroll + LineScroll();
      var maxScroll := MaxScroll();
      if scroll > maxScroll {
        scroll := maxScroll;
      }
    }

    /**
     * ListBox::MouseUp, for a release at screen row `mouseY` over a box whose
     * top is at screen row `top`: the wheel scrolls, any other button selects
     * the row under the pointer when there is an item there. `changed` is
     * whether the Changed hook ran; the event is always reported handled.
     * Dividing by the line height needs it to be non-zero.
     */
    method MouseUp(button: int, mouseY: int, top: int) returns (handled: bool, changed: bool)
      requires LineScroll() > 0
      modifies this`scroll, this`selected
      ensures handled
      ensures button == WheelDown ==> scroll == ScrolledDown(old(scroll), LineScroll(), MaxScroll()) && selected == old(selected) && !changed
      ensures button == WheelUp ==> scroll == ScrolledUp(old(scroll), LineScroll()) && selected == old(selected) && !changed
      ensures button != WheelDown && button != WheelUp ==>
                var index := TruncDiv(mouseY - top + old(scroll), LineScroll());
                && scroll == old(scroll)
                && (changed <==> 0 <= index < |items|)
                && selected == (if changed then Some(index) else old(selected))
    {
      changed := false;
      if button == WheelDown {
        ScrollDown();
      } else if button == WheelUp {
        ScrollUp();
      } else {
        var y := mouseY - top;
        var index := TruncDiv(y + scroll, LineScroll());
        if 0 <= index < |items| {
          selected := Some(index);
          changed := true;
        }
      }
      handled := true;
    }

    /** ListBox::SelectedValue: the selected item's value, or "" when nothing is selected. */
    function SelectedValue(): (r: string)
      requires SelectionInRange()
      reads this
      ensures selected.None? ==> r == ""
      ensures selected.Some? ==> r == items[selected.value].value
    {
      if selected.Some? then items[selected.value].value else ""
    }

    /** ListBox::SelectedText: the selected item's text, or "" when nothing is selected. */
    function SelectedText(): (r: string)
      requires SelectionInRange()
      reads this
      ensures selected.None? ==> r == ""
      ensures selected.Some? ==> r == items[selected.value].text
    {
      if selected.Some? then items[selected.value].text else ""
    }

    /**
     * Select by value: the first item holding the value becomes the
     * selection and Changed runs; without one nothing changes.
     */
    method Select(value: string) returns (changed: bool)
      modifies this`selected
      ensures var i := IndexOf(items, value);
              && (changed <==> i >= 0)
              && selected == (if i >= 0 then Some(i) else old(selected))
      ensures changed ==> SelectionInRange() && SelectedValue() == value
    {
      changed := false;
      var i := 0;
      while i < |items| && !changed
        invariant 0 <= i <= |items|
        invariant !changed ==> selected == old(selected) && forall j :: 0 <= j < i ==> items[j].value != value
        invariant changed ==> selected == Some(IndexOf(items, value)) && IndexOf(items, value) >= 0
        decreases |items| - i, if changed then 0 else 1
      {
        if items[i].value == value {
          selected := Some(i);
          changed := true;
        } else {
          i := i + 1;
        }
      }
    }

    /**
     * Select by index: a negative index clears the selection (and Changed
     * runs), an index past the end does nothing, and any other selects the
     * first item sharing that index's value.
     */
    method SelectAt(index: int) returns (changed: bool)
      modifies this`selected
      ensures index < 0 ==> selected == None && changed
      ensures index >= |items| ==> selected == old(selected) && !changed
      ensures 0 <= index < |items| ==> selected == Some(IndexOf(items, items[index].value)) && changed
    {
      if index < 0 {
        selected := None;
        changed := true;
      } else if index < |items| {
        changed := Select(items[index].value);
      } else {
        changed := false;
      }
    }
  }

  /** ListBoxButton: one of the two arrows beside a list box. */
  class ListBoxButton {
    const listBox: ListBox?
    const action: int

    constructor (listBox: ListBox?, action: int)
      ensures this.listBox == listBox && this.action == action
    {
      this.listBox := listBox;
      this.action := action;
    }

    /** ListBoxButton::Clicked: the up arrow scrolls up, the down arrow down, whatever the button. */
    method Clicked(button: int)
      modifies (if listBox == null then {} else {listBox})`scroll
      ensures listBox != null && action == ScrollUpAction ==>
                listBox.scroll == ScrolledUp(old(listBox.scroll), listBox.LineScroll())
      ensures listBox != null && action == ScrollDownAction ==>
                listBox.scroll == ScrolledDown(old(listBox.scroll), listBox.LineScroll(), listBox.MaxScroll())
      ensures listBox != null ==> listBox.items == old(listBox.items) && listBox.selected == old(listBox.selected)
      ensures listBox != null && action != ScrollUpAction && action != ScrollDownAction ==> listBox.scroll == old(listBox.scroll)
    {
      if action == ScrollUpAction && listBox != null {
        listBox.ScrollUp();
      } else if action == ScrollDownAction && listBox != null {
        listBox.ScrollDown();
      }
    }
  }
}

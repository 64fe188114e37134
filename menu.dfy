/**
  Menus (src/components/menu.ts): the chain of submenu layers a top menu
  keeps open, hiding layers from a point on, and the single selected and
  single hovered item. Menu items and submenus are numbered; an item's
  `parent` is the submenu it sits in (`None` for the top menu) and its
  `subMenu` the submenu that follows it, if any.
*/
module Menus {
  import opened Wrappers

  datatype MenuItemInfo = MenuItemInfo(parent: Option<nat>, subMenu: Option<nat>)

  /**
    `SubMenu.onCreated` (line 501): a submenu inside the top menu has depth 1,
    one inside another submenu one more than its parent.
  */
  ghost predicate DepthsConsistent(parentOf: map<nat, nat>, deep: map<nat, nat>)
  {
    && (forall s :: s in parentOf ==> s in deep && parentOf[s] in deep && deep[s] == deep[parentOf[s]] + 1)
    && (forall s :: s in deep && s !in parentOf ==> deep[s] == 1)
  }

  /** The submenus from the outermost one down to `s`: what `onSubMenuOpened` builds. */
  function Chain(parentOf: map<nat, nat>, deep: map<nat, nat>, s: nat): (r: seq<nat>)
    requires DepthsConsistent(parentOf, deep) && s in deep
    decreases deep[s]
    ensures |r| == deep[s] && r[|r| - 1] == s && r[0] !in parentOf
    ensures forall i :: 1 <= i < |r| ==> r[i] in parentOf && parentOf[r[i]] == r[i - 1]
    ensures forall i :: 0 <= i < |r| ==> r[i] in deep && deep[r[i]] == i + 1
  {
    if s in parentOf then Chain(parentOf, deep, parentOf[s]) + [s] else [s]
  }

  /** A chain never repeats a submenu: the depths along it increase. */
  lemma ChainIsDistinct(parentOf: map<nat, nat>, deep: map<nat, nat>, s: nat)
    requires DepthsConsistent(parentOf, deep) && s in deep
    ensures var r := Chain(parentOf, deep, s); forall i, j :: 0 <= i < j < |r| ==> r[i] != r[j]
  {
    var r := Chain(parentOf, deep, s);
    forall i, j | 0 <= i < j < |r|
      ensures r[i] != r[j]
    {
      assert deep[r[i]] != deep[r[j]];
    }
  }

  /** The opened-layers list and the submenus whose `opened` flag is set. */
  datatype Layers = Layers(openedSubMenus: seq<nat>, subOpened: set<nat>)

  /** The list has no repeats and lists only opened submenus. */
  ghost predicate LayersValid(l: Layers)
  {
    && (forall i, j :: 0 <= i < j < |l.openedSubMenus| ==> l.openedSubMenus[i] != l.openedSubMenus[j])
    && (forall i :: 0 <= i < |l.openedSubMenus| ==> l.openedSubMenus[i] in l.subOpened)
  }

  /** `findIndex(menu => menu === s)`. */
  function IndexOf(xs: seq<nat>, x: nat): (r: Option<nat>)
    ensures r.Some? <==> x in xs
    ensures r.Some? ==> r.value < |xs| && xs[r.value] == x && x !in xs[..r.value]
  {
    if xs == [] then None
    else if xs[0] == x then Some(0)
    else
      match IndexOf(xs[1..], x)
      case None => None
      case Some(k) =>
        assert xs[..k + 1] == [xs[0]] + xs[1..][..k];
        Some(k + 1)
  }

  /**
    `hideSubMenuLayer`: when `s` is opened at index i, every listed submenu
    from i on is hidden and the list keeps its first i entries; otherwise
    nothing changes.
  */
  function HideLayer(l: Layers, s: nat): (r: Layers)
    ensures s !in r.openedSubMenus && r.openedSubMenus <= l.openedSubMenus
    ensures s !in l.openedSubMenus ==> r == l
    ensures s in l.openedSubMenus ==>
      var i := IndexOf(l.openedSubMenus, s).value;
      r.openedSubMenus == l.openedSubMenus[..i] &&
      r.subOpened == l.subOpened - set x | x in l.openedSubMenus[i..]
  {
    match IndexOf(l.openedSubMenus, s)
    case None => l
    case Some(i) => Layers(l.openedSubMenus[..i], l.subOpened - set x | x in l.openedSubMenus[i..])
  }

  lemma HideLayerKeepsValid(l: Layers, s: nat)
    requires LayersValid(l)
    ensures LayersValid(HideLayer(l, s))
  {
    if s in l.openedSubMenus {
      var i := IndexOf(l.openedSubMenus, s).value;
      var r := HideLayer(l, s);
      forall k | 0 <= k < |r.openedSubMenus|
        ensures r.openedSubMenus[k] in r.subOpened
      {
      }
    }
  }

  /** Whether the item at `k` is a sibling of the item at `item` with a submenu. */
  predicate SiblingWithSubMenu(items: seq<MenuItemInfo>, item: nat, k: nat)
    requires item < |items| && k < |items|
  {
    k != item && items[k].parent == items[item].parent && items[k].subMenu.Some?
  }

  /**
    The sibling loop of `setHoverItem` as evidently intended, over the
    first `n` items: each other item of the same menu whose submenu is
    opened has that submenu's layer hidden.
  */
  function HideSiblings(l: Layers, items: seq<MenuItemInfo>, item: nat, n: nat): Layers
    requires item < |items| && n <= |items|
  {
    if n == 0 then l
    else
      var prev := HideSiblings(l, items, item, n - 1);
      if SiblingWithSubMenu(items, item, n - 1) && items[n - 1].subMenu.value in prev.subOpened
      then HideLayer(prev, items[n - 1].subMenu.value)
      else prev
  }

  /** Hiding siblings only hides: the list shrinks to a prefix, validity holds. */
  /** The `forEach` of `setHoverItem` with the intended sibling test. */
  method HideSiblingLayers(start: Layers, items: seq<MenuItemInfo>, item: nat) returns (layers: Layers)
    requires item < |items| && LayersValid(start)
    ensures layers == HideSiblings(start, items, item, |items|)
    ensures LayersValid(layers) && layers.openedSubMenus <= start.openedSubMenus
  {
    layers := start;
    var k := 0;
    while k < |items|
      invariant 0 <= k <= |items|
      invariant layers == HideSiblings(start, items, item, k)
    {
      if SiblingWithSubMenu(items, item, k) && items[k].subMenu.value in layers.subOpened {
        layers := HideLayer(layers, items[k].subMenu.value);
      }
      k := k + 1;
    }
    HideSiblingsShrinks(start, items, item, |items|);
  }

  lemma {:induction false} HideSiblingsShrinks(l: Layers, items: seq<MenuItemInfo>, item: nat, n: nat)
    requires item < |items| && n <= |items| && LayersValid(l)
    ensures var r := HideSiblings(l, items, item, n); LayersValid(r) && r.openedSubMenus <= l.openedSubMenus
  {
    if n > 0 {
      HideSiblingsShrinks(l, items, item, n - 1);
      var prev := HideSiblings(l, items, item, n - 1);
      if SiblingWithSubMenu(items, item, n - 1) && items[n - 1].subMenu.value in prev.subOpened {
        HideLayerKeepsValid(prev, items[n - 1].subMenu.value);
      }
    }
  }

  /**
    After the intended sibling loop, the submenu of no sibling among the
    first `n` items is still listed as opened.
  */
  lemma {:induction false} SiblingSubMenusHidden(l: Layers, items: seq<MenuItemInfo>, item: nat, n: nat)
    requires item < |items| && n <= |items| && LayersValid(l)
    ensures var r := HideSiblings(l, items, item, n);
      forall k :: 0 <= k < n && SiblingWithSubMenu(items, item, k) ==> items[k].subMenu.value !in r.openedSubMenus
  {
    if n > 0 {
      SiblingSubMenusHidden(l, items, item, n - 1);
      HideSiblingsShrinks(l, items, item, n - 1);
      var prev := HideSiblings(l, items, item, n - 1);
      var r := HideSiblings(l, items, item, n);
      assert r.openedSubMenus <= prev.openedSubMenus;
      forall k | 0 <= k < n && SiblingWithSubMenu(items, item, k)
        ensures items[k].subMenu.value !in r.openedSubMenus
      {
        var sub := items[k].subMenu.value;
        if k < n - 1 {
          NotInPrefix(r.openedSubMenus, prev.openedSubMenus, sub);
        } else if sub !in prev.subOpened {
          assert sub !in prev.openedSubMenus;
          assert r == prev;
        }
      }
    }
  }

  lemma NotInPrefix(a: seq<nat>, b: seq<nat>, x: nat)
    requires a <= b && x !in b
    ensures x !in a
  {
  }

  /** Whether item `c` has a submenu whose `opened` flag is set. */
  predicate HasOpenedSubMenu(items: seq<MenuItemInfo>, subOpened: set<nat>, c: nat)
  {
    c < |items| && items[c].subMenu.Some? && items[c].subMenu.value in subOpened
  }

  /** The test of the first `find` of `hoverOneItem`. */
  function OpenedTest(children: seq<nat>, items: seq<MenuItemInfo>, subOpened: set<nat>): nat --> bool
    requires forall c :: c in children ==> c < |items|
  {
    c requires c in children => HasOpenedSubMenu(items, subOpened, c)
  }

  /** The test of the second `find` of `hoverOneItem`. */
  function SelectedTest(children: seq<nat>, selected: set<nat>): nat --> bool
  {
    c requires c in children => c in selected
  }

  /**
    `hoverOneItem` over the menu's direct items: the first one whose
    submenu is opened, else the first selected one, else the first.
  */
  function HoverCandidate(children: seq<nat>, items: seq<MenuItemInfo>, subOpened: set<nat>, selected: set<nat>)
    : (r: Option<nat>)
    requires forall c :: c in children ==> c < |items|
    ensures r.None? <==> children == []
    ensures r.Some? ==> r.value in children
    ensures (exists c :: c in children && HasOpenedSubMenu(items, subOpened, c)) ==>
      HasOpenedSubMenu(items, subOpened, r.value)
    ensures ((forall c :: c in children ==> !HasOpenedSubMenu(items, subOpened, c)) &&
             (exists c :: c in children && c in selected)) ==> r.value in selected
    ensures children != [] && (forall c :: c in children ==> !HasOpenedSubMenu(items, subOpened, c) && c !in selected) ==>
      r == Some(children[0])
  {
    var withOpened := FirstWhere(children, OpenedTest(children, items, subOpened));
    if withOpened.Some? then withOpened
    else
      var withSelected := FirstWhere(children, SelectedTest(children, selected));
      if withSelected.Some? then withSelected
      else if children == [] then None
      else Some(children[0])
  }

  /**
    The candidate comes first among its kind: no earlier child has an
    opened submenu, and when none has one, no earlier child is selected.
  */
  lemma HoverCandidateIsFirst(children: seq<nat>, items: seq<MenuItemInfo>, subOpened: set<nat>, selected: set<nat>)
    requires forall c :: c in children ==> c < |items|
    requires children != []
    ensures exists i :: (0 <= i < |children| && children[i] == HoverCandidate(children, items, subOpened, selected).value &&
      (forall j :: 0 <= j < i ==> !HasOpenedSubMenu(items, subOpened, children[j])) &&
      ((forall c :: c in children ==> !HasOpenedSubMenu(items, subOpened, c)) ==>
         forall j :: 0 <= j < i ==> children[j] !in selected))
  {
    var withSub := OpenedTest(children, items, subOpened);
    var isSelected := SelectedTest(children, selected);
    FirstWhereIsFirst(children, withSub);
    FirstWhereIsFirst(children, isSelected);
    var r := HoverCandidate(children, items, subOpened, selected).value;
    if FirstWhere(children, withSub).Some? {
      var i :| 0 <= i < |children| && children[i] == r && forall j :: 0 <= j < i ==> !withSub(children[j]);
      assert forall j :: 0 <= j < i ==> !HasOpenedSubMenu(items, subOpened, children[j]);
    } else if FirstWhere(children, isSelected).Some? {
      var i :| 0 <= i < |children| && children[i] == r && forall j :: 0 <= j < i ==> !isSelected(children[j]);
      assert forall j :: 0 <= j < i ==> children[j] !in selected;
    } else {
      assert children[0] == r;
    }
  }

  /** `find`: the first element satisfying `p`. */
  function FirstWhere(xs: seq<nat>, p: nat --> bool): (r: Option<nat>)
    requires forall x :: x in xs ==> p.requires(x)
    ensures r.Some? ==> r.value in xs && p(r.value)
    ensures r.None? <==> forall x :: x in xs ==> !p(x)
  {
    if xs == [] then None
    else if p(xs[0]) then Some(xs[0])
    else FirstWhere(xs[1..], p)
  }

  /** What `find` finds sits at an index before which nothing satisfies `p`. */
  lemma {:induction false} FirstWhereIsFirst(xs: seq<nat>, p: nat --> bool)
    requires forall x :: x in xs ==> p.requires(x)
    ensures FirstWhere(xs, p).Some? ==>
      exists i :: 0 <= i < |xs| && xs[i] == FirstWhere(xs, p).value && forall j :: 0 <= j < i ==> !p(xs[j])
  {
    if xs != [] && !p(xs[0]) {
      assert forall x :: x in xs[1..] ==> x in xs;
      FirstWhereIsFirst(xs[1..], p);
      if FirstWhere(xs[1..], p).Some? {
        var i :| 0 <= i < |xs[1..]| && xs[1..][i] == FirstWhere(xs[1..], p).value && forall j :: 0 <= j < i ==> !p(xs[1..][j]);
        assert xs[i + 1] == FirstWhere(xs, p).value;
        assert forall j :: 0 <= j < i + 1 ==> !p(xs[j]) by {
          forall j | 0 <= j < i + 1
            ensures !p(xs[j])
          {
            if j > 0 {
              assert xs[j] == xs[1..][j - 1];
            }
          }
        }
      }
    } else if xs != [] {
      assert xs[0] == FirstWhere(xs, p).value;
    }
  }

  class Menu {
    var selectable: bool
    var items: seq<MenuItemInfo>
    var parentOf: map<nat, nat>
    var deep: map<nat, nat>
    var selectedItem: Option<nat>
    var hoverItem: Option<nat>
    /** The items whose `selected` flag is set. */
    var selected: set<nat>
    /** The items whose `hoverAt` flag is set. */
    var hoverAt: set<nat>
    var openedSubMenus: seq<nat>
    /** The submenus whose `opened` flag is set. */
    var subOpened: set<nat>
    /** The items announced by `select` events. */
    var selectEvents: seq<nat>

    constructor(selectable: bool)
      ensures this.selectable == selectable && items == [] && parentOf == map[] && deep == map[]
      ensures selectedItem == None && hoverItem == None && selected == {} && hoverAt == {}
      ensures openedSubMenus == [] && subOpened == {} && selectEvents == []
      ensures Valid()
    {
      this.selectable := selectable;
      items := [];
      parentOf := map[];
      deep := map[];
      selectedItem := None;
      hoverItem := None;
      selected := {};
      hoverAt := {};
      openedSubMenus := [];
      subOpened := {};
      selectEvents := [];
    }

    /**
      At most one item is selected (the remembered one) and at most one is
      hovered; submenu depths follow their parents; the opened list is valid.
    */
    ghost predicate Valid()
      reads this
    {
      && (selectable ==> selected <= (if selectedItem.Some? then {selectedItem.value} else {}))
      && hoverAt <= (if hoverItem.Some? then {hoverItem.value} else {})
      && (hoverItem.Some? ==> hoverItem.value < |items|)
      && (forall k :: 0 <= k < |items| && items[k].parent.Some? ==> items[k].parent.value in deep)
      && DepthsConsistent(parentOf, deep)
      && LayersValid(Layers(openedSubMenus, subOpened))
    }

    /** `SubMenu.onCreated`: register submenu `s`, inside submenu `parent` or the top menu. */
    method CreateSubMenu(s: nat, parent: Option<nat>)
      requires Valid() && s !in deep && (parent.Some? ==> parent.value in deep)
      modifies this
      ensures Valid()
      ensures deep == old(deep)[s := if parent.Some? then old(deep)[parent.value] + 1 else 1]
      ensures parentOf == if parent.Some? then old(parentOf)[s := parent.value] else old(parentOf)
      ensures items == old(items) && openedSubMenus == old(openedSubMenus) && subOpened == old(subOpened) && selected == old(selected) && hoverAt == old(hoverAt)
      ensures selectedItem == old(selectedItem) && hoverItem == old(hoverItem) && selectEvents == old(selectEvents) && selectable == old(selectable)
    {
      if parent.Some? {
        deep := deep[s := deep[parent.value] + 1];
        parentOf := parentOf[s := parent.value];
      } else {
        deep := deep[s := 1];
      }
    }

    /** `hideSubMenuLayer`. */
    method HideSubMenuLayer(s: nat)
      requires Valid()
      modifies this
      ensures Valid()
      ensures Layers(openedSubMenus, subOpened) == HideLayer(old(Layers(openedSubMenus, subOpened)), s)
      ensures items == old(items) && parentOf == old(parentOf) && deep == old(deep) && selectable == old(selectable) && selectedItem == old(selectedItem) && hoverItem == old(hoverItem)
      ensures selected == old(selected) && hoverAt == old(hoverAt) && selectEvents == old(selectEvents)
    {
      HideLayerKeepsValid(Layers(openedSubMenus, subOpened), s);
      var index := IndexOf(openedSubMenus, s);
      if index.Some? {
        var hidden := openedSubMenus[index.value..];
        var stillOpened := subOpened;
        var j := 0;
        while j < |hidden|
          invariant 0 <= j <= |hidden|
          invariant stillOpened == subOpened - set x | x in hidden[..j]
        {
          assert hidden[..j + 1] == hidden[..j] + [hidden[j]];
          stillOpened := stillOpened - {hidden[j]};
          j := j + 1;
        }
        assert hidden[..j] == hidden;
        subOpened := stillOpened;
        openedSubMenus := openedSubMenus[..index.value];
      }
    }

    /** `hideAllSubMenuLayers`: hide every listed submenu and empty the list. */
    method HideAllSubMenuLayers()
      requires Valid()
      modifies this
      ensures Valid()
      ensures openedSubMenus == [] && subOpened == old(subOpened) - set x | x in old(openedSubMenus)
      ensures items == old(items) && parentOf == old(parentOf) && deep == old(deep) && selectable == old(selectable) && selectedItem == old(selectedItem) && hoverItem == old(hoverItem)
      ensures selected == old(selected) && hoverAt == old(hoverAt) && selectEvents == old(selectEvents)
    {
      var stillOpened := subOpened;
      var j := 0;
      while j < |openedSubMenus|
        invariant 0 <= j <= |openedSubMenus|
        invariant stillOpened == subOpened - set x | x in openedSubMenus[..j]
      {
        assert openedSubMenus[..j + 1] == openedSubMenus[..j] + [openedSubMenus[j]];
        stillOpened := stillOpened - {openedSubMenus[j]};
        j := j + 1;
      }
      assert openedSubMenus[..j] == openedSubMenus;
      subOpened := stillOpened;
      openedSubMenus := [];
    }

    /**
      `onSubMenuOpened`: the opened list becomes the chain of `s`, and the
      previously listed submenus outside that chain are hidden. Its caller,
      `SubMenu.showInLayer`, sets the flag of `s` before the call, and the
      mouse reaches the item of `s` only inside the shown layers of its
      parents, so the chain is opened; the precondition says so, which
      keeps the list listing opened submenus only.
    */
    method OnSubMenuOpened(s: nat)
      requires Valid() && s in deep
      requires forall x :: x in Chain(parentOf, deep, s) ==> x in subOpened
      modifies this
      ensures items == old(items) && parentOf == old(parentOf) && deep == old(deep) && selectable == old(selectable)
      ensures Valid()
      ensures openedSubMenus == Chain(parentOf, deep, s)
      ensures subOpened == old(subOpened) - set x | x in old(openedSubMenus) && x !in openedSubMenus
      ensures selectedItem == old(selectedItem) && hoverItem == old(hoverItem) && selected == old(selected) && hoverAt == old(hoverAt) && selectEvents == old(selectEvents)
    {
      var chain := ChainOf(s);
      var stillOpened := KeptOpen(chain);
      ChainIsDistinct(parentOf, deep, s);
      subOpened := stillOpened;
      openedSubMenus := chain;
    }

    /** The `for` of `onSubMenuOpened`: hide each listed submenu outside `chain`. */
    method KeptOpen(chain: seq<nat>) returns (stillOpened: set<nat>)
      ensures stillOpened == subOpened - set x | x in openedSubMenus && x !in chain
    {
      stillOpened := subOpened;
      var j := 0;
      while j < |openedSubMenus|
        invariant 0 <= j <= |openedSubMenus|
        invariant stillOpened == subOpened - set x | x in openedSubMenus[..j] && x !in chain
      {
        assert openedSubMenus[..j + 1] == openedSubMenus[..j] + [openedSubMenus[j]];
        if openedSubMenus[j] !in chain {
          stillOpened := stillOpened - {openedSubMenus[j]};
        }
        j := j + 1;
      }
      assert openedSubMenus[..j] == openedSubMenus;
    }

    /** The `while` of `onSubMenuOpened`: prepend parents while they are submenus. */
    method ChainOf(s: nat) returns (chain: seq<nat>)
      requires DepthsConsistent(parentOf, deep) && s in deep
      ensures chain == Chain(parentOf, deep, s)
    {
      chain := [s];
      var parent: Option<nat> := if s in parentOf then Some(parentOf[s]) else None;
      while parent.Some?
        invariant parent.Some? ==> parent.value in deep && Chain(parentOf, deep, s) == Chain(parentOf, deep, parent.value) + chain
        invariant parent.None? ==> Chain(parentOf, deep, s) == chain
        decreases if parent.Some? then deep[parent.value] else 0
      {
        var p := parent.value;
        chain := [p] + chain;
        parent := if p in parentOf then Some(parentOf[p]) else None;
      }
    }

    /**
      `setHoverItem` as written (lines 97-114): the hover flag moves to
      `item`. The sibling test `item !== item` compares the callback's own
      parameter with itself and is always false, so the loop over the
      siblings hides nothing and is left out here.
    */
    method SetHoverItemAsWritten(item: Option<nat>)
      requires Valid() && (item.Some? ==> item.value < |items|)
      modifies this
      ensures Valid()
      ensures hoverItem == item && hoverAt == (if item.Some? then {item.value} else {})
      ensures openedSubMenus == old(openedSubMenus) && subOpened == old(subOpened) && items == old(items) && parentOf == old(parentOf) && deep == old(deep) && selectable == old(selectable)
      ensures selectedItem == old(selectedItem) && selected == old(selected) && selectEvents == old(selectEvents)
    {
      if hoverItem.Some? {
        hoverAt := hoverAt - {hoverItem.value};
      }
      hoverItem := item;
      if item.Some? {
        hoverAt := hoverAt + {item.value};
      }
    }

    /**
      `setHoverItem` as evidently intended: the hover flag moves to `item`,
      and the opened submenu of every other item of the same menu is hidden.
    */
    method SetHoverItem(item: Option<nat>)
      requires Valid() && (item.Some? ==> item.value < |items|)
      modifies this
      ensures Valid()
      ensures hoverItem == item && hoverAt == (if item.Some? then {item.value} else {})
      ensures item.None? ==> openedSubMenus == old(openedSubMenus) && subOpened == old(subOpened)
      ensures item.Some? ==>
        Layers(openedSubMenus, subOpened) == HideSiblings(old(Layers(openedSubMenus, subOpened)), items, item.value, |items|)
      ensures items == old(items) && parentOf == old(parentOf) && deep == old(deep) && selectable == old(selectable)
      ensures selectedItem == old(selectedItem) && selected == old(selected) && selectEvents == old(selectEvents)
    {
      if hoverItem.Some? {
        hoverAt := hoverAt - {hoverItem.value};
      }
      hoverItem := item;
      if item.Some? {
        hoverAt := hoverAt + {item.value};
        var layers := HideSiblingLayers(Layers(openedSubMenus, subOpened), items, item.value);
        openedSubMenus := layers.openedSubMenus;
        subOpened := layers.subOpened;
      }
    }

    /**
      `selectItem`: on a selectable menu the selection moves to `item` and
      is announced; the item is hovered either way.
    */
    method SelectItem(item: nat)
      requires Valid() && item < |items|
      modifies this
      ensures Valid()
      ensures selectable ==> selectedItem == Some(item) && selected == old(selected) - (if old(selectedItem).Some? then {old(selectedItem).value} else {}) + {item}
      ensures selectable ==> selectEvents == old(selectEvents) + [item]
      ensures !selectable ==> selectedItem == old(selectedItem) && selected == old(selected) && selectEvents == old(selectEvents)
      ensures hoverItem == Some(item) && hoverAt == {item}
      ensures Layers(openedSubMenus, subOpened) == HideSiblings(old(Layers(openedSubMenus, subOpened)), items, item, |items|)
      ensures items == old(items) && parentOf == old(parentOf) && deep == old(deep) && selectable == old(selectable)
    {
      if selectable {
        if selectedItem.Some? {
          selected := selected - {selectedItem.value};
        }
        selected := selected + {item};
        selectedItem := Some(item);
        selectEvents := selectEvents + [item];
      }
      SetHoverItem(Some(item));
    }

    /** `hoverOneItem`, over the menu's direct items `children`. */
    method HoverOneItem(children: seq<nat>)
      requires Valid() && forall c :: c in children ==> c < |items|
      modifies this
      ensures Valid()
      ensures var candidate := old(HoverCandidate(children, items, subOpened, selected));
        candidate.Some? ==> hoverItem == candidate && hoverAt == {candidate.value}
      ensures children == [] ==> hoverItem == old(hoverItem) && hoverAt == old(hoverAt)
      ensures children == [] ==> openedSubMenus == old(openedSubMenus) && subOpened == old(subOpened)
      ensures items == old(items) && selected == old(selected) && selectedItem == old(selectedItem) && selectable == old(selectable)
      ensures parentOf == old(parentOf) && deep == old(deep) && selectEvents == old(selectEvents)
    {
      var candidate := HoverCandidate(children, items, subOpened, selected);
      if candidate.Some? {
        SetHoverItem(candidate);
      }
    }
  }

  /** Item 0 and item 1 sit in the top menu; item 1 opens submenu 5. */
  const SiblingItems := [MenuItemInfo(None, None), MenuItemInfo(None, Some(5))]

  /** A menu over `SiblingItems` whose submenu 5 is opened and listed. */
  method SubMenuFiveOpened() returns (m: Menu)
    ensures fresh(m) && m.Valid() && m.items == SiblingItems
    ensures m.openedSubMenus == [5] && m.subOpened == {5}
  {
    m := new Menu(false);
    m.items := SiblingItems;
    m.CreateSubMenu(5, None);
    m.subOpened := {5};
    assert Chain(m.parentOf, m.deep, 5) == [5];
    m.OnSubMenuOpened(5);
    assert m.openedSubMenus == [5];
  }

  /** With the intended test, hovering item 0 hides the layer of its sibling's submenu 5. */
  lemma SiblingOfItemZeroHidden()
    ensures HideSiblings(Layers([5], {5}), SiblingItems, 0, 2) == Layers([], {})
  {
    var start := Layers([5], {5});
    assert HideSiblings(start, SiblingItems, 0, 1) == start;
    assert SiblingWithSubMenu(SiblingItems, 0, 1);
    assert IndexOf([5], 5) == Some(0);
    assert [5][0..] == [5];
  }

  /**
    As written, hovering an item leaves a sibling's opened submenu layer
    open: item 0 and item 1 sit in the top menu, item 1's submenu 5 is open.
  */
  method SiblingLayerStaysOpen() returns (m: Menu)
    ensures m.openedSubMenus == [5] && 5 in m.subOpened
  {
    m := SubMenuFiveOpened();
    m.SetHoverItemAsWritten(Some(0));
  }

  /** With the intended test, the same hover hides the sibling's submenu layer. */
  method SiblingLayerCloses() returns (m: Menu)
    ensures m.openedSubMenus == [] && 5 !in m.subOpened
  {
    m := SubMenuFiveOpened();
    SiblingOfItemZeroHidden();
    m.SetHoverItem(Some(0));
  }
}

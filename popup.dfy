/**
  The `:popup` binding (src/bindings/popup.ts): the registry of popups shared
  by key, the three-level option lookup, the trigger mapping, and the
  show/hide decisions of a binding. Popups are identified by a number;
  timers are pending steps that fire explicitly; whether a popup element is
  locked by mouse tracking is the set `locked`.
*/
module Popup {
  import opened Wrappers

  type PopupId = nat

  /** A rendered popup with the `defaultPopupOptions` it declares, if any. */
  datatype PopupRef = PopupRef(id: PopupId, defaults: Option<map<OptionName, OptionValue>>)

  /** One `{template, popup}` entry of the shared cache; the template is identified by a number. */
  datatype CacheEntry = CacheEntry(template: nat, popup: PopupRef)

  datatype Trigger = Hover | Click | Focus | ContextMenu

  /** The `PopupOptions` keys (`alignTo`, a function, is not modelled). */
  datatype OptionName =
    | Key | TriggerOption | AlignPosition | AlignMargin | CanShrinkInY | StickToEdges | Triangle
    | FixTriangle | ShowDelay | HideDelay | TransitionName | ShowImmediately | AutoFocus | Pointerable

  datatype OptionValue = Text(text: string) | TriggerValue(trigger: Trigger) | Number(number: real) | Flag(flag: bool)

  /** `DefaultPopupOptions` (lines 86-100); there is no default key. */
  const DefaultPopupOptions: map<OptionName, OptionValue> := map[
    TriggerOption := TriggerValue(Hover),
    AlignPosition := Text("b"),
    AlignMargin := Number(4.0),
    CanShrinkInY := Flag(true),
    StickToEdges := Flag(true),
    Triangle := Flag(true),
    FixTriangle := Flag(false),
    ShowDelay := Number(100.0),
    HideDelay := Number(200.0),
    TransitionName := Text("fade"),
    ShowImmediately := Flag(false),
    AutoFocus := Flag(false),
    Pointerable := Flag(true)
  ]

  /**
    `getOption`: the binding's own option, else the current popup's
    `defaultPopupOptions`, else `DefaultPopupOptions`.
  */
  function GetOption(options: map<OptionName, OptionValue>, popup: Option<PopupRef>, name: OptionName)
    : (r: Option<OptionValue>)
    ensures name in options ==> r == Some(options[name])
    ensures name !in options && popup.Some? && popup.value.defaults.Some? && name in popup.value.defaults.value ==>
      r == Some(popup.value.defaults.value[name])
    ensures name !in options && (popup.None? || popup.value.defaults.None? || name !in popup.value.defaults.value) ==>
      r == (if name in DefaultPopupOptions then Some(DefaultPopupOptions[name]) else None)
  {
    if name in options then Some(options[name])
    else if popup.Some? && popup.value.defaults.Some? && name in popup.value.defaults.value then
      Some(popup.value.defaults.value[name])
    else if name in DefaultPopupOptions then Some(DefaultPopupOptions[name])
    else None
  }

  /** Every option but the key has a value, whatever the binding and the popup set. */
  lemma EveryOptionButKeyHasValue(options: map<OptionName, OptionValue>, popup: Option<PopupRef>, name: OptionName)
    ensures name != Key ==> GetOption(options, popup, name).Some?
    ensures GetOption(options, popup, Key).None? <==>
      Key !in options && (popup.None? || popup.value.defaults.None? || Key !in popup.value.defaults.value)
  {
  }

  /** `getMappedTrigger`: without a mouse-like input, hovering becomes clicking. */
  function MappedTrigger(trigger: Trigger, havePointer: bool): (t: Trigger)
    ensures trigger != Hover ==> t == trigger
    ensures trigger == Hover ==> (t == Click <==> !havePointer) && (t == Hover <==> havePointer)
  {
    if trigger == Hover && !havePointer then Click else trigger
  }

  // ---------------------------------------------------------------------
  // The shared popup registry.

  /** The last entry whose popup is not locked: what the backward scan of lines 114-130 finds. */
  function LastUnlocked(entries: seq<CacheEntry>, locked: set<PopupId>): (r: Option<CacheEntry>)
    ensures r.Some? ==> r.value.popup.id !in locked
  {
    if entries == [] then None
    else
      var n := |entries| - 1;
      if entries[n].popup.id !in locked then Some(entries[n])
      else LastUnlocked(entries[..n], locked)
  }

  /**
    The scan finds nothing exactly when every popup is locked; otherwise it
    finds an entry after which every popup is locked.
  */
  lemma {:induction false} LastUnlockedIsLast(entries: seq<CacheEntry>, locked: set<PopupId>)
    ensures var r := LastUnlocked(entries, locked);
      && (r.None? <==> forall k :: 0 <= k < |entries| ==> entries[k].popup.id in locked)
      && (r.Some? ==> exists k :: 0 <= k < |entries| && entries[k] == r.value &&
                        forall j :: k < j < |entries| ==> entries[j].popup.id in locked)
  {
    if entries != [] {
      var n := |entries| - 1;
      if entries[n].popup.id in locked {
        var r := LastUnlocked(entries[..n], locked);
        LastUnlockedIsLast(entries[..n], locked);
        if r.Some? {
          var k :| 0 <= k < n && entries[..n][k] == r.value &&
                   forall j :: k < j < n ==> entries[..n][j].popup.id in locked;
          assert entries[k] == r.value;
        } else {
          assert forall k :: 0 <= k < n ==> entries[..n][k] == entries[k];
        }
      }
    }
  }

  /** `caches.filter(cache => cache.popup !== popup)`. */
  function Without(entries: seq<CacheEntry>, popup: PopupId): (r: seq<CacheEntry>)
    ensures |r| <= |entries|
  {
    if entries == [] then []
    else
      var n := |entries| - 1;
      Without(entries[..n], popup) + (if entries[n].popup.id != popup then [entries[n]] else [])
  }

  /** Filtering keeps exactly the entries of other popups. */
  lemma {:induction false} WithoutFilters(entries: seq<CacheEntry>, popup: PopupId)
    ensures forall e :: e in Without(entries, popup) <==> e in entries && e.popup.id != popup
  {
    if entries != [] {
      var n := |entries| - 1;
      WithoutFilters(entries[..n], popup);
      assert entries == entries[..n] + [entries[n]];
    }
  }

  /** Filtering keeps the order: it distributes over concatenation. */
  lemma {:induction false} WithoutKeepsOrder(a: seq<CacheEntry>, b: seq<CacheEntry>, popup: PopupId)
    ensures Without(a + b, popup) == Without(a, popup) + Without(b, popup)
    decreases |b|
  {
    if b == [] {
      assert a + b == a;
    } else {
      var n := |b| - 1;
      assert (a + b)[..|a + b| - 1] == a + b[..n];
      WithoutKeepsOrder(a, b[..n], popup);
    }
  }

  /** With no entry for that popup, filtering changes nothing. */
  lemma {:induction false} WithoutAbsent(entries: seq<CacheEntry>, popup: PopupId)
    requires forall k :: 0 <= k < |entries| ==> entries[k].popup.id != popup
    ensures Without(entries, popup) == entries
  {
    if entries != [] {
      var n := |entries| - 1;
      WithoutAbsent(entries[..n], popup);
      assert entries[..n] + [entries[n]] == entries;
    }
  }

  /** One step of the backward scan: an unlocked entry is the answer, a locked one is skipped. */
  lemma ScanStep(entries: seq<CacheEntry>, i: nat, locked: set<PopupId>)
    requires i < |entries|
    ensures entries[i].popup.id !in locked ==> LastUnlocked(entries[..i + 1], locked) == Some(entries[i])
    ensures entries[i].popup.id in locked ==> LastUnlocked(entries[..i + 1], locked) == LastUnlocked(entries[..i], locked)
  {
    assert entries[..i + 1][..i] == entries[..i];
  }

  /** The module-level `SharedPopupCache` and `SharedPopupsThatsInUse` maps; bindings are numbered. */
  /**
    The registry after `hidePopup` releases popup `id`: under a non-empty
    text key its entries leave that key's list and it leaves the in-use
    map; without one, nothing changes.
  */
  predicate Released(key: Option<OptionValue>, id: PopupId,
                     cache: map<string, seq<CacheEntry>>, inUse: map<PopupId, nat>,
                     cache': map<string, seq<CacheEntry>>, inUse': map<PopupId, nat>)
  {
    if key.Some? && key.value.Text? && key.value.text != "" then
      && inUse' == inUse - {id}
      && cache' == (if key.value.text in cache then cache[key.value.text := Without(cache[key.value.text], id)] else cache)
    else
      cache' == cache && inUse' == inUse
  }

  class SharedPopups {
    var cache: map<string, seq<CacheEntry>>
    var inUse: map<PopupId, nat>

    constructor()
      ensures cache == map[] && inUse == map[]
    {
      cache := map[];
      inUse := map[];
    }

    /** The entry `getSharedPopupCache` finds for `key`. */
    function Reusable(key: string, locked: set<PopupId>): (r: Option<CacheEntry>)
      reads this
      ensures r.Some? ==> key in cache && r.value in cache[key] && r.value.popup.id !in locked
    {
      if key in cache then LastUnlockedIsLast(cache[key], locked); LastUnlocked(cache[key], locked) else None
    }

    /** `getSharedPopupCache`: scan the key's entries from the last one back for an unlocked popup. */
    method GetSharedPopupCache(key: string, locked: set<PopupId>) returns (r: Option<CacheEntry>)
      ensures r == Reusable(key, locked)
    {
      if key !in cache {
        return None;
      }
      var caches := cache[key];
      assert caches[..|caches|] == caches;
      var i := |caches| - 1;
      while i >= 0
        invariant -1 <= i < |caches|
        invariant LastUnlocked(caches, locked) == LastUnlocked(caches[..i + 1], locked)
      {
        var entry := caches[i];
        ScanStep(caches, i, locked);
        if entry.popup.id !in locked {
          return Some(entry);
        }
        i := i - 1;
      }
      return None;
    }

    /** `addSharedPopupCache`: append the entry to the key's list, creating the list if needed. */
    method AddSharedPopupCache(key: string, entry: CacheEntry)
      modifies this
      ensures cache == old(cache)[key := (if key in old(cache) then old(cache)[key] else []) + [entry]]
      ensures inUse == old(inUse)
    {
      var caches := if key in cache then cache[key] else [];
      cache := cache[key := caches + [entry]];
    }

    /** `deleteSharedPopupCache`: drop the entries of that popup from the key's list. */
    method DeleteSharedPopupCache(key: string, popup: PopupId)
      modifies this
      ensures cache == if key in old(cache) then old(cache)[key := Without(old(cache)[key], popup)] else old(cache)
      ensures inUse == old(inUse)
    {
      if key in cache {
        cache := cache[key := Without(cache[key], popup)];
      }
    }

    /** `isSharedPopupKeyInUse`: the reusable popup of the key exists and some binding uses it. */
    method IsSharedPopupKeyInUse(key: string, locked: set<PopupId>) returns (r: bool)
      ensures r <==> Reusable(key, locked).Some? && Reusable(key, locked).value.popup.id in inUse
    {
      var entry := GetSharedPopupCache(key, locked);
      r := entry.Some? && entry.value.popup.id in inUse;
    }
  }

  /** After deleting a popup, the key has no reusable entry with that popup. */
  lemma DeletedPopupIsNotReused(entries: seq<CacheEntry>, popup: PopupId, locked: set<PopupId>)
    ensures var r := LastUnlocked(Without(entries, popup), locked); r.Some? ==> r.value.popup.id != popup
  {
    var r := LastUnlocked(Without(entries, popup), locked);
    if r.Some? {
      LastUnlockedIsLast(Without(entries, popup), locked);
      assert r.value in Without(entries, popup);
      WithoutFilters(entries, popup);
    }
  }

  /** The last added entry is reused when its popup is not locked. */
  lemma LastAddedIsReused(entries: seq<CacheEntry>, entry: CacheEntry, locked: set<PopupId>)
    requires entry.popup.id !in locked
    ensures LastUnlocked(entries + [entry], locked) == Some(entry)
  {
    assert (entries + [entry])[|entries|] == entry;
  }

  // ---------------------------------------------------------------------
  // One binding.

  /** `showDelay` as a number (0 when it is not one). */
  function DelayOf(v: Option<OptionValue>): real
  {
    if v.Some? && v.value.Number? then v.value.number else 0.0
  }

  /** The configured trigger (`'hover'` when it is not a trigger). */
  function TriggerOf(v: Option<OptionValue>): Trigger
  {
    if v.Some? && v.value.TriggerValue? then v.value.trigger else Hover
  }

  /**
    The delay `showPopupLater` waits: none when the key's popup is already
    in use, and none for click and focus triggers.
  */
  function ShowDelayFor(configured: real, trigger: Trigger, keyInUse: bool): (d: real)
    ensures d != configured ==> d == 0.0
    ensures keyInUse || trigger == Click || trigger == Focus ==> d == 0.0
    ensures !keyInUse && trigger != Click && trigger != Focus ==> d == configured
  {
    if keyInUse || trigger == Click || trigger == Focus then 0.0 else configured
  }

  class PopupBinding {
    const id: nat
    const shared: SharedPopups
    var options: map<OptionName, OptionValue>
    var willOpen: bool
    var isOpened: bool
    /** The delay of a pending show timer. */
    var showTimeout: Option<real>
    /** The delay of a pending hide timer. */
    var hideTimeout: Option<real>
    var popup: Option<PopupRef>
    /** An update (`__updateImmediately`) has been enqueued. */
    var updateQueued: bool
    /** The `openedStateChange` events emitted. */
    var openedChanges: seq<bool>

    constructor(id: nat, shared: SharedPopups, options: map<OptionName, OptionValue>)
      ensures this.id == id && this.shared == shared && this.options == options
      ensures !willOpen && !isOpened && showTimeout == None && hideTimeout == None && popup == None
      ensures !updateQueued && openedChanges == []
    {
      this.id := id;
      this.shared := shared;
      this.options := options;
      willOpen := false;
      isOpened := false;
      showTimeout := None;
      hideTimeout := None;
      popup := None;
      updateQueued := false;
      openedChanges := [];
    }

    function OptionOf(name: OptionName): Option<OptionValue>
      reads this
    {
      GetOption(options, popup, name)
    }

    /** The trigger in effect, given whether a mouse-like input is present. */
    function ActiveTrigger(havePointer: bool): Trigger
      reads this
    {
      MappedTrigger(TriggerOf(OptionOf(TriggerOption)), havePointer)
    }

    /** `showPopup`: decide to open and enqueue the update that renders the popup. */
    method ShowPopup()
      modifies this
      ensures willOpen && updateQueued
      ensures isOpened == old(isOpened) && popup == old(popup) && options == old(options)
      ensures showTimeout == old(showTimeout) && hideTimeout == old(hideTimeout) && openedChanges == old(openedChanges)
    {
      willOpen := true;
      updateQueued := true;
    }

    /**
      `showPopupLater`: unless already about to open, decide to open, at
      once or after the show delay.
    */
    method ShowPopupLater(havePointer: bool, locked: set<PopupId>)
      modifies this
      ensures old(willOpen) ==>
        willOpen == old(willOpen) && updateQueued == old(updateQueued) && showTimeout == old(showTimeout)
      ensures !old(willOpen) ==> willOpen
      ensures !old(willOpen) ==>
        var key := OptionOf(Key);
        var keyInUse := key.Some? && key.value.Text? &&
          shared.Reusable(key.value.text, locked).Some? &&
          shared.Reusable(key.value.text, locked).value.popup.id in shared.inUse;
        var delay := ShowDelayFor(DelayOf(OptionOf(ShowDelay)), ActiveTrigger(havePointer), keyInUse);
        if delay > 0.0 then showTimeout == Some(delay) && updateQueued == old(updateQueued)
        else updateQueued && showTimeout == old(showTimeout)
      ensures isOpened == old(isOpened) && popup == old(popup) && options == old(options)
      ensures hideTimeout == old(hideTimeout) && openedChanges == old(openedChanges)
    {
      if willOpen {
        return;
      }
      var trigger := ActiveTrigger(havePointer);
      var key := OptionOf(Key);
      var keyInUse := false;
      if key.Some? && key.value.Text? {
        keyInUse := shared.IsSharedPopupKeyInUse(key.value.text, locked);
      }
      var showDelay := DelayOf(OptionOf(ShowDelay));
      if keyInUse {
        showDelay := 0.0;
      }
      if trigger == Click || trigger == Focus {
        showDelay := 0.0;
      }
      willOpen := true;
      if showDelay > 0.0 {
        showTimeout := Some(showDelay);
      } else {
        ShowPopup();
      }
    }

    /** The show timer fires: show unless the opening was cancelled meanwhile. */
    method ShowTimeoutFires()
      requires showTimeout.Some?
      modifies this
      ensures showTimeout == None
      ensures updateQueued == (old(updateQueued) || old(willOpen)) && willOpen == old(willOpen)
      ensures isOpened == old(isOpened) && popup == old(popup) && options == old(options)
      ensures hideTimeout == old(hideTimeout) && openedChanges == old(openedChanges)
    {
      showTimeout := None;
      if willOpen {
        ShowPopup();
      }
    }

    /** `cancelShowingPopup`: the mouse left the trigger before the popup showed. */
    method CancelShowingPopup()
      modifies this
      ensures !willOpen && showTimeout == None
      ensures isOpened == old(isOpened) && popup == old(popup) && options == old(options) && updateQueued == old(updateQueued)
      ensures hideTimeout == old(hideTimeout) && openedChanges == old(openedChanges)
    {
      willOpen := false;
      showTimeout := None;
    }

    /** `clean`: forget the popup, only when it is open. */
    method Clean()
      modifies this
      ensures old(isOpened) ==> !willOpen && !isOpened && popup == None && openedChanges == old(openedChanges) + [false]
      ensures !old(isOpened) ==>
        willOpen == old(willOpen) && !isOpened && popup == old(popup) && openedChanges == old(openedChanges)
      ensures options == old(options) && showTimeout == old(showTimeout) && hideTimeout == old(hideTimeout)
      ensures updateQueued == old(updateQueued)
    {
      if isOpened {
        willOpen := false;
        isOpened := false;
        openedChanges := openedChanges + [false];
        popup := None;
      }
    }

    /** `hidePopupLater`: when open, give up opening and start the hide timer. */
    method HidePopupLater()
      modifies this
      ensures !old(isOpened) ==>
        willOpen == old(willOpen) && hideTimeout == old(hideTimeout)
      ensures old(isOpened) ==> !willOpen && hideTimeout == Some(DelayOf(OptionOf(HideDelay)))
      ensures isOpened == old(isOpened) && popup == old(popup) && options == old(options)
      ensures showTimeout == old(showTimeout) && updateQueued == old(updateQueued) && openedChanges == old(openedChanges)
    {
      if !isOpened {
        return;
      }
      hideTimeout := Some(DelayOf(OptionOf(HideDelay)));
      willOpen := false;
    }

    /**
      `hidePopup`: a popup shared under a non-empty key leaves the registry
      and the in-use map, then the binding forgets it.
    */
    method HidePopup()
      requires popup.Some?
      modifies this, shared
      ensures Released(old(OptionOf(Key)), old(popup.value.id), old(shared.cache), old(shared.inUse), shared.cache, shared.inUse)
      ensures !isOpened && options == old(options)
      ensures old(isOpened) ==> !willOpen && popup == None && openedChanges == old(openedChanges) + [false]
      ensures !old(isOpened) ==> willOpen == old(willOpen) && popup == old(popup) && openedChanges == old(openedChanges)
      ensures showTimeout == old(showTimeout) && hideTimeout == old(hideTimeout) && updateQueued == old(updateQueued)
    {
      var key := OptionOf(Key);
      var p := popup.value;
      if key.Some? && key.value.Text? && key.value.text != "" {
        shared.DeleteSharedPopupCache(key.value.text, p.id);
        shared.inUse := shared.inUse - {p.id};
      }
      Clean();
    }

    /** The hide timer fires: hide if still open. */
    method HideTimeoutFires()
      requires hideTimeout.Some?
      requires isOpened ==> popup.Some?
      modifies this, shared
      ensures hideTimeout == None && !isOpened
      ensures old(isOpened) ==> !willOpen && popup == None && openedChanges == old(openedChanges) + [false]
      ensures old(isOpened) ==>
        Released(old(OptionOf(Key)), old(popup.value.id), old(shared.cache), old(shared.inUse), shared.cache, shared.inUse)
      ensures !old(isOpened) ==> willOpen == old(willOpen) && popup == old(popup) && openedChanges == old(openedChanges)
      ensures !old(isOpened) ==> shared.cache == old(shared.cache) && shared.inUse == old(shared.inUse)
      ensures options == old(options) && showTimeout == old(showTimeout) && updateQueued == old(updateQueued)
    {
      hideTimeout := None;
      if isOpened {
        HidePopup();
      }
    }

    /** `togglePopupOpened`: a click hides an open popup and shows a closed one at once. */
    method TogglePopupOpened()
      requires isOpened ==> popup.Some?
      modifies this, shared
      ensures old(isOpened) ==> !isOpened && !willOpen && popup == None && openedChanges == old(openedChanges) + [false]
      ensures old(isOpened) ==>
        Released(old(OptionOf(Key)), old(popup.value.id), old(shared.cache), old(shared.inUse), shared.cache, shared.inUse)
      ensures old(isOpened) ==> updateQueued == old(updateQueued)
      ensures !old(isOpened) ==> willOpen && updateQueued && !isOpened && popup == old(popup) && openedChanges == old(openedChanges)
      ensures !old(isOpened) ==> shared.cache == old(shared.cache) && shared.inUse == old(shared.inUse)
      ensures options == old(options) && showTimeout == old(showTimeout) && hideTimeout == old(hideTimeout)
    {
      if isOpened {
        willOpen := false;
        HidePopup();
      } else {
        willOpen := true;
        ShowPopup();
      }
    }
  }
}

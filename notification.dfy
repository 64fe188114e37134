/**
  Notifications (src/components/notification.ts): the list of shown tips
  with numbered ids, the hide timers (pending steps that fire explicitly),
  and the `Notification` / `UniqueNotification` front ends.
*/
module Notifications {
  import opened Wrappers

  datatype NotificationType = InfoType | SuccessType | AlertType

  /** The `NotificationOptions` fields the list logic reads (buttons and callbacks are not modelled). */
  datatype NotificationOptions = NotificationOptions(
    id: Option<int>, kind: Option<NotificationType>, title: Option<string>, content: Option<string>,
    hideDelay: Option<real>)

  /** One shown notification; `timeout` is the delay of its pending hide timer. */
  datatype NotificationItem = NotificationItem(
    id: int, kind: Option<NotificationType>, title: Option<string>, content: Option<string>,
    hideDelay: Option<real>, entered: bool, timeout: Option<real>)

  /** `if (options.id)`: a present, non-zero id. */
  predicate HasId(options: NotificationOptions)
  {
    options.id.Some? && options.id.value != 0
  }

  /** `showNotification` updates a shown item rather than adding one. */
  predicate Reuses(items: seq<NotificationItem>, options: NotificationOptions)
  {
    HasId(options) && FindItem(items, options.id.value).Some?
  }

  /** `items.find(v => v.id === id)`: the index of the first item with that id. */
  function FindItem(items: seq<NotificationItem>, id: int): (r: Option<nat>)
    ensures r.Some? <==> exists k :: 0 <= k < |items| && items[k].id == id
    ensures r.Some? ==> r.value < |items| && items[r.value].id == id
    ensures r.Some? ==> forall k :: 0 <= k < r.value ==> items[k].id != id
  {
    if items == [] then None
    else if items[0].id == id then Some(0)
    else
      match FindItem(items[1..], id)
      case None => None
      case Some(k) => Some(k + 1)
  }

  /** Replacing the first item with an id by another with that id keeps it the first. */
  lemma FindAfterUpdate(items: seq<NotificationItem>, id: int, k: nat, item: NotificationItem)
    requires FindItem(items, id) == Some(k) && item.id == id
    ensures FindItem(items[k := item], id) == Some(k)
  {
    var after := items[k := item];
    assert after[k].id == id;
  }

  /** `delete item.hideDelay; Object.assign(item, options)`: the options' fields replace the item's. */
  function Merged(item: NotificationItem, options: NotificationOptions): (r: NotificationItem)
    ensures r.id == (if options.id.Some? then options.id.value else item.id)
    ensures r.hideDelay == options.hideDelay
    ensures options.content.Some? ==> r.content == options.content
    ensures options.content.None? ==> r.content == item.content
    ensures r.entered == item.entered && r.timeout == item.timeout
  {
    NotificationItem(
      if options.id.Some? then options.id.value else item.id,
      if options.kind.Some? then options.kind else item.kind,
      if options.title.Some? then options.title else item.title,
      if options.content.Some? then options.content else item.content,
      options.hideDelay, item.entered, item.timeout)
  }

  /** `Object.assign({id: seed, entered: false, timeout: null}, options)`. */
  function Created(seed: int, options: NotificationOptions): (r: NotificationItem)
    ensures r.id == (if options.id.Some? then options.id.value else seed)
    ensures !r.entered && r.timeout == None && r.content == options.content && r.hideDelay == options.hideDelay
  {
    NotificationItem(if options.id.Some? then options.id.value else seed,
                     options.kind, options.title, options.content, options.hideDelay, false, None)
  }

  /** `item.hideDelay || this.hideDelay`: an absent or zero delay falls back to the list's. */
  function DelayFor(item: NotificationItem, defaultDelay: real): (d: real)
    ensures item.hideDelay.Some? && item.hideDelay.value != 0.0 ==> d == item.hideDelay.value
    ensures item.hideDelay.None? || item.hideDelay.value == 0.0 ==> d == defaultDelay
  {
    if item.hideDelay.Some? && item.hideDelay.value != 0.0 then item.hideDelay.value else defaultDelay
  }

  /** `hideLater`: (re)start the item's hide timer. */
  function Rescheduled(item: NotificationItem, defaultDelay: real): (r: NotificationItem)
    ensures r.timeout == Some(DelayFor(item, defaultDelay))
    ensures r.(timeout := item.timeout) == item
  {
    item.(timeout := Some(DelayFor(item, defaultDelay)))
  }

  /** `remove(items, items[k])`. */
  function RemovedAt(items: seq<NotificationItem>, k: nat): (r: seq<NotificationItem>)
    requires k < |items|
    ensures |r| == |items| - 1
    ensures forall j :: 0 <= j < k ==> r[j] == items[j]
    ensures forall j :: k <= j < |r| ==> r[j] == items[j + 1]
  {
    items[..k] + items[k + 1..]
  }

  /** No two items share an id, and every id was issued below the seed. */
  ghost predicate IdsUnique(items: seq<NotificationItem>, seed: int)
  {
    && (forall j, k :: 0 <= j < k < |items| ==> items[j].id != items[k].id)
    && (forall k :: 0 <= k < |items| ==> items[k].id < seed)
  }

  /** With unique ids, hiding an id leaves no item with it. */
  lemma HiddenIdIsGone(items: seq<NotificationItem>, seed: int, id: int)
    requires IdsUnique(items, seed) && FindItem(items, id).Some?
    ensures FindItem(RemovedAt(items, FindItem(items, id).value), id).None?
    ensures IdsUnique(RemovedAt(items, FindItem(items, id).value), seed)
  {
    var k := FindItem(items, id).value;
    var r := RemovedAt(items, k);
    forall j | 0 <= j < |r|
      ensures r[j].id != id
    {
      if j >= k {
        assert r[j] == items[j + 1];
      }
    }
  }

  /** What `showNotification` leaves behind: the list, the seed and the id it returns. */
  datatype Shown = Shown(items: seq<NotificationItem>, seed: int, id: int)

  /**
    `showNotification` on a list: an id naming a shown item updates that
    item in place; otherwise a new item, numbered by the seed unless the
    options carry an id, goes in front. Either way its hide timer restarts.
    The id returned is the options' id when they carry one, else the seed;
    the seed moves on exactly when an item is added.
  */
  function AfterShow(items: seq<NotificationItem>, seed: int, hideDelay: real, options: NotificationOptions): (r: Shown)
    ensures options.id.Some? ==> r.id == options.id.value
    ensures options.id.None? ==> r.id == seed
    ensures Reuses(items, options) ==> r.seed == seed && |r.items| == |items|
    ensures !Reuses(items, options) ==> r.seed == seed + 1 && |r.items| == |items| + 1
  {
    if Reuses(items, options) then
      var k := FindItem(items, options.id.value).value;
      Shown(items[k := Rescheduled(Merged(items[k], options), hideDelay)], seed, options.id.value)
    else
      Shown([Rescheduled(Created(seed, options), hideDelay)] + items, seed + 1,
            if options.id.Some? then options.id.value else seed)
  }

  /**
    The item a `showNotification` call reports is shown, and carries the
    type, title and content the options give.
  */
  lemma AfterShowCarriesOptions(items: seq<NotificationItem>, seed: int, hideDelay: real, options: NotificationOptions)
    ensures FindItem(AfterShow(items, seed, hideDelay, options).items, AfterShow(items, seed, hideDelay, options).id).Some?
    ensures var r := AfterShow(items, seed, hideDelay, options);
      var shown := r.items[FindItem(r.items, r.id).value];
      && (options.kind.Some? ==> shown.kind == options.kind)
      && (options.title.Some? ==> shown.title == options.title)
      && (options.content.Some? ==> shown.content == options.content)
  {
    var r := AfterShow(items, seed, hideDelay, options);
    if Reuses(items, options) {
      var k := FindItem(items, options.id.value).value;
      FindAfterUpdate(items, options.id.value, k, r.items[k]);
    } else {
      assert r.items[0].id == r.id;
      assert FindItem(r.items, r.id) == Some(0);
    }
  }

  /** Every other shown item stays shown, unchanged. */
  lemma AfterShowKeepsOthers(items: seq<NotificationItem>, seed: int, hideDelay: real, options: NotificationOptions)
    ensures forall x :: x in items && x.id != AfterShow(items, seed, hideDelay, options).id ==>
      x in AfterShow(items, seed, hideDelay, options).items
  {
    var r := AfterShow(items, seed, hideDelay, options);
    forall x | x in items && x.id != r.id
      ensures x in r.items
    {
      var j :| 0 <= j < |items| && items[j] == x;
      if Reuses(items, options) {
        assert r.items[j] == x;
      } else {
        assert r.items[j + 1] == x;
      }
    }
  }

  class NotificationTips {
    var hideDelay: real
    var seed: int
    var items: seq<NotificationItem>

    /** Property defaults of lines 152-156. */
    constructor()
      ensures hideDelay == 5000.0 && seed == 1 && items == []
    {
      hideDelay := 5000.0;
      seed := 1;
      items := [];
    }

    /** `showNotification`: the list, seed and id become those of `AfterShow`. */
    method ShowNotification(options: NotificationOptions) returns (id: int)
      modifies this
      ensures hideDelay == old(hideDelay)
      ensures Shown(items, seed, id) == AfterShow(old(items), old(seed), hideDelay, options)
      ensures FindItem(items, id).Some?
      ensures IdsUnique(old(items), old(seed)) && (options.id.None? || 0 < options.id.value < old(seed)) ==>
        IdsUnique(items, seed)
    {
      AfterShowCarriesOptions(items, seed, hideDelay, options);
      if HasId(options) {
        var found := FindItem(items, options.id.value);
        if found.Some? {
          var k := found.value;
          var item := Merged(items[k], options);
          items := items[k := Rescheduled(item, hideDelay)];
          return options.id.value;
        }
      }
      var item := Created(seed, options);
      seed := seed + 1;
      items := [Rescheduled(item, hideDelay)] + items;
      return item.id;
    }

    /** `hide`: remove the first item with that id, saying whether there was one. */
    method Hide(id: int) returns (found: bool)
      modifies this
      ensures found <==> FindItem(old(items), id).Some?
      ensures found ==> items == RemovedAt(old(items), FindItem(old(items), id).value)
      ensures !found ==> items == old(items)
      ensures hideDelay == old(hideDelay) && seed == old(seed)
    {
      var k := FindItem(items, id);
      if k.Some? {
        items := RemovedAt(items, k.value);
        return true;
      }
      return false;
    }

    /** `hideAll`. */
    method HideAll()
      modifies this
      ensures items == [] && hideDelay == old(hideDelay) && seed == old(seed)
    {
      items := [];
    }

    /** `onClickClose`: the close button of the item at `k`. */
    method OnClickClose(k: nat)
      requires k < |items|
      modifies this
      ensures items == RemovedAt(old(items), k) && hideDelay == old(hideDelay) && seed == old(seed)
    {
      items := RemovedAt(items, k);
    }

    /** `onMouseEnter`: a hovered item is not hidden by its timer. */
    method OnMouseEnter(k: nat)
      requires k < |items|
      modifies this
      ensures items == old(items)[k := old(items)[k].(entered := true)]
      ensures hideDelay == old(hideDelay) && seed == old(seed)
    {
      items := items[k := items[k].(entered := true)];
    }

    /** `onMouseLeave`: leaving an item restarts its hide timer if none is pending. */
    method OnMouseLeave(k: nat)
      requires k < |items|
      modifies this
      ensures old(items)[k].timeout.None? ==>
        items == old(items)[k := Rescheduled(old(items)[k].(entered := false), hideDelay)]
      ensures old(items)[k].timeout.Some? ==> items == old(items)[k := old(items)[k].(entered := false)]
      ensures hideDelay == old(hideDelay) && seed == old(seed)
    {
      var item := items[k].(entered := false);
      if item.timeout.None? {
        item := Rescheduled(item, hideDelay);
      }
      items := items[k := item];
    }

    /** The hide timer of the item at `k` fires: it is hidden unless the mouse is over it. */
    method HideTimeoutFires(k: nat)
      requires k < |items| && items[k].timeout.Some?
      modifies this
      ensures old(items)[k].entered ==> items == old(items)[k := old(items)[k].(timeout := None)]
      ensures !old(items)[k].entered ==>
        var cleared := old(items)[k := old(items)[k].(timeout := None)];
        FindItem(cleared, old(items)[k].id).Some? &&
        items == RemovedAt(cleared, FindItem(cleared, old(items)[k].id).value)
      ensures hideDelay == old(hideDelay) && seed == old(seed)
    {
      var item := items[k].(timeout := None);
      items := items[k := item];
      if !item.entered {
        assert items[k].id == item.id;
        var _ := Hide(item.id);
      }
    }
    /**
      A hide timer fires for `item` after it left the list: `hide`,
      `hideAll` and `onClickClose` do not cancel the timer, so unless that
      item was entered, the first item now carrying its id is hidden.
    */
    method StaleHideTimeoutFires(item: NotificationItem)
      modifies this
      ensures item.entered ==> items == old(items)
      ensures !item.entered && FindItem(old(items), item.id).Some? ==>
        items == RemovedAt(old(items), FindItem(old(items), item.id).value)
      ensures !item.entered && FindItem(old(items), item.id).None? ==> items == old(items)
      ensures hideDelay == old(hideDelay) && seed == old(seed)
    {
      if !item.entered {
        var _ := Hide(item.id);
      }
    }
  }

  /** `Notification`: shows typed notifications in its tips list. */
  class Notification {
    const tips: NotificationTips

    constructor(tips: NotificationTips)
      ensures this.tips == tips
    {
      this.tips := tips;
    }

    /** `info` / `alert` / `success`: the options with that type and content. */
    static function Typed(kind: NotificationType, content: string, options: NotificationOptions): (r: NotificationOptions)
      ensures r.kind == Some(kind) && r.content == Some(content)
      ensures r.(kind := options.kind, content := options.content) == options
    {
      options.(kind := Some(kind), content := Some(content))
    }

    method ShowNotification(options: NotificationOptions) returns (id: int)
      modifies tips
      ensures Shown(tips.items, tips.seed, id) == AfterShow(old(tips.items), old(tips.seed), tips.hideDelay, options)
      ensures FindItem(tips.items, id).Some? && tips.hideDelay == old(tips.hideDelay)
    {
      id := tips.ShowNotification(options);
    }

    method Info(content: string, options: NotificationOptions) returns (id: int)
      modifies tips
      ensures Shown(tips.items, tips.seed, id) ==
        AfterShow(old(tips.items), old(tips.seed), tips.hideDelay, Typed(InfoType, content, options))
      ensures FindItem(tips.items, id).Some? && tips.hideDelay == old(tips.hideDelay)
      ensures tips.items[FindItem(tips.items, id).value].kind == Some(InfoType)
      ensures tips.items[FindItem(tips.items, id).value].content == Some(content)
    {
      id := ShowTyped(InfoType, content, options);
    }

    method Alert(content: string, options: NotificationOptions) returns (id: int)
      modifies tips
      ensures Shown(tips.items, tips.seed, id) ==
        AfterShow(old(tips.items), old(tips.seed), tips.hideDelay, Typed(AlertType, content, options))
      ensures FindItem(tips.items, id).Some? && tips.hideDelay == old(tips.hideDelay)
      ensures tips.items[FindItem(tips.items, id).value].kind == Some(AlertType)
      ensures tips.items[FindItem(tips.items, id).value].content == Some(content)
    {
      id := ShowTyped(AlertType, content, options);
    }

    method Success(content: string, options: NotificationOptions) returns (id: int)
      modifies tips
      ensures Shown(tips.items, tips.seed, id) ==
        AfterShow(old(tips.items), old(tips.seed), tips.hideDelay, Typed(SuccessType, content, options))
      ensures FindItem(tips.items, id).Some? && tips.hideDelay == old(tips.hideDelay)
      ensures tips.items[FindItem(tips.items, id).value].kind == Some(SuccessType)
      ensures tips.items[FindItem(tips.items, id).value].content == Some(content)
    {
      id := ShowTyped(SuccessType, content, options);
    }

    method ShowTyped(kind: NotificationType, content: string, options: NotificationOptions) returns (id: int)
      modifies tips
      ensures Shown(tips.items, tips.seed, id) ==
        AfterShow(old(tips.items), old(tips.seed), tips.hideDelay, Typed(kind, content, options))
      ensures FindItem(tips.items, id).Some? && tips.hideDelay == old(tips.hideDelay)
      ensures tips.items[FindItem(tips.items, id).value].kind == Some(kind)
      ensures tips.items[FindItem(tips.items, id).value].content == Some(content)
    {
      var typed := Typed(kind, content, options);
      AfterShowCarriesOptions(tips.items, tips.seed, tips.hideDelay, typed);
      id := tips.ShowNotification(typed);
    }
  }

  /**
    `UniqueNotification`: reuses one notification by passing the id it was
    last given.
  */
  class UniqueNotification {
    const raw: Notification
    var id: Option<int>

    constructor(raw: Notification)
      ensures this.raw == raw && id == None
    {
      this.raw := raw;
      id := None;
    }

    /** `overwriteOptions`: a stored non-zero id replaces the options' id. */
    function Overwritten(options: NotificationOptions): (r: NotificationOptions)
      reads this
      ensures id.Some? && id.value != 0 ==> r == options.(id := id)
      ensures !(id.Some? && id.value != 0) ==> r == options
    {
      if id.Some? && id.value != 0 then options.(id := id) else options
    }

    /**
      `showNotification`: show with the stored id, and store the id
      returned. A stored id whose item is gone is shown again under that id.
    */
    method ShowNotification(options: NotificationOptions) returns (r: int)
      modifies this, raw.tips
      ensures Shown(raw.tips.items, raw.tips.seed, r) ==
        AfterShow(old(raw.tips.items), old(raw.tips.seed), raw.tips.hideDelay, old(Overwritten(options)))
      ensures id == Some(r) && FindItem(raw.tips.items, r).Some? && raw.tips.hideDelay == old(raw.tips.hideDelay)
      ensures old(id).Some? && old(id).value != 0 ==> r == old(id).value
    {
      var options' := Overwritten(options);
      r := raw.ShowNotification(options');
      id := Some(r);
    }

    /**
      `info`, as written: the stored id is passed on, but the id returned is
      not stored, so a unique notifier that only calls `info` never has one.
    */
    method Info(content: string, options: NotificationOptions) returns (r: int)
      modifies raw.tips
      ensures Shown(raw.tips.items, raw.tips.seed, r) ==
        AfterShow(old(raw.tips.items), old(raw.tips.seed), raw.tips.hideDelay, Notification.Typed(InfoType, content, Overwritten(options)))
      ensures FindItem(raw.tips.items, r).Some? && raw.tips.hideDelay == old(raw.tips.hideDelay)
      ensures raw.tips.items[FindItem(raw.tips.items, r).value].kind == Some(InfoType)
      ensures raw.tips.items[FindItem(raw.tips.items, r).value].content == Some(content)
      ensures id == old(id)
    {
      var options' := Overwritten(options);
      r := raw.Info(content, options');
    }

    /** `alert`, as written: like `Info`, the returned id is not stored. */
    method Alert(content: string, options: NotificationOptions) returns (r: int)
      modifies raw.tips
      ensures Shown(raw.tips.items, raw.tips.seed, r) ==
        AfterShow(old(raw.tips.items), old(raw.tips.seed), raw.tips.hideDelay, Notification.Typed(AlertType, content, Overwritten(options)))
      ensures FindItem(raw.tips.items, r).Some? && raw.tips.hideDelay == old(raw.tips.hideDelay)
      ensures raw.tips.items[FindItem(raw.tips.items, r).value].kind == Some(AlertType)
      ensures raw.tips.items[FindItem(raw.tips.items, r).value].content == Some(content)
      ensures id == old(id)
    {
      var options' := Overwritten(options);
      r := raw.Alert(content, options');
    }

    /** `success`, as written: like `Info`, the returned id is not stored. */
    method Success(content: string, options: NotificationOptions) returns (r: int)
      modifies raw.tips
      ensures Shown(raw.tips.items, raw.tips.seed, r) ==
        AfterShow(old(raw.tips.items), old(raw.tips.seed), raw.tips.hideDelay, Notification.Typed(SuccessType, content, Overwritten(options)))
      ensures FindItem(raw.tips.items, r).Some? && raw.tips.hideDelay == old(raw.tips.hideDelay)
      ensures raw.tips.items[FindItem(raw.tips.items, r).value].kind == Some(SuccessType)
      ensures raw.tips.items[FindItem(raw.tips.items, r).value].content == Some(content)
      ensures id == old(id)
    {
      var options' := Overwritten(options);
      r := raw.Success(content, options');
    }

    /** `info` storing the returned id as `showNotification` does, so that later calls reuse it. */
    method InfoReusingId(content: string, options: NotificationOptions) returns (r: int)
      modifies this, raw.tips
      ensures Shown(raw.tips.items, raw.tips.seed, r) ==
        AfterShow(old(raw.tips.items), old(raw.tips.seed), raw.tips.hideDelay, Notification.Typed(InfoType, content, old(Overwritten(options))))
      ensures id == Some(r) && FindItem(raw.tips.items, r).Some? && raw.tips.hideDelay == old(raw.tips.hideDelay)
      ensures old(id).Some? && old(id).value != 0 ==> r == old(id).value
      ensures raw.tips.items[FindItem(raw.tips.items, r).value].kind == Some(InfoType)
      ensures raw.tips.items[FindItem(raw.tips.items, r).value].content == Some(content)
    {
      var options' := Overwritten(options);
      r := raw.Info(content, options');
      id := Some(r);
    }
  }

  /**
    As written, two `info` calls of a fresh unique notifier, with no id in
    their options, show two notifications instead of one.
  */
  method UniqueInfoTwiceShowsTwo(tips: NotificationTips) returns (first: int, second: int)
    requires tips.items == []
    modifies tips
    ensures |tips.items| == 2
  {
    var raw := new Notification(tips);
    var unique := new UniqueNotification(raw);
    var none := NotificationOptions(None, None, None, None, None);
    first := unique.Info("saved", none);
    assert |tips.items| == 1;
    second := unique.Info("saved", none);
  }

  /**
    With the id stored, the second `info` call of a fresh unique notifier
    updates the first notification, which is still shown.
  */
  method UniqueInfoTwiceReusing(tips: NotificationTips) returns (first: int, second: int)
    requires tips.items == [] && tips.seed == 1
    modifies tips
    ensures |tips.items| == 1 && first == second
  {
    var raw := new Notification(tips);
    var unique := new UniqueNotification(raw);
    var none := NotificationOptions(None, None, None, None, None);
    first := unique.InfoReusingId("saved", none);
    assert |tips.items| == 1 && first == 1;
    second := unique.InfoReusingId("saved", none);
  }

  /**
    A closed notification's timer outlives it: show id 7, close it, show
    id 7 again, and the first timer hides the new notification.
  */
  method StaleTimerHidesNewItem(tips: NotificationTips)
    requires tips.items == []
    modifies tips
    ensures tips.items == []
  {
    var seven := NotificationOptions(Some(7), None, None, None, None);
    var _ := tips.ShowNotification(seven);
    var first := tips.items[0];
    tips.OnClickClose(0);
    var _ := tips.ShowNotification(seven);
    assert tips.items[0].id == 7;
    tips.StaleHideTimeoutFires(first);
  }
}

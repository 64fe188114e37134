/**
  Message boxes (src/components/message.ts): what a button click on the
  message modal resolves and what comes next, the HTML a message's list
  becomes, and the default options of each kind of message. The promise a
  message returns is recorded as the log of values it is resolved with.
*/
module Messages {
  import opened Wrappers

  datatype MessageType = InfoMessage | SuccessMessage | AlertMessage | ConfirmMessage | PromptMessage

  /**
    The fields of `MessageOptions` the logic reads. `buttons` keeps the
    key/label entries in order; `hasValidator` says whether an
    `inputValidator` is given (its verdicts are a parameter of the click).
  */
  datatype MessageOptions = MessageOptions(
    kind: Option<MessageType>, title: Option<string>, content: Option<string>,
    buttons: Option<seq<(string, string)>>, list: Option<seq<string>>, wide: Option<bool>,
    inputValue: Option<string>, hasValidator: bool)

  /** What a message's promise is resolved with: the button, or for a prompt the button and the input. */
  datatype Resolution = Button(btn: string) | ButtonAndValue(btn: string, value: string)

  /** `html.replace(/</g, '&lt;')`. */
  function Escape(s: string): string
  {
    if s == [] then []
    else (if s[0] == '<' then "&lt;" else [s[0]]) + Escape(s[1..])
  }

  /** Escaping leaves no '<', and leaves a string without one alone. */
  lemma {:induction false} EscapeRemovesTags(s: string)
    ensures '<' !in Escape(s)
    ensures '<' !in s ==> Escape(s) == s
  {
    if s != [] {
      EscapeRemovesTags(s[1..]);
      assert s == [s[0]] + s[1..];
    }
  }

  /** Escaping works character by character: it distributes over concatenation. */
  lemma {:induction false} EscapeAppend(a: string, b: string)
    ensures Escape(a + b) == Escape(a) + Escape(b)
  {
    if a == [] {
      assert a + b == b;
    } else {
      var head := if a[0] == '<' then "&lt;" else [a[0]];
      var ab := a + b;
      assert ab != [] && ab[0] == a[0] && ab[1..] == a[1..] + b;
      assert Escape(ab) == head + Escape(a[1..] + b);
      EscapeAppend(a[1..], b);
      assert Escape(a) == head + Escape(a[1..]);
    }
  }

  /** Escaping only lengthens: each '<' grows by three characters. */
  lemma {:induction false} EscapeLength(s: string)
    ensures |Escape(s)| >= |s|
    ensures '<' in s ==> |Escape(s)| >= |s| + 3
  {
    if s != [] {
      EscapeLength(s[1..]);
      if s[0] != '<' {
        assert '<' in s ==> '<' in s[1..];
      }
    }
  }

  /** `list.map(html => '<div>' + escaped + '</div>').join('')`. */
  function ItemsHtml(list: seq<string>): string
  {
    if list == [] then "" else ItemsHtml(list[..|list| - 1]) + ItemHtml(list[|list| - 1])
  }

  /** One item of a list: its escaped text in a `<div>`. */
  function ItemHtml(item: string): (r: string)
    ensures |r| >= 11 && r[..5] == "<div>" && r[|r| - 6..] == "</div>"
  {
    "<div>" + Escape(item) + "</div>"
  }

  lemma {:induction false} ItemsHtmlAppend(a: seq<string>, b: seq<string>)
    ensures ItemsHtml(a + b) == ItemsHtml(a) + ItemsHtml(b)
    decreases |b|
  {
    if b == [] {
      assert a + b == a;
    } else {
      var n := |b| - 1;
      assert (a + b)[..|a + b| - 1] == a + b[..n];
      assert (a + b)[|a + b| - 1] == b[n];
      calc {
        ItemsHtml(a + b);
        ItemsHtml(a + b[..n]) + ItemHtml(b[n]);
        { ItemsHtmlAppend(a, b[..n]); }
        ItemsHtml(a) + ItemsHtml(b[..n]) + ItemHtml(b[n]);
      }
    }
  }

  /** Every item of a list contributes one `<div>` whose text has no '<' left. */
  lemma {:induction false} ItemsHtmlOfOne(item: string)
    ensures ItemsHtml([item]) == "<div>" + Escape(item) + "</div>"
    ensures '<' !in Escape(item)
  {
    assert [item][..0] == [];
    EscapeRemovesTags(item);
  }

  /** The number of '<' in a string: each one opens or closes a tag. */
  function Tags(s: string): nat
  {
    if s == [] then 0 else (if s[0] == '<' then 1 else 0) + Tags(s[1..])
  }

  lemma {:induction false} TagsAppend(a: string, b: string)
    ensures Tags(a + b) == Tags(a) + Tags(b)
  {
    if a == [] {
      assert a + b == b;
    } else {
      var ab := a + b;
      assert ab[0] == a[0] && ab[1..] == a[1..] + b;
      TagsAppend(a[1..], b);
    }
  }

  lemma {:induction false} NoTags(s: string)
    requires '<' !in s
    ensures Tags(s) == 0
  {
    if s != [] {
      assert s[0] != '<';
      assert forall c :: c in s[1..] ==> c in s;
      NoTags(s[1..]);
    }
  }

  /** A string made of one '<' and text without one holds one tag. */
  lemma OneTag(s: string, rest: string)
    requires s == "<" + rest && '<' !in rest
    ensures Tags(s) == 1
  {
    NoTags(rest);
    assert s[1..] == rest;
  }

  /**
    A list's items can add no tag of their own: the HTML of `n` items
    holds exactly the `2 * n` tags of their `<div>`s.
  */
  lemma {:induction false} ItemsHtmlTags(list: seq<string>)
    ensures Tags(ItemsHtml(list)) == 2 * |list|
  {
    if list != [] {
      ItemsHtmlTags(list[..|list| - 1]);
      ItemHtmlTags(list[|list| - 1]);
      TagsAppend(ItemsHtml(list[..|list| - 1]), ItemHtml(list[|list| - 1]));
    }
  }

  /** One item's HTML holds the two tags of its `<div>`. */
  lemma ItemHtmlTags(item: string)
    ensures Tags(ItemHtml(item)) == 2
  {
    EscapeRemovesTags(item);
    NoTags(Escape(item));
    OneTag("<div>", "div>");
    OneTag("</div>", "/div>");
    TagsAppend("<div>", Escape(item));
    TagsAppend("<div>" + Escape(item), "</div>");
  }

  /**
    The content `showMessage` shows: with a list, the content (or '')
    followed by one wrapper `<div>` of class `listClass` holding the items.
  */
  function ContentWithList(options: MessageOptions, listClass: string): (r: Option<string>)
    ensures options.list.None? ==> r == options.content
    ensures options.list.Some? ==> r.Some?
    ensures options.list.Some? && options.content.Some? ==> options.content.value <= r.value
    ensures options.list.Some? ==>
      var wrapperStart := "<div class=\"" + listClass + "\">";
      var before := if options.content.Some? then |options.content.value| else 0;
      && |r.value| >= before + |wrapperStart| + 6
      && r.value[before..before + |wrapperStart|] == wrapperStart
      && r.value[|r.value| - 6..] == "</div>"
      && r.value[before + |wrapperStart|..|r.value| - 6] == ItemsHtml(options.list.value)
  {
    if options.list.None? then options.content
    else
      var before := if options.content.Some? then options.content.value else "";
      Some(before + "<div class=\"" + listClass + "\">" + ItemsHtml(options.list.value) + "</div>")
  }

  /**
    Besides the content's own tags, a list adds the two of its wrapper and
    two per item, whatever its text: items are shown, never interpreted.
  */
  lemma ContentWithListTags(options: MessageOptions, listClass: string)
    requires options.list.Some? && '<' !in listClass
    ensures Tags(ContentWithList(options, listClass).value) ==
      (if options.content.Some? then Tags(options.content.value) else 0) + 2 + 2 * |options.list.value|
  {
    var before := if options.content.Some? then options.content.value else "";
    var wrapper := "<div class=\"" + listClass + "\">";
    var items := ItemsHtml(options.list.value);
    WrapperTag(listClass);
    ItemsHtmlTags(options.list.value);
    OneTag("</div>", "/div>");
    TagsAppend(before, wrapper);
    TagsAppend(before + wrapper, items);
    TagsAppend(before + wrapper + items, "</div>");
    Regroup(before, "<div class=\"", listClass, "\">", items, "</div>");
    if options.content.None? {
      assert Tags(before) == 0;
    }
  }

  lemma Regroup(w: string, x: string, y: string, z: string, u: string, v: string)
    ensures w + x + y + z + u + v == w + (x + y + z) + u + v
  {
  }

  /** The wrapper's opening `<div>` is one tag when its class has no '<'. */
  lemma WrapperTag(listClass: string)
    requires '<' !in listClass
    ensures Tags("<div class=\"" + listClass + "\">") == 1
  {
    var rest := "div class=\"" + listClass + "\">";
    assert "<div class=\"" + listClass + "\">" == "<" + rest;
    assert '<' !in "div class=\"";
    assert '<' !in "\">";
    assert forall c :: c in rest ==> c in "div class=\"" || c in listClass || c in "\">";
    OneTag("<" + rest, rest);
  }

  /** A prompt resolves with the input only for 'ok' with a non-empty input, else with ''. */
  function PromptValue(btn: string, inputValue: Option<string>): (value: string)
    ensures value != "" <==> btn == "ok" && inputValue.Some? && inputValue.value != ""
    ensures value != "" ==> value == inputValue.value
  {
    if btn == "ok" && inputValue.Some? && inputValue.value != "" then inputValue.value else ""
  }

  /** The `MessageModal` component. */
  class MessageModal {
    var options: Option<MessageOptions>
    var stack: seq<MessageOptions>
    var isTouched: bool
    var inputErrorText: string
    /** Whether the modal is shown. */
    var shown: bool
    var resolutions: seq<Resolution>
    /** The class name of a list's wrapper, `scopeClassName('list')`. */
    const listClass: string

    constructor(listClass: string)
      ensures this.listClass == listClass && options == None && stack == [] && !isTouched
      ensures inputErrorText == "" && !shown && resolutions == []
    {
      this.listClass := listClass;
      options := None;
      stack := [];
      isTouched := false;
      inputErrorText := "";
      shown := false;
      resolutions := [];
    }

    /** `showMessage`: show the options, with their list appended to the content. */
    method ShowMessage(o: MessageOptions)
      modifies this
      ensures options == Some(o.(content := ContentWithList(o, listClass)))
      ensures inputErrorText == "" && shown
      ensures stack == old(stack) && isTouched == old(isTouched) && resolutions == old(resolutions)
    {
      var content := o.content;
      if o.list.Some? {
        content := Some((if content.Some? then content.value else "") + "<div class=\"" + listClass + "\">"
                        + ItemsHtml(o.list.value) + "</div>");
      }
      options := Some(o.(content := content));
      inputErrorText := "";
      shown := true;
    }

    /**
      `onClickButton`: `inputPresent` says whether the prompt's input is
      rendered, `validatorMessage` is what `inputValidator` returns for the
      input. A failed validation of a prompt's 'ok' keeps the message;
      otherwise the message is resolved and the next stacked one shown, or
      the modal hidden.
    */
    method OnClickButton(btn: string, inputPresent: bool, validatorMessage: string)
      requires options.Some?
      modifies this
      ensures var o := old(options.value);
        var gated := btn == "ok" && o.kind == Some(PromptMessage) && inputPresent;
        var blocked := gated && o.hasValidator && validatorMessage != "";
        && (gated && o.hasValidator ==> inputErrorText == validatorMessage)
        && (blocked ==> isTouched && resolutions == old(resolutions) && options == old(options) &&
                        stack == old(stack) && shown == old(shown))
        && (!blocked && o.kind == Some(PromptMessage) ==>
              !isTouched && resolutions == old(resolutions) + [ButtonAndValue(btn, PromptValue(btn, o.inputValue))])
        && (!blocked && o.kind != Some(PromptMessage) ==> resolutions == old(resolutions) + [Button(btn)])
        && (!blocked && |old(stack)| > 0 ==>
              stack == old(stack)[1..] && shown &&
              options == Some(old(stack)[0].(content := ContentWithList(old(stack)[0], listClass))))
        && (!blocked && |old(stack)| == 0 ==> !shown && stack == [] && options == old(options))
        && (!blocked && |old(stack)| > 0 ==> inputErrorText == "")
        && (!(gated && o.hasValidator) && |old(stack)| == 0 ==> inputErrorText == old(inputErrorText))
        && (o.kind != Some(PromptMessage) ==> isTouched == old(isTouched))
    {
      var o := options.value;
      if btn == "ok" && o.kind == Some(PromptMessage) && inputPresent {
        isTouched := true;
        if o.hasValidator {
          inputErrorText := validatorMessage;
          if inputErrorText != "" {
            return;
          }
        }
      }
      if o.kind == Some(PromptMessage) {
        isTouched := false;
        var value := if btn == "ok" && o.inputValue.Some? && o.inputValue.value != "" then o.inputValue.value else "";
        resolutions := resolutions + [ButtonAndValue(btn, value)];
      } else {
        resolutions := resolutions + [Button(btn)];
      }
      if |stack| > 0 {
        var next := stack[0];
        stack := stack[1..];
        ShowMessage(next);
      } else {
        shown := false;
      }
    }

    /** Typing into the prompt's input, whose text `:model` binds to `options.inputValue`. */
    method SetInputValue(value: string)
      requires options.Some? && options.value.kind == Some(PromptMessage)
      modifies this
      ensures options == Some(old(options.value).(inputValue := Some(value)))
      ensures stack == old(stack) && isTouched == old(isTouched) && inputErrorText == old(inputErrorText)
      ensures shown == old(shown) && resolutions == old(resolutions)
    {
      options := Some(options.value.(inputValue := Some(value)));
    }
  }

  /** The labels a `Message` starts with (lines 252-257). */
  const DefaultLabels: map<string, string> := map["ok" := "OK", "cancel" := "Cancel", "yes" := "Yes", "no" := "No"]

  /** One field of `Object.assign`: the given value, else the default. */
  function Given<T>(given: Option<T>, default: Option<T>): (r: Option<T>)
    ensures given.Some? ==> r == given
    ensures given.None? ==> r == default
  {
    if given.Some? then given else default
  }

  /**
    `Object.assign(defaults, options)`: every field the caller gives
    replaces the default.
  */
  function Assigned(defaults: MessageOptions, options: MessageOptions): (r: MessageOptions)
    ensures options.kind.Some? ==> r.kind == options.kind
    ensures options.kind.None? ==> r.kind == defaults.kind
    ensures options.title.Some? ==> r.title == options.title
    ensures options.title.None? ==> r.title == defaults.title
    ensures options.content.Some? ==> r.content == options.content
    ensures options.content.None? ==> r.content == defaults.content
    ensures options.buttons.Some? ==> r.buttons == options.buttons
    ensures options.buttons.None? ==> r.buttons == defaults.buttons
    ensures options.list.Some? ==> r.list == options.list
    ensures options.list.None? ==> r.list == defaults.list
    ensures options.wide.Some? ==> r.wide == options.wide
    ensures options.wide.None? ==> r.wide == defaults.wide
    ensures options.inputValue.Some? ==> r.inputValue == options.inputValue
    ensures options.inputValue.None? ==> r.inputValue == defaults.inputValue
    ensures options.hasValidator ==> r.hasValidator
    ensures !options.hasValidator ==> r.hasValidator == defaults.hasValidator
  {
    MessageOptions(
      Given(options.kind, defaults.kind), Given(options.title, defaults.title),
      Given(options.content, defaults.content), Given(options.buttons, defaults.buttons),
      Given(options.list, defaults.list), Given(options.wide, defaults.wide),
      Given(options.inputValue, defaults.inputValue), options.hasValidator || defaults.hasValidator)
  }

  /**
    The defaults of each kind: info, success and alert get an 'ok' button;
    confirm and prompt get 'cancel' then 'ok'; a prompt starts with an
    empty input.
  */
  function Defaults(kind: MessageType, content: string, labels: map<string, string>): (d: MessageOptions)
    requires "ok" in labels && "cancel" in labels
    ensures d.kind == Some(kind) && d.content == Some(content)
    ensures kind in {InfoMessage, SuccessMessage, AlertMessage} ==> d.buttons == Some([("ok", labels["ok"])])
    ensures kind in {ConfirmMessage, PromptMessage} ==>
      d.buttons == Some([("cancel", labels["cancel"]), ("ok", labels["ok"])])
    ensures d.inputValue == (if kind == PromptMessage then Some("") else None)
  {
    var buttons := if kind in {InfoMessage, SuccessMessage, AlertMessage} then [("ok", labels["ok"])]
                   else [("cancel", labels["cancel"]), ("ok", labels["ok"])];
    MessageOptions(Some(kind), None, Some(content), Some(buttons), None, None,
                   if kind == PromptMessage then Some("") else None, false)
  }

  /** A prompt without its own input value shows an empty one and both buttons unless overridden. */
  lemma PromptDefaults(content: string, labels: map<string, string>, options: MessageOptions)
    requires "ok" in labels && "cancel" in labels
    requires options.kind.None? && options.inputValue.None? && options.buttons.None?
    ensures var o := Assigned(Defaults(PromptMessage, content, labels), options);
      o.kind == Some(PromptMessage) && o.inputValue == Some("") &&
      o.buttons == Some([("cancel", labels["cancel"]), ("ok", labels["ok"])])
  {
  }

  /** The `Message` front end with its button labels. */
  class Message {
    const modal: MessageModal
    var labels: map<string, string>

    constructor(modal: MessageModal)
      ensures this.modal == modal && labels == DefaultLabels
    {
      this.modal := modal;
      labels := DefaultLabels;
    }

    /** Labels always name the two buttons the defaults use. */
    ghost predicate Valid()
      reads this
    {
      "ok" in labels && "cancel" in labels
    }

    /** `setLabels`: new labels replace old ones with the same key; the others stay. */
    method SetLabels(newLabels: map<string, string>)
      modifies this
      ensures labels == old(labels) + newLabels
      ensures old(Valid()) ==> Valid()
      ensures forall k :: k in newLabels ==> labels[k] == newLabels[k]
      ensures forall k :: k in old(labels) && k !in newLabels ==> labels[k] == old(labels)[k]
    {
      labels := labels + newLabels;
    }

    /** `info` / `success` / `alert` / `confirm` / `prompt`: show the kind's defaults under the caller's options. */
    method Show(kind: MessageType, content: string, options: MessageOptions)
      requires Valid()
      modifies modal
      ensures var o := Assigned(Defaults(kind, content, labels), options);
        modal.options == Some(o.(content := ContentWithList(o, modal.listClass)))
      ensures modal.shown && modal.stack == old(modal.stack) && modal.resolutions == old(modal.resolutions)
      ensures modal.inputErrorText == "" && modal.isTouched == old(modal.isTouched)
    {
      modal.ShowMessage(Assigned(Defaults(kind, content, labels), options));
    }

    method Info(content: string, options: MessageOptions)
      requires Valid()
      modifies modal
      ensures var o := Assigned(Defaults(InfoMessage, content, labels), options);
        modal.options == Some(o.(content := ContentWithList(o, modal.listClass)))
      ensures modal.shown && modal.stack == old(modal.stack) && modal.resolutions == old(modal.resolutions)
      ensures modal.inputErrorText == "" && modal.isTouched == old(modal.isTouched)
    {
      Show(InfoMessage, content, options);
    }

    method Success(content: string, options: MessageOptions)
      requires Valid()
      modifies modal
      ensures var o := Assigned(Defaults(SuccessMessage, content, labels), options);
        modal.options == Some(o.(content := ContentWithList(o, modal.listClass)))
      ensures modal.shown && modal.stack == old(modal.stack) && modal.resolutions == old(modal.resolutions)
      ensures modal.inputErrorText == "" && modal.isTouched == old(modal.isTouched)
    {
      Show(SuccessMessage, content, options);
    }

    method Alert(content: string, options: MessageOptions)
      requires Valid()
      modifies modal
      ensures var o := Assigned(Defaults(AlertMessage, content, labels), options);
        modal.options == Some(o.(content := ContentWithList(o, modal.listClass)))
      ensures modal.shown && modal.stack == old(modal.stack) && modal.resolutions == old(modal.resolutions)
      ensures modal.inputErrorText == "" && modal.isTouched == old(modal.isTouched)
    {
      Show(AlertMessage, content, options);
    }

    method Confirm(content: string, options: MessageOptions)
      requires Valid()
      modifies modal
      ensures var o := Assigned(Defaults(ConfirmMessage, content, labels), options);
        modal.options == Some(o.(content := ContentWithList(o, modal.listClass)))
      ensures modal.shown && modal.stack == old(modal.stack) && modal.resolutions == old(modal.resolutions)
      ensures modal.inputErrorText == "" && modal.isTouched == old(modal.isTouched)
    {
      Show(ConfirmMessage, content, options);
    }

    method Prompt(content: string, options: MessageOptions)
      requires Valid()
      modifies modal
      ensures var o := Assigned(Defaults(PromptMessage, content, labels), options);
        modal.options == Some(o.(content := ContentWithList(o, modal.listClass)))
      ensures modal.shown && modal.stack == old(modal.stack) && modal.resolutions == old(modal.resolutions)
      ensures modal.inputErrorText == "" && modal.isTouched == old(modal.isTouched)
    {
      Show(PromptMessage, content, options);
    }
  }
}

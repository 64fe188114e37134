/**
  The router component (src/components/router.ts): the translation between
  router paths and prefixed URIs, and the navigation state that `goto`,
  `redirectTo` and the browser's popstate event move between normal and
  popup paths. The browser history is recorded as a log of calls.
*/
module Router {
  import opened Wrappers

  /** `getUnPrefixedPath`: strip the prefix when the path starts with it; an empty result is '/'. */
  function UnPrefixed(prefix: string, path: string): (r: string)
    ensures r != ""
    ensures prefix != "" && prefix <= path && |path| > |prefix| ==> r == path[|prefix|..]
    ensures (prefix == "" || !(prefix <= path)) && path != "" ==> r == path
    ensures path == prefix || path == "" ==> r == "/"
  {
    var stripped := if prefix != "" && prefix <= path then path[|prefix|..] else path;
    if stripped == "" then "/" else stripped
  }

  /** `getURIFromPath`: an empty path is '/', and the prefix goes in front. */
  function UriFromPath(prefix: string, path: string): (r: string)
    ensures prefix <= r && |r| > |prefix|
    ensures path != "" ==> r[|prefix|..] == path
    ensures path == "" ==> r[|prefix|..] == "/"
  {
    prefix + (if path == "" then "/" else path)
  }

  /** Unprefixing the URI of a path gives the path back ('/' for the empty path). */
  lemma PathRoundTrip(prefix: string, path: string)
    ensures UnPrefixed(prefix, UriFromPath(prefix, path)) == (if path == "" then "/" else path)
  {
  }

  /** A URI under the prefix, with something after it, is rebuilt from its router path. */
  lemma UriRoundTrip(prefix: string, uri: string)
    requires prefix <= uri && |uri| > |prefix|
    ensures UriFromPath(prefix, UnPrefixed(prefix, uri)) == uri
  {
    if prefix != "" {
      assert prefix + uri[|prefix|..] == uri;
    }
  }

  /** The `{path, asPopupPath}` history state. */
  datatype HistoryState = HistoryState(path: string, asPopupPath: bool)

  /** One call on `history`. */
  datatype HistoryCall = PushState(state: HistoryState, uri: string) | ReplaceState(state: HistoryState, uri: string) | Go(delta: int)

  /** One emitted event, with the new path, the old path and whether the new one is a popup path. */
  datatype RouterEvent =
    | GotoEvent(newPath: string, oldPath: string, asPopup: bool)
    | RedirectToEvent(newPath: string, oldPath: string, asPopup: bool)
    | GoOrRedirectToEvent(newPath: string, oldPath: string, asPopup: bool)

  /** The history call that pops the stacked popup states, if any. */
  function PopStack(count: int): (calls: seq<HistoryCall>)
    ensures count > 0 <==> calls == [Go(-count)]
    ensures count <= 0 <==> calls == []
  {
    if count > 0 then [Go(-count)] else []
  }

  class Router {
    var prefix: string
    var path: string
    var normalPath: string
    var popupPath: Option<string>
    var state: Option<HistoryState>
    var stackedPopupCount: int
    var history: seq<HistoryCall>
    var events: seq<RouterEvent>

    /** Property defaults of lines 58-74. */
    constructor(prefix: string)
      ensures this.prefix == prefix && path == "" && normalPath == "" && popupPath == None
      ensures state == None && stackedPopupCount == 0 && history == [] && events == []
      ensures Consistent()
    {
      this.prefix := prefix;
      path := "";
      normalPath := "";
      popupPath := None;
      state := None;
      stackedPopupCount := 0;
      history := [];
      events := [];
    }

    /**
      What every navigation leaves behind: the current state names the
      current path; a popup state is the popup path; a normal state is the
      normal path, with no popup and no stacked popup states.
    */
    predicate Consistent()
      reads this
    {
      state.Some? ==>
        && state.value.path == path
        && (state.value.asPopupPath ==> popupPath == Some(path))
        && (!state.value.asPopupPath ==> normalPath == path && popupPath == None && stackedPopupCount == 0)
    }

    /** `clearPopupStack`: go back over the stacked popup states and forget the popup path. */
    method ClearPopupStack()
      modifies this
      ensures stackedPopupCount == 0 && popupPath == None
      ensures history == old(history) + PopStack(old(stackedPopupCount))
      ensures prefix == old(prefix) && path == old(path) && normalPath == old(normalPath)
      ensures state == old(state) && events == old(events)
    {
      if stackedPopupCount > 0 {
        history := history + [Go(-stackedPopupCount)];
      }
      stackedPopupCount := 0;
      popupPath := None;
    }

    /** `goto`: navigate to `target`, pushing a history state. */
    method Goto(target: string, asPopupPath: bool)
      modifies this
      ensures prefix == old(prefix)
      ensures old(Consistent()) ==> Consistent()
      ensures target != old(path) ==> Consistent()
      ensures target == old(path) ==>
        path == old(path) && normalPath == old(normalPath) && popupPath == old(popupPath) &&
        state == old(state) && stackedPopupCount == old(stackedPopupCount) &&
        history == old(history) && events == old(events)
      ensures target != old(path) ==>
        && path == target && state == Some(HistoryState(target, asPopupPath))
        && events == old(events) + [GotoEvent(target, old(path), asPopupPath), GoOrRedirectToEvent(target, old(path), asPopupPath)]
      ensures target != old(path) && asPopupPath ==>
        && popupPath == Some(target) && normalPath == old(normalPath)
        && stackedPopupCount == old(stackedPopupCount) + 1
        && history == old(history) + [PushState(HistoryState(target, true), UriFromPath(prefix, target))]
      ensures target != old(path) && !asPopupPath ==>
        && popupPath == None && normalPath == target && stackedPopupCount == 0
        && history == old(history) + PopStack(old(stackedPopupCount))
                      + [PushState(HistoryState(target, false), UriFromPath(prefix, target))]
    {
      if target == path {
        return;
      }
      if asPopupPath {
        popupPath := Some(target);
        stackedPopupCount := stackedPopupCount + 1;
      } else {
        ClearPopupStack();
        normalPath := target;
      }
      var oldPath := path;
      var uri := UriFromPath(prefix, target);
      path := target;
      state := Some(HistoryState(target, asPopupPath));
      history := history + [PushState(state.value, uri)];
      events := events + [GotoEvent(target, oldPath, asPopupPath), GoOrRedirectToEvent(target, oldPath, asPopupPath)];
    }

    /** `redirectTo`: navigate to `target`, replacing the current history state. */
    method RedirectTo(target: string, asPopupPath: bool)
      modifies this
      ensures prefix == old(prefix)
      ensures old(Consistent()) ==> Consistent()
      ensures target != old(path) ==> Consistent()
      ensures target == old(path) ==>
        path == old(path) && normalPath == old(normalPath) && popupPath == old(popupPath) &&
        state == old(state) && stackedPopupCount == old(stackedPopupCount) &&
        history == old(history) && events == old(events)
      ensures target != old(path) ==>
        && path == target && state == Some(HistoryState(target, asPopupPath))
        && events == old(events) + [RedirectToEvent(target, old(path), asPopupPath), GoOrRedirectToEvent(target, old(path), asPopupPath)]
      ensures target != old(path) && asPopupPath ==>
        && popupPath == Some(target) && normalPath == old(normalPath)
        && stackedPopupCount == old(stackedPopupCount)
        && history == old(history) + [ReplaceState(HistoryState(target, true), UriFromPath(prefix, target))]
      ensures target != old(path) && !asPopupPath ==>
        && popupPath == None && normalPath == target && stackedPopupCount == 0
        && history == old(history) + PopStack(old(stackedPopupCount))
                      + [ReplaceState(HistoryState(target, false), UriFromPath(prefix, target))]
    {
      if target == path {
        return;
      }
      if asPopupPath {
        popupPath := Some(target);
      } else {
        ClearPopupStack();
        normalPath := target;
      }
      var oldPath := path;
      var uri := UriFromPath(prefix, target);
      path := target;
      state := Some(HistoryState(target, asPopupPath));
      history := history + [ReplaceState(state.value, uri)];
      events := events + [RedirectToEvent(target, oldPath, asPopupPath), GoOrRedirectToEvent(target, oldPath, asPopupPath)];
    }

    /**
      `onWindowStateChange`: the browser went back or forward to `popped`.
      Leaving a popup state unstacks it; then the router redirects to the
      popped state's path.
    */
    method OnWindowStateChange(popped: Option<HistoryState>)
      modifies this
      ensures prefix == old(prefix)
      ensures old(Consistent()) ==> Consistent()
      ensures popped.None? ==>
        path == old(path) && normalPath == old(normalPath) && popupPath == old(popupPath) &&
        state == old(state) && stackedPopupCount == old(stackedPopupCount) &&
        history == old(history) && events == old(events)
      ensures popped.Some? ==>
        var unstacked := old(stackedPopupCount) - (if old(state).Some? && old(state).value.asPopupPath then 1 else 0);
        var p := popped.value;
        && (p.path == old(path) ==>
              path == old(path) && normalPath == old(normalPath) && popupPath == old(popupPath) &&
              state == old(state) && stackedPopupCount == unstacked &&
              history == old(history) && events == old(events))
        && (p.path != old(path) ==>
              && Consistent() && path == p.path && state == Some(p)
              && events == old(events) + [RedirectToEvent(p.path, old(path), p.asPopupPath),
                                          GoOrRedirectToEvent(p.path, old(path), p.asPopupPath)])
        && (p.path != old(path) && p.asPopupPath ==>
              && popupPath == Some(p.path) && normalPath == old(normalPath) && stackedPopupCount == unstacked
              && history == old(history) + [ReplaceState(p, UriFromPath(prefix, p.path))])
        && (p.path != old(path) && !p.asPopupPath ==>
              && popupPath == None && normalPath == p.path && stackedPopupCount == 0
              && history == old(history) + PopStack(unstacked) + [ReplaceState(p, UriFromPath(prefix, p.path))])
    {
      if popped.Some? {
        if state.Some? && state.value.asPopupPath {
          stackedPopupCount := stackedPopupCount - 1;
        }
        RedirectTo(popped.value.path, popped.value.asPopupPath);
      }
    }
  }
}

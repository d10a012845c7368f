/** The background side of the authorization protocol
    (src/utils/auth/auth.utils.ts): reuse or creation of the single auth
    popup, the request record sent to it, the matching of `auth_result`
    replies, the reply built by the popup, and the keep-alive bookkeeping.
    Every mutex-guarded section is one atomic method; the browser's answers
    (the recorded tab's URL, the new window's tab id), nanoid and Date.now
    are parameters. */
module AuthUtils {
  import opened Wrappers
  import opened JsValues
  import opened Strings
  import opened AuthTypes

  /** The fixed id of unlock requests. auth.constants.ts is not part of this
      model, so this value is a stand-in for the real constant. */
  const DefaultUnlockAuthRequestId: string := "unlock-auth-request"

  /** The request type that selects the fixed id. */
  const UnlockType: string := "unlock"

  /** popupWindowTabID before any popup was opened. */
  const NoPopupTab: int := -1

  const PopupWidth: int := 385
  const PopupHeight: int := 720

  datatype ModuleAppData = ModuleAppData(url: string, tabID: int)

  /** The options of `browser.windows.create` for a new auth popup. */
  datatype PopupWindow = PopupWindow(url: string, focused: bool, kind: string, width: int, height: int)

  /** The `auth_request` record sent to the popup. The payload fields other
      than `type` are spread into it unchanged and are not part of the model. */
  datatype AuthRequest = AuthRequest(
    requestType: string,
    url: string,
    tabID: int,
    authID: string,
    requestedAt: int,
    status: AuthRequestStatus)

  /** What createAuthPopup did: the id it chose, the popup tab it addressed,
      the record it sent there and the window it opened, if any. */
  datatype Dispatch = Dispatch(
    authID: string,
    popupWindowTabID: int,
    request: AuthRequest,
    openedWindow: Option<PopupWindow>)

  /** A popup must be (re)created when the recorded tab cannot be found or is
      no longer showing the auth page. */
  predicate NeedsNewPopup(recordedTabUrl: Option<string>, authPageUrl: string) {
    recordedTabUrl.None? || !StartsWith(recordedTabUrl.value, authPageUrl)
  }

  function AuthPopupWindow(authPageUrl: string): PopupWindow {
    PopupWindow(authPageUrl + "#/", true, "popup", PopupWidth, PopupHeight)
  }

  /** The fixed id for unlock requests, otherwise the fresh id. */
  function ChooseAuthId(requestType: string, freshId: string): string {
    if requestType == UnlockType then DefaultUnlockAuthRequestId else freshId
  }

  /** authID is the unlock constant exactly for unlock requests, whenever the
      fresh id is not that constant; otherwise it is the fresh id. */
  lemma AuthIdChoice(requestType: string, freshId: string)
    requires freshId != DefaultUnlockAuthRequestId
    ensures ChooseAuthId(requestType, freshId) == DefaultUnlockAuthRequestId <==> requestType == UnlockType
    ensures requestType != UnlockType ==> ChooseAuthId(requestType, freshId) == freshId
  {
  }

  /** A payload of the declared AuthRequestData union never carries the
      "unlock" discriminant, so it always receives the fresh id. */
  lemma {:induction false} TypedRequestsGetFreshIds(d: AuthRequestData, freshId: string)
    ensures ChooseAuthId(TypeName(TypeOf(d)), freshId) == freshId
  {
    AuthTypeNames(TypeOf(d), UnlockType);
  }

  /** The message the popup sends back (replyToAuthRequest): an error exactly
      when an error message is given and non-empty, and the data, or the
      message in its place when the data is falsy. */
  function ReplyToAuthRequest(authType: AuthType, authID: string, errorMessage: Option<string>, data: JsValue): (r: AuthResult)
    ensures r.resultType == TypeName(authType) && r.authID == authID
    ensures r.error <==> errorMessage.Some? && errorMessage.value != ""
    ensures Truthy(data) ==> r.data == data
    ensures !Truthy(data) && errorMessage.Some? ==> r.data == Str(errorMessage.value)
    ensures !Truthy(data) && errorMessage.None? ==> r.data == Undefined
  {
    var message := if errorMessage.Some? then Str(errorMessage.value) else Undefined;
    AuthResult(TypeName(authType), authID, Truthy(message), if Truthy(data) then data else message)
  }

  /** A reply built by replyToAuthRequest has a boolean `error`, so
      isAuthErrorResult never recognises it, not even a failed one. */
  lemma {:induction false} ReplyIsNeverAuthErrorResult(authType: AuthType, authID: string, errorMessage: Option<string>, data: JsValue)
    ensures !IsAuthErrorResult(ResultObject(ReplyToAuthRequest(authType, authID, errorMessage, data)))
  {
    var r := ReplyToAuthRequest(authType, authID, errorMessage, data);
    assert Field(ResultObject(r), "error") == Bool(r.error);
  }

  /** The state of the promise returned by getPopupResponse. */
  datatype Settlement = Waiting | Resolved(result: AuthResult) | Rejected(reason: JsValue)

  /** An `auth_result` listener registered by getPopupResponse. */
  datatype Listener = Listener(authID: string, popupWindowTabID: int, settlement: Settlement)

  /** A reply is for a listener when it comes from the listener's popup tab
      and carries the listener's authID. */
  predicate ReplyMatches(l: Listener, senderTabId: int, msg: AuthResult) {
    senderTabId == l.popupWindowTabID && msg.authID == l.authID
  }

  /** One listener's reaction to one reply: a matching reply settles a waiting
      promise, rejecting with `data` on error and resolving with the message
      otherwise; a promise settles at most once. */
  function Settle(l: Listener, senderTabId: int, msg: AuthResult): (l': Listener)
    ensures l'.authID == l.authID && l'.popupWindowTabID == l.popupWindowTabID
    ensures l'.settlement != l.settlement <==> l.settlement == Waiting && ReplyMatches(l, senderTabId, msg)
    ensures l.settlement != Waiting ==> l' == l
  {
    if l.settlement == Waiting && ReplyMatches(l, senderTabId, msg) then
      l.(settlement := if msg.error then Settlement.Rejected(msg.data) else Resolved(msg))
    else l
  }

  /** A request answered through replyToAuthRequest from its own popup tab is
      resolved with the reply when no error message is given, and rejected
      with the data (or the message when the data is falsy) otherwise. */
  lemma {:induction false} ReplySettlesItsRequest(authType: AuthType, authID: string, tab: int, errorMessage: Option<string>, data: JsValue)
    ensures var msg := ReplyToAuthRequest(authType, authID, errorMessage, data);
      Settle(Listener(authID, tab, Waiting), tab, msg).settlement ==
        if errorMessage.Some? && errorMessage.value != "" then
          Settlement.Rejected(if Truthy(data) then data else Str(errorMessage.value))
        else Resolved(msg)
  {
    var msg := ReplyToAuthRequest(authType, authID, errorMessage, data);
    assert ReplyMatches(Listener(authID, tab, Waiting), tab, msg);
  }

  /** Every listener's reaction to one reply: each keeps its id and tab, and
      exactly the waiting listeners the reply matches change. */
  function SettleAll(ls: seq<Listener>, senderTabId: int, msg: AuthResult): (r: seq<Listener>)
    ensures |r| == |ls|
    ensures forall i :: 0 <= i < |ls| ==>
      r[i].authID == ls[i].authID && r[i].popupWindowTabID == ls[i].popupWindowTabID &&
      (r[i] != ls[i] <==> ls[i].settlement == Waiting && ReplyMatches(ls[i], senderTabId, msg))
  {
    seq(|ls|, i requires 0 <= i < |ls| => Settle(ls[i], senderTabId, msg))
  }

  function IdsOf(ls: seq<Listener>): set<string> {
    set i | 0 <= i < |ls| :: ls[i].authID
  }

  /** The ids whose requests a reply settles. */
  function SettledIds(ls: seq<Listener>, senderTabId: int, msg: AuthResult): set<string> {
    set i | 0 <= i < |ls| && ls[i].settlement == Waiting && ReplyMatches(ls[i], senderTabId, msg) :: ls[i].authID
  }

  /** Every request still waiting for its reply is being kept alive. */
  predicate WaitingKeptAlive(ls: seq<Listener>, active: set<string>) {
    forall i :: 0 <= i < |ls| && ls[i].settlement == Waiting ==> ls[i].authID in active
  }

  /** Waiting listeners that share an id (only the unlock constant can be
      shared) wait on the same popup tab. */
  predicate SharedIdsShareTab(ls: seq<Listener>) {
    forall i, j ::
      (0 <= i < |ls| && 0 <= j < |ls| && ls[i].settlement == Waiting &&
       ls[j].settlement == Waiting && ls[i].authID == ls[j].authID) ==>
      ls[i].popupWindowTabID == ls[j].popupWindowTabID
  }

  /** Every waiting listener with this id waits on this popup tab. */
  predicate IdWaitsOnlyOn(ls: seq<Listener>, authID: string, tab: int) {
    forall i :: 0 <= i < |ls| && ls[i].settlement == Waiting && ls[i].authID == authID ==> ls[i].popupWindowTabID == tab
  }

  lemma IdsOfPrefix(ls: seq<Listener>, i: nat)
    requires i < |ls|
    ensures IdsOf(ls[..i + 1]) == IdsOf(ls[..i]) + {ls[i].authID}
  {
    assert ls[..i + 1][i] == ls[i];
    forall x | x in IdsOf(ls[..i + 1]) ensures x in IdsOf(ls[..i]) + {ls[i].authID} {
      var k :| 0 <= k < i + 1 && ls[..i + 1][k].authID == x;
      if k < i { assert ls[..i][k] == ls[..i + 1][k]; }
    }
    forall x | x in IdsOf(ls[..i]) ensures x in IdsOf(ls[..i + 1]) {
      var k :| 0 <= k < i && ls[..i][k].authID == x;
      assert ls[..i + 1][k] == ls[..i][k];
    }
  }

  lemma SettledIdsPrefix(ls: seq<Listener>, i: nat, senderTabId: int, msg: AuthResult)
    requires i < |ls|
    ensures SettledIds(ls[..i + 1], senderTabId, msg) ==
      SettledIds(ls[..i], senderTabId, msg) +
      (if ls[i].settlement == Waiting && ReplyMatches(ls[i], senderTabId, msg) then {ls[i].authID} else {})
  {
    var a, b := ls[..i + 1], ls[..i];
    assert a[i] == ls[i];
    forall x | x in SettledIds(a, senderTabId, msg)
      ensures x in SettledIds(b, senderTabId, msg) ||
        (ls[i].settlement == Waiting && ReplyMatches(ls[i], senderTabId, msg) && x == ls[i].authID)
    {
      var k :| 0 <= k < i + 1 && a[k].settlement == Waiting && ReplyMatches(a[k], senderTabId, msg) && a[k].authID == x;
      if k < i { assert b[k] == a[k]; }
    }
    forall x | x in SettledIds(b, senderTabId, msg) ensures x in SettledIds(a, senderTabId, msg) {
      var k :| 0 <= k < i && b[k].settlement == Waiting && ReplyMatches(b[k], senderTabId, msg) && b[k].authID == x;
      assert a[k] == b[k];
    }
  }

  /** Stopping keep-alive only for the requests a reply settles keeps every
      other waiting request alive. */
  lemma {:induction false} CorrectedDeliveryKeepsWaitingAlive(ls: seq<Listener>, active: set<string>, senderTabId: int, msg: AuthResult)
    requires WaitingKeptAlive(ls, active) && SharedIdsShareTab(ls)
    ensures WaitingKeptAlive(SettleAll(ls, senderTabId, msg), active - SettledIds(ls, senderTabId, msg))
  {
    var after := SettleAll(ls, senderTabId, msg);
    forall i | 0 <= i < |after| && after[i].settlement == Waiting
      ensures after[i].authID in active - SettledIds(ls, senderTabId, msg)
    {
      assert after[i] == Settle(ls[i], senderTabId, msg);
      assert ls[i].settlement == Waiting && !ReplyMatches(ls[i], senderTabId, msg);
      forall j | 0 <= j < |ls| && ls[j].settlement == Waiting && ReplyMatches(ls[j], senderTabId, msg)
        ensures ls[j].authID != ls[i].authID
      {
        assert ls[j].popupWindowTabID != ls[i].popupWindowTabID || ls[j].authID != ls[i].authID;
      }
    }
  }

  /** As written, the listener of a still-waiting request stops its
      keep-alive when a reply for another request arrives: with requests "a"
      and "b" waiting on popup tab 7, the reply to "a" leaves "b" waiting
      with an empty keep-alive set. */
  lemma PrematureKeepAliveStop()
    ensures var ls := [Listener("a", 7, Waiting), Listener("b", 7, Waiting)];
      var msg := AuthResult("connect", "a", false, Undefined);
      WaitingKeptAlive(ls, {"a", "b"}) && SharedIdsShareTab(ls) &&
      SettleAll(ls, 7, msg)[1].settlement == Waiting &&
      ({"a", "b"} - IdsOf(ls)) == {} &&
      !WaitingKeptAlive(SettleAll(ls, 7, msg), {"a", "b"} - IdsOf(ls))
  {
    var ls := [Listener("a", 7, Waiting), Listener("b", 7, Waiting)];
    var msg := AuthResult("connect", "a", false, Undefined);
    assert IdsOf(ls) == {"a", "b"} by {
      assert ls[0].authID == "a" && ls[1].authID == "b";
    }
    assert SettleAll(ls, 7, msg)[1] == Settle(ls[1], 7, msg);
    assert "b" != "a";
  }

  /** Without SharedIdsShareTab the corrected delivery can still drop a
      waiting request's keep-alive: two unlock requests wait on popup tabs 5
      and 9 (the popup was re-created between them), and the reply from tab 9
      removes the shared id while the request on tab 5 still waits. */
  lemma SharedUnlockIdOnTwoTabs()
    ensures var ls := [Listener(DefaultUnlockAuthRequestId, 5, Waiting), Listener(DefaultUnlockAuthRequestId, 9, Waiting)];
      var msg := AuthResult("unlock", DefaultUnlockAuthRequestId, false, Undefined);
      WaitingKeptAlive(ls, {DefaultUnlockAuthRequestId}) && !SharedIdsShareTab(ls) &&
      SettleAll(ls, 9, msg)[0].settlement == Waiting &&
      !WaitingKeptAlive(SettleAll(ls, 9, msg), {DefaultUnlockAuthRequestId} - SettledIds(ls, 9, msg))
  {
    var ls := [Listener(DefaultUnlockAuthRequestId, 5, Waiting), Listener(DefaultUnlockAuthRequestId, 9, Waiting)];
    var msg := AuthResult("unlock", DefaultUnlockAuthRequestId, false, Undefined);
    assert ReplyMatches(ls[1], 9, msg);
    assert DefaultUnlockAuthRequestId in SettledIds(ls, 9, msg);
    assert SettleAll(ls, 9, msg)[0] == Settle(ls[0], 9, msg);
  }

  /** The background's authorization state: the recorded popup tab, the
      keep-alive set and interval, and the registered reply listeners. */
  class AuthCoordinator {
    var popupTabId: int
    var active: set<string>
    var keepAliveRunning: bool
    var listeners: seq<Listener>

    /** The interval runs exactly while some request is being kept alive. */
    ghost predicate KeepAliveInvariant()
      reads this
    {
      keepAliveRunning <==> active != {}
    }

    constructor ()
      ensures popupTabId == NoPopupTab && active == {} && !keepAliveRunning && listeners == []
      ensures KeepAliveInvariant()
    {
      popupTabId := NoPopupTab;
      active := {};
      keepAliveRunning := false;
      listeners := [];
    }

    /** createAuthPopup. `recordedTabUrl` is the URL of the tab recorded in
        popupTabId (None when the lookup fails); `createdTabId` is the tab of
        the newly created window (None when creation throws). */
    method CreateAuthPopup(recordedTabUrl: Option<string>, authPageUrl: string, createdTabId: Option<int>,
                           requestType: string, freshId: string, app: ModuleAppData, now: int)
      returns (r: Result<Dispatch, string>)
      modifies this`popupTabId
      ensures NeedsNewPopup(recordedTabUrl, authPageUrl) && createdTabId.Some? ==> popupTabId == createdTabId.value
      ensures !(NeedsNewPopup(recordedTabUrl, authPageUrl) && createdTabId.Some?) ==> popupTabId == old(popupTabId)
      ensures r.Failure? <==> NeedsNewPopup(recordedTabUrl, authPageUrl) && createdTabId.None?
      ensures r.Success? ==>
        var authID := ChooseAuthId(requestType, freshId);
        r.value == Dispatch(authID, popupTabId,
          AuthRequest(requestType, app.url, app.tabID, authID, now, Pending),
          if NeedsNewPopup(recordedTabUrl, authPageUrl) then Some(AuthPopupWindow(authPageUrl)) else None)
    {
      var window: Option<PopupWindow> := None;
      if NeedsNewPopup(recordedTabUrl, authPageUrl) {
        if createdTabId.None? {
          return Failure("window creation failed");
        }
        window := Some(AuthPopupWindow(authPageUrl));
        popupTabId := createdTabId.value;
      }
      var authID := ChooseAuthId(requestType, freshId);
      var request := AuthRequest(requestType, app.url, app.tabID, authID, now, Pending);
      r := Success(Dispatch(authID, popupTabId, request, window));
    }

    /** startKeepAlive: the id joins the active set and the interval runs; a
        new interval is started only when none was running. */
    method StartKeepAlive(authID: string) returns (startedInterval: bool)
      modifies this`active, this`keepAliveRunning
      ensures active == old(active) + {authID}
      ensures keepAliveRunning
      ensures startedInterval <==> !old(keepAliveRunning)
      ensures KeepAliveInvariant()
    {
      active := active + {authID};
      startedInterval := |active| > 0 && !keepAliveRunning;
      if startedInterval {
        keepAliveRunning := true;
      }
    }

    /** stopKeepAlive: the id leaves the active set; the interval is cleared
        exactly when the set became empty while it was running. */
    method StopKeepAlive(authID: string) returns (clearedInterval: bool)
      modifies this`active, this`keepAliveRunning
      ensures active == old(active) - {authID}
      ensures clearedInterval <==> active == {} && old(keepAliveRunning)
      ensures keepAliveRunning <==> old(keepAliveRunning) && !clearedInterval
      ensures old(KeepAliveInvariant()) ==> KeepAliveInvariant()
    {
      active := active - {authID};
      clearedInterval := |active| <= 0 && keepAliveRunning;
      if clearedInterval {
        keepAliveRunning := false;
      }
    }

    /** getPopupResponse: start keep-alive for the id and register a waiting
        listener for replies from the popup tab. */
    method GetPopupResponse(authID: string, popupWindowTabID: int)
      modifies this`active, this`keepAliveRunning, this`listeners
      ensures listeners == old(listeners) + [Listener(authID, popupWindowTabID, Waiting)]
      ensures active == old(active) + {authID} && keepAliveRunning
      ensures KeepAliveInvariant()
      ensures old(WaitingKeptAlive(listeners, active)) ==> WaitingKeptAlive(listeners, active)
      ensures old(SharedIdsShareTab(listeners)) && old(IdWaitsOnlyOn(listeners, authID, popupWindowTabID)) ==>
        SharedIdsShareTab(listeners)
    {
      var _ := StartKeepAlive(authID);
      listeners := listeners + [Listener(authID, popupWindowTabID, Waiting)];
    }

    /** requestUserAuthorization: create or reuse the popup, send the
        request, then wait for the matching reply. */
    method RequestUserAuthorization(recordedTabUrl: Option<string>, authPageUrl: string, createdTabId: Option<int>,
                                    requestType: string, freshId: string, app: ModuleAppData, now: int)
      returns (r: Result<Dispatch, string>)
      modifies this
      ensures r.Failure? ==> active == old(active) && listeners == old(listeners) && keepAliveRunning == old(keepAliveRunning)
      ensures r.Failure? <==> NeedsNewPopup(recordedTabUrl, authPageUrl) && createdTabId.None?
      ensures r.Failure? ==> popupTabId == old(popupTabId)
      ensures r.Success? ==>
        popupTabId == if NeedsNewPopup(recordedTabUrl, authPageUrl) then createdTabId.value else old(popupTabId)
      ensures r.Success? ==>
        var authID := ChooseAuthId(requestType, freshId);
        r.value == Dispatch(authID, popupTabId,
          AuthRequest(requestType, app.url, app.tabID, authID, now, Pending),
          if NeedsNewPopup(recordedTabUrl, authPageUrl) then Some(AuthPopupWindow(authPageUrl)) else None)
      ensures r.Success? ==>
        listeners == old(listeners) + [Listener(r.value.authID, popupTabId, Waiting)] &&
        active == old(active) + {r.value.authID} && keepAliveRunning
    {
      r := CreateAuthPopup(recordedTabUrl, authPageUrl, createdTabId, requestType, freshId, app, now);
      if r.Success? {
        GetPopupResponse(r.value.authID, r.value.popupWindowTabID);
      }
    }

    /** The `auth_result` handlers as written: every listener first stops the
        keep-alive of its own id, then settles only on a matching reply. */
    method DeliverAuthResultAsWritten(senderTabId: int, msg: AuthResult)
      requires KeepAliveInvariant()
      modifies this`active, this`keepAliveRunning, this`listeners
      ensures listeners == SettleAll(old(listeners), senderTabId, msg)
      ensures active == old(active) - IdsOf(old(listeners))
      ensures KeepAliveInvariant()
    {
      ghost var ls0 := listeners;
      var i := 0;
      while i < |listeners|
        invariant 0 <= i <= |listeners| == |ls0|
        invariant forall k :: 0 <= k < i ==> listeners[k] == Settle(ls0[k], senderTabId, msg)
        invariant forall k :: i <= k < |listeners| ==> listeners[k] == ls0[k]
        invariant active == old(active) - IdsOf(ls0[..i])
        invariant KeepAliveInvariant()
      {
        var l := listeners[i];
        var _ := StopKeepAlive(l.authID);
        listeners := listeners[i := Settle(l, senderTabId, msg)];
        IdsOfPrefix(ls0, i);
        i := i + 1;
      }
      assert ls0[..i] == ls0;
    }

    /** The `auth_result` handlers as intended: a listener stops its
        keep-alive only when the reply settles its request. */
    method DeliverAuthResult(senderTabId: int, msg: AuthResult)
      requires KeepAliveInvariant()
      modifies this`active, this`keepAliveRunning, this`listeners
      ensures listeners == SettleAll(old(listeners), senderTabId, msg)
      ensures active == old(active) - SettledIds(old(listeners), senderTabId, msg)
      ensures KeepAliveInvariant()
      ensures old(WaitingKeptAlive(listeners, active) && SharedIdsShareTab(listeners)) ==> WaitingKeptAlive(listeners, active)
    {
      ghost var ls0 := listeners;
      ghost var active0 := active;
      var i := 0;
      while i < |listeners|
        invariant 0 <= i <= |listeners| == |ls0|
        invariant forall k :: 0 <= k < i ==> listeners[k] == Settle(ls0[k], senderTabId, msg)
        invariant forall k :: i <= k < |listeners| ==> listeners[k] == ls0[k]
        invariant active == active0 - SettledIds(ls0[..i], senderTabId, msg)
        invariant KeepAliveInvariant()
      {
        var l := listeners[i];
        if l.settlement == Waiting && ReplyMatches(l, senderTabId, msg) {
          var _ := StopKeepAlive(l.authID);
        }
        listeners := listeners[i := Settle(l, senderTabId, msg)];
        SettledIdsPrefix(ls0, i, senderTabId, msg);
        i := i + 1;
      }
      assert ls0[..i] == ls0;
      if WaitingKeptAlive(ls0, active0) && SharedIdsShareTab(ls0) {
        CorrectedDeliveryKeepsWaitingAlive(ls0, active0, senderTabId, msg);
      }
    }
  }
}

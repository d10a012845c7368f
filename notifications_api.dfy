/** The selection step of the notification poller
    (src/notifications/api.ts): which fetched transactions count as new, the
    stored block heights, the settings default and the message shown. The
    GraphQL responses are inputs; ExtensionStorage is the NotificationStorage
    class. */
module NotificationsApi {
  import opened Wrappers
  import opened Strings
  import opened NotificationUtils

  /** One query of arNotificationsHandler; `isAllTxns` is absent for the AO
      queries. The query text and variables are not modelled. */
  datatype QueryConfig = QueryConfig(isAllTxns: Option<bool>)

  /** The result of `Math.max(...heights)`, which is -Infinity for no heights. */
  datatype MaxHeight = NegInfinity | Height(h: int)

  /** The edges with a positive AR quantity, in order. */
  function FilterPositive(edges: seq<RawTransaction>): (r: seq<RawTransaction>)
    ensures forall e :: e in r <==> e in edges && e.quantity.positive
    ensures |r| <= |edges|
  {
    if |edges| == 0 then []
    else (if edges[0].quantity.positive then [edges[0]] else []) + FilterPositive(edges[1..])
  }

  /** Each positive edge is kept as often as it occurs, every other edge is
      dropped. */
  lemma {:induction false} FilterPositiveCounts(edges: seq<RawTransaction>)
    ensures forall e :: multiset(FilterPositive(edges))[e] == if e.quantity.positive then multiset(edges)[e] else 0
  {
    if |edges| > 0 {
      FilterPositiveCounts(edges[1..]);
      assert edges == [edges[0]] + edges[1..];
    }
  }

  /** The filter keeps order: filtering a concatenation concatenates the
      filtered parts. */
  lemma {:induction false} FilterPositiveAppend(a: seq<RawTransaction>, b: seq<RawTransaction>)
    ensures FilterPositive(a + b) == FilterPositive(a) + FilterPositive(b)
  {
    if |a| == 0 {
      assert a + b == b;
    } else {
      var head := if a[0].quantity.positive then [a[0]] else [];
      assert (a + b)[0] == a[0] && (a + b)[1..] == a[1..] + b;
      assert FilterPositive(a + b) == head + FilterPositive(a[1..] + b);
      FilterPositiveAppend(a[1..], b);
      assert FilterPositive(a) == head + FilterPositive(a[1..]);
    }
  }

  /** The per-response filter: only a query whose isAllTxns is the boolean
      false drops the edges without a positive quantity. */
  function FilterResponse(config: QueryConfig, edges: seq<RawTransaction>): seq<RawTransaction> {
    if config.isAllTxns == Some(false) then FilterPositive(edges) else edges
  }

  /** Queries without isAllTxns (the AO ones) and isAllTxns queries keep every edge. */
  lemma UnfilteredUnlessFalse(config: QueryConfig, edges: seq<RawTransaction>)
    ensures config.isAllTxns != Some(false) ==> FilterResponse(config, edges) == edges
    ensures config.isAllTxns == Some(false) ==> forall e :: e in FilterResponse(config, edges) <==> e in edges && e.quantity.positive
  {
  }

  function FilteredResponses(configs: seq<QueryConfig>, responses: seq<seq<RawTransaction>>): (r: seq<seq<RawTransaction>>)
    requires |configs| == |responses|
    ensures |r| == |responses|
  {
    seq(|responses|, i requires 0 <= i < |responses| => FilterResponse(configs[i], responses[i]))
  }

  /** newMaxHeight: the largest block height among the transactions that have
      a block, -Infinity when none has. */
  function MaxBlockHeight(txs: seq<EnrichedTransaction>): (m: MaxHeight)
    ensures m.NegInfinity? <==> forall i :: 0 <= i < |txs| ==> txs[i].node.block.None?
    ensures m.Height? ==> exists i :: 0 <= i < |txs| && txs[i].node.block.Some? && txs[i].node.block.value.height == m.h
    ensures m.Height? ==> forall i :: 0 <= i < |txs| && txs[i].node.block.Some? ==> txs[i].node.block.value.height <= m.h
  {
    if |txs| == 0 then NegInfinity
    else
      var rest := MaxBlockHeight(txs[1..]);
      assert forall i :: 1 <= i < |txs| ==> txs[i] == txs[1..][i - 1];
      match txs[0].node.block
      case None => rest
      case Some(b) => if rest.Height? && rest.h >= b.height then rest else Height(b.height)
  }

  /** The transaction is in a block above the given height. */
  predicate AboveHeight(t: EnrichedTransaction, height: int) {
    t.node.block.Some? && t.node.block.value.height > height
  }

  /** The transactions in a block above the last stored height, in order. */
  function NewSince(txs: seq<EnrichedTransaction>, lastStoredHeight: int): (r: seq<EnrichedTransaction>)
    ensures forall t :: t in r <==> t in txs && AboveHeight(t, lastStoredHeight)
  {
    if |txs| == 0 then []
    else (if AboveHeight(txs[0], lastStoredHeight) then [txs[0]] else []) + NewSince(txs[1..], lastStoredHeight)
  }

  /** Each transaction above the stored height is kept as often as it
      occurs, every other one is dropped. */
  lemma {:induction false} NewSinceCounts(txs: seq<EnrichedTransaction>, lastStoredHeight: int)
    ensures forall t :: multiset(NewSince(txs, lastStoredHeight))[t] == if AboveHeight(t, lastStoredHeight) then multiset(txs)[t] else 0
  {
    if |txs| > 0 {
      NewSinceCounts(txs[1..], lastStoredHeight);
      assert txs == [txs[0]] + txs[1..];
    }
  }

  /** NewSince keeps order: selecting from a concatenation concatenates the
      selections. */
  lemma {:induction false} NewSinceAppend(a: seq<EnrichedTransaction>, b: seq<EnrichedTransaction>, lastStoredHeight: int)
    ensures NewSince(a + b, lastStoredHeight) == NewSince(a, lastStoredHeight) + NewSince(b, lastStoredHeight)
  {
    if |a| == 0 {
      assert a + b == b;
    } else {
      var head := if AboveHeight(a[0], lastStoredHeight) then [a[0]] else [];
      assert (a + b)[0] == a[0] && (a + b)[1..] == a[1..] + b;
      assert NewSince(a + b, lastStoredHeight) == head + NewSince(a[1..] + b, lastStoredHeight);
      NewSinceAppend(a[1..], b, lastStoredHeight);
      assert NewSince(a, lastStoredHeight) == head + NewSince(a[1..], lastStoredHeight);
    }
  }

  /** The new transactions are reported only when the maximum height moved,
      a height was stored before (not the first load) and notifications are on. */
  predicate Reports(newMaxHeight: MaxHeight, lastStoredHeight: int, notificationSetting: bool) {
    newMaxHeight != Height(lastStoredHeight) && lastStoredHeight != 0 && notificationSetting
  }

  /** arNotificationsHandler's result: the classified transactions, the new
      maximum height, the reported new transactions, and whether
      `new_notifications` is set. */
  datatype HandlerResult = HandlerResult(
    notifications: seq<EnrichedTransaction>,
    newMaxHeight: MaxHeight,
    newTransactions: seq<EnrichedTransaction>,
    setsNewNotifications: bool)

  /** What arNotificationsHandler computes; None where it catches an error and
      returns undefined. */
  function Selection(address: string, lastStoredHeight: int, notificationSetting: bool,
                     configs: seq<QueryConfig>, responses: seq<seq<RawTransaction>>): Option<HandlerResult>
    requires |configs| == |responses|
  {
    var sorted := SortByRecency(Concat(FilteredResponses(configs, responses)));
    match ProcessTransactions(sorted, address)
    case Failure(_) => None
    case Success(enriched) =>
      var newMax := MaxBlockHeight(enriched);
      var reports := Reports(newMax, lastStoredHeight, notificationSetting);
      Some(HandlerResult(enriched, newMax, if reports then NewSince(enriched, lastStoredHeight) else [], reports))
  }

  /** The reported transactions are non-empty only when reporting, and are
      then exactly the transactions above the last stored height; every
      transaction fetched is kept in the notifications. */
  lemma {:induction false} SelectionReportsExactlyNewer(address: string, lastStoredHeight: int, notificationSetting: bool,
                                         configs: seq<QueryConfig>, responses: seq<seq<RawTransaction>>)
    requires |configs| == |responses|
    ensures var r := Selection(address, lastStoredHeight, notificationSetting, configs, responses);
      r.Some? ==>
        (r.value.newTransactions != [] ==> r.value.setsNewNotifications) &&
        (r.value.setsNewNotifications <==> r.value.newMaxHeight != Height(lastStoredHeight) && lastStoredHeight != 0 && notificationSetting) &&
        (forall t :: t in r.value.newTransactions <==>
           r.value.setsNewNotifications && t in r.value.notifications &&
           t.node.block.Some? && t.node.block.value.height > lastStoredHeight) &&
        |r.value.notifications| == TotalEdges(FilteredResponses(configs, responses))
  {
    var sorted := SortByRecency(Concat(FilteredResponses(configs, responses)));
    SortByRecencyFacts(Concat(FilteredResponses(configs, responses)));
    ConcatLength(FilteredResponses(configs, responses));
  }

  /** arNotificationsHandler: filter each response as its query asks, merge and
      sort, classify, and select the new transactions. */
  method ArNotificationsHandler(address: string, lastStoredHeight: int, notificationSetting: bool,
                                configs: seq<QueryConfig>, responses: seq<seq<RawTransaction>>)
    returns (r: Option<HandlerResult>)
    requires |configs| == |responses|
    ensures r == Selection(address, lastStoredHeight, notificationSetting, configs, responses)
  {
    var filtered := responses;
    var i := 0;
    while i < |filtered|
      invariant 0 <= i <= |filtered| == |responses|
      invariant forall k :: 0 <= k < i ==> filtered[k] == FilterResponse(configs[k], responses[k])
      invariant forall k :: i <= k < |filtered| ==> filtered[k] == responses[k]
    {
      if configs[i].isAllTxns == Some(false) {
        filtered := filtered[i := FilterPositive(filtered[i])];
      }
      i := i + 1;
    }
    assert filtered == FilteredResponses(configs, responses);
    var combined := CombineAndSortTransactions(filtered);
    var processed := ProcessTransactions(combined, address);
    if processed.Failure? {
      return None;
    }
    var enriched := processed.value;
    var newMaxHeight := MaxBlockHeight(enriched);
    var transactionDiff: seq<EnrichedTransaction> := [];
    var setsFlag := false;
    if newMaxHeight != Height(lastStoredHeight) {
      var newTransactions := NewSince(enriched, lastStoredHeight);
      if lastStoredHeight != 0 && notificationSetting {
        setsFlag := true;
        transactionDiff := newTransactions;
      }
    }
    r := Some(HandlerResult(enriched, newMaxHeight, transactionDiff, setsFlag));
  }

  /** The text of the desktop notification for `count` new transactions. */
  function NotificationMessage(count: nat): Option<string> {
    if count == 0 then None
    else if count > 1 then Some("You have " + NatToString(count) + " new transactions.")
    else Some("You have 1 new transaction.")
  }

  /** A message is shown exactly when there are new transactions; the plural
      message names their number, the singular one is used for exactly one. */
  lemma {:induction false} NotificationMessageNamesCount(count: nat)
    ensures NotificationMessage(count).None? <==> count == 0
    ensures count == 1 ==> NotificationMessage(count) == Some("You have 1 new transaction.")
    ensures count > 1 ==> NotificationMessage(count) == Some("You have " + NatToString(count) + " new transactions.")
    ensures count > 1 ==> exists digits :: (AllDigits(digits) && DigitsValue(digits) == count && digits[0] != '0' &&
      NotificationMessage(count) == Some("You have " + digits + " new transactions."))
  {
    if count > 1 {
      NatToStringValue(count);
      NatToStringLeadingDigit(count);
      var digits := NatToString(count);
      assert AllDigits(digits) && DigitsValue(digits) == count && digits[0] != '0';
    }
  }

  /** The height written to storage: JSON turns -Infinity into null. */
  function StoredHeight(m: MaxHeight): Option<int> {
    match m
    case NegInfinity => None
    case Height(h) => Some(h)
  }

  /** The stored record `notifications_<address>`; a missing or null height
      reads back as 0. */
  datatype StoredNotifications = StoredNotifications(
    arNotifications: seq<EnrichedTransaction>,
    arLastStoredBlockHeight: Option<int>,
    aoNotifications: seq<EnrichedTransaction>,
    aoLastStoredBlockHeight: Option<int>)

  const AlarmPrefix: string := "notifications"
  const DefaultCustomization: seq<string> := ["default"]

  /** The customize setting after defaulting: a missing one becomes ["default"]. */
  function EffectiveCustomization(customize: Option<seq<string>>): seq<string> {
    customize.GetOr(DefaultCustomization)
  }

  /** The two AR queries; both filter by quantity unless "allTxns" is chosen. */
  function ArConfigs(settings: seq<string>): seq<QueryConfig> {
    [QueryConfig(Some("allTxns" in settings)), QueryConfig(Some("allTxns" in settings))]
  }

  /** The two AO queries, which carry no isAllTxns. */
  const AoConfigs: seq<QueryConfig> := [QueryConfig(None), QueryConfig(None)]

  /** The AO result: the AO queries run only with the "default" setting,
      otherwise nothing is fetched and the stored height becomes 0. */
  function AoSelection(settings: seq<string>, address: string, lastStoredHeight: int, notificationSetting: bool,
                       aoResponses: seq<seq<RawTransaction>>): Option<HandlerResult>
    requires |aoResponses| == 2
  {
    if "default" in settings then Selection(address, lastStoredHeight, notificationSetting, AoConfigs, aoResponses)
    else Some(HandlerResult([], Height(0), [], false))
  }

  function LastHeights(stored: map<string, StoredNotifications>, key: string): (int, int) {
    if key in stored then
      (stored[key].arLastStoredBlockHeight.GetOr(0), stored[key].aoLastStoredBlockHeight.GetOr(0))
    else (0, 0)
  }

  /** A missing customize setting is stored as ["default"], and a stored
      null height reads back as 0 (the first-load case). */
  lemma DefaultsAndNullHeights(stored: map<string, StoredNotifications>, key: string)
    ensures EffectiveCustomization(None) == ["default"] && "default" in EffectiveCustomization(None)
    ensures key in stored && stored[key].arLastStoredBlockHeight == StoredHeight(NegInfinity) ==> LastHeights(stored, key).0 == 0
  {
  }

  /** The extension storage keys the poller reads and writes. */
  class NotificationStorage {
    var notificationSetting: bool                         // setting_notifications
    var customize: Option<seq<string>>                    // setting_notifications_customize
    var newNotifications: bool                            // new_notifications
    var stored: map<string, StoredNotifications>          // notifications_<address>

    constructor (notificationSetting: bool, customize: Option<seq<string>>, stored: map<string, StoredNotifications>)
      ensures this.notificationSetting == notificationSetting && this.customize == customize
      ensures this.stored == stored && !newNotifications
    {
      this.notificationSetting := notificationSetting;
      this.customize := customize;
      this.newNotifications := false;
      this.stored := stored;
    }

    /** notificationsHandler for one alarm. `arResponses` and `aoResponses`
        are the answers to the two AR and the two AO queries. Returns the
        notification message shown, if any. */
    method NotificationsHandler(alarmName: Option<string>, address: string,
                                arResponses: seq<seq<RawTransaction>>, aoResponses: seq<seq<RawTransaction>>)
      returns (message: Option<string>)
      requires |arResponses| == 2 && |aoResponses| == 2
      modifies this`customize, this`newNotifications, this`stored
      ensures alarmName.Some? && !StartsWith(alarmName.value, AlarmPrefix) ==>
        message.None? && customize == old(customize) && stored == old(stored) && newNotifications == old(newNotifications)
      ensures !(alarmName.Some? && !StartsWith(alarmName.value, AlarmPrefix)) ==>
        customize == Some(EffectiveCustomization(old(customize)))
      ensures !(alarmName.Some? && !StartsWith(alarmName.value, AlarmPrefix)) ==>
        var settings := EffectiveCustomization(old(customize));
        var heights := LastHeights(old(stored), "notifications_" + address);
        var ar := Selection(address, heights.0, notificationSetting, ArConfigs(settings), arResponses);
        var ao := AoSelection(settings, address, heights.1, notificationSetting, aoResponses);
        newNotifications == (old(newNotifications) || (ar.Some? && ar.value.setsNewNotifications) ||
                             (ar.Some? && ao.Some? && ao.value.setsNewNotifications))
      ensures !(alarmName.Some? && !StartsWith(alarmName.value, AlarmPrefix)) ==>
        var settings := EffectiveCustomization(old(customize));
        var key := "notifications_" + address;
        var heights := LastHeights(old(stored), key);
        var ar := Selection(address, heights.0, notificationSetting, ArConfigs(settings), arResponses);
        var ao := AoSelection(settings, address, heights.1, notificationSetting, aoResponses);
        (ar.None? || ao.None? ==> stored == old(stored) && message.None?) &&
        (ar.Some? && ao.Some? ==>
           stored == old(stored)[key := StoredNotifications(
             ar.value.notifications, StoredHeight(ar.value.newMaxHeight),
             ao.value.notifications, StoredHeight(ao.value.newMaxHeight))] &&
           message == NotificationMessage(|ao.value.newTransactions| + |ar.value.newTransactions|))
    {
      message := None;
      if alarmName.Some? && !StartsWith(alarmName.value, AlarmPrefix) {
        return;
      }
      var settings := EffectiveCustomization(customize);
      customize := Some(settings);
      message := UpdateNotifications(address, settings, arResponses, aoResponses);
    }

    /** The AR queries, then (when they succeed) the AO queries if the
        "default" setting asks for them. */
    method FetchTransactions(address: string, settings: seq<string>, heights: (int, int),
                 arResponses: seq<seq<RawTransaction>>, aoResponses: seq<seq<RawTransaction>>)
      returns (ar: Option<HandlerResult>, ao: Option<HandlerResult>)
      requires |arResponses| == 2 && |aoResponses| == 2
      ensures ar == Selection(address, heights.0, notificationSetting, ArConfigs(settings), arResponses)
      ensures ar.Some? ==> ao == AoSelection(settings, address, heights.1, notificationSetting, aoResponses)
      ensures ar.None? ==> ao.None?
    {
      ar := ArNotificationsHandler(address, heights.0, notificationSetting, ArConfigs(settings), arResponses);
      ao := None;
      if ar.Some? {
        if "default" in settings {
          ao := ArNotificationsHandler(address, heights.1, notificationSetting, AoConfigs, aoResponses);
        } else {
          ao := Some(HandlerResult([], Height(0), [], false));
        }
      }
    }

    /** The body of notificationsHandler's try block: fetch and classify the
        AR and AO transactions, raise the flag, show the message and store
        the result; a failed fetch skips the rest. */
    method UpdateNotifications(address: string, settings: seq<string>,
                               arResponses: seq<seq<RawTransaction>>, aoResponses: seq<seq<RawTransaction>>)
      returns (message: Option<string>)
      requires |arResponses| == 2 && |aoResponses| == 2
      modifies this`newNotifications, this`stored
      ensures var key := "notifications_" + address;
        var heights := LastHeights(old(stored), key);
        var ar := Selection(address, heights.0, notificationSetting, ArConfigs(settings), arResponses);
        var ao := AoSelection(settings, address, heights.1, notificationSetting, aoResponses);
        newNotifications == (old(newNotifications) || (ar.Some? && ar.value.setsNewNotifications) ||
                             (ar.Some? && ao.Some? && ao.value.setsNewNotifications)) &&
        (ar.None? || ao.None? ==> stored == old(stored) && message.None?) &&
        (ar.Some? && ao.Some? ==>
           stored == old(stored)[key := StoredNotifications(
             ar.value.notifications, StoredHeight(ar.value.newMaxHeight),
             ao.value.notifications, StoredHeight(ao.value.newMaxHeight))] &&
           message == NotificationMessage(|ao.value.newTransactions| + |ar.value.newTransactions|))
    {
      message := None;
      var key := "notifications_" + address;
      var heights := LastHeights(stored, key);
      var ar, ao := FetchTransactions(address, settings, heights, arResponses, aoResponses);
      message := NotifyAndStore(key, ar, ao);
    }

    /** The rest of the try block once both handlers returned: the flag they
        set, the desktop notification for the new transactions of both, and
        the record written under `key`. When a handler failed, only the flag
        an earlier one set remains. */
    method NotifyAndStore(key: string, ar: Option<HandlerResult>, ao: Option<HandlerResult>)
      returns (message: Option<string>)
      requires ar.None? ==> ao.None?
      modifies this`newNotifications, this`stored
      ensures newNotifications == (old(newNotifications) || (ar.Some? && ar.value.setsNewNotifications) ||
                                   (ao.Some? && ao.value.setsNewNotifications))
      ensures ar.None? || ao.None? ==> stored == old(stored) && message.None?
      ensures ar.Some? && ao.Some? ==>
        stored == old(stored)[key := StoredNotifications(
          ar.value.notifications, StoredHeight(ar.value.newMaxHeight),
          ao.value.notifications, StoredHeight(ao.value.newMaxHeight))] &&
        message == NotificationMessage(|ao.value.newTransactions| + |ar.value.newTransactions|)
    {
      message := None;
      newNotifications := newNotifications || (ar.Some? && ar.value.setsNewNotifications) ||
                          (ao.Some? && ao.value.setsNewNotifications);
      if ar.Some? && ao.Some? {
        var count := |ao.value.newTransactions| + |ar.value.newTransactions|;
        message := NotificationMessage(count);
        stored := stored[key := StoredNotifications(
          ar.value.notifications, StoredHeight(ar.value.newMaxHeight),
          ao.value.notifications, StoredHeight(ao.value.newMaxHeight))];
      }
    }
  }
}

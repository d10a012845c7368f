/** Token contract helpers (src/tokens/token.ts): validating a contract
    state, classifying contract interactions, and selecting the most recent
    interactions of an address. GraphQL fetches and JSON parsing happen
    outside; their results are inputs here. */
module Token {
  import opened Wrappers
  import opened JsValues
  import opened Strings
  import NotificationUtils

  // ---------------------------------------------------------------------------
  // validateTokenState

  /** A balance entry as `for…in` enumerates it: the key is always a string. */
  datatype BalanceEntry = BalanceEntry(address: string, balance: JsValue)

  /** A contract state object; `balances` is None when the property is
      missing or holds a falsy value. */
  datatype TokenState = TokenState(ticker: JsValue, balances: Option<seq<BalanceEntry>>)

  datatype TokenStateError = NoState | InvalidTicker | NoBalances | InvalidAddress | InvalidBalance

  /** The message of the Error thrown for each failure. */
  function ErrorMessage(e: TokenStateError): string {
    match e
    case NoState => "No state for token"
    case InvalidTicker => "Invalid ticker"
    case NoBalances => "No balances object"
    case InvalidAddress => "Balances object contains an invalid address that is not a string"
    case InvalidBalance => "Balances object contains an invalid balance that is not a number"
  }

  /** A state the validator accepts: present, a non-empty string ticker, a
      balances object, and every balance a number. */
  predicate ValidTokenState(state: Option<TokenState>) {
    state.Some? && IsNonEmptyString(state.value.ticker) && state.value.balances.Some? &&
    forall i :: 0 <= i < |state.value.balances.value| ==> state.value.balances.value[i].balance.Num?
  }

  /** validateTokenState: None when the state is accepted, otherwise the
      error it throws. `state` is None for a falsy state. The check that a
      key is not a string cannot fire, since `for…in` keys are strings. */
  method ValidateTokenState(state: Option<TokenState>) returns (error: Option<TokenStateError>)
    ensures error.None? <==> ValidTokenState(state)
    ensures state.None? ==> error == Some(NoState)
    ensures state.Some? && !IsNonEmptyString(state.value.ticker) ==> error == Some(InvalidTicker)
    ensures state.Some? && IsNonEmptyString(state.value.ticker) && state.value.balances.None? ==> error == Some(NoBalances)
    ensures state.Some? && IsNonEmptyString(state.value.ticker) && state.value.balances.Some? && error.Some? ==>
      error == Some(InvalidBalance)
    ensures error != Some(InvalidAddress)
  {
    if state.None? {
      return Some(NoState);
    }
    if !Truthy(state.value.ticker) || !state.value.ticker.Str? {
      return Some(InvalidTicker);
    }
    if state.value.balances.None? {
      return Some(NoBalances);
    }
    var balances := state.value.balances.value;
    var i := 0;
    while i < |balances|
      invariant 0 <= i <= |balances|
      invariant forall k :: 0 <= k < i ==> balances[k].balance.Num?
    {
      if !balances[i].balance.Num? {
        return Some(InvalidBalance);
      }
      i := i + 1;
    }
    return None;
  }

  /** The entries `for…in` enumerates for a string `balances`: each index
      (as a string key) with the one-character string at that index. */
  function StringEntries(s: string): (r: seq<BalanceEntry>)
    ensures |r| == |s|
    ensures forall i :: 0 <= i < |s| ==> r[i].balance == Str([s[i]])
  {
    if |s| == 0 then [] else StringEntries(s[..|s| - 1]) + [BalanceEntry(NatToString(|s| - 1), Str([s[|s| - 1]]))]
  }

  /** A non-empty string in place of the balances object is rejected: its
      first entry's value is a string, not a number. */
  lemma StringBalancesRejected(ticker: JsValue, s: string)
    requires s != ""
    ensures !ValidTokenState(Some(TokenState(ticker, Some(StringEntries(s)))))
  {
    assert StringEntries(s)[0].balance == Str([s[0]]);
  }

  /** Length and one distinguishing character of each message. */
  lemma ErrorMessageShape(e: TokenStateError)
    ensures var m := ErrorMessage(e);
      match e
      case NoState => |m| == 18 && m[3] == 's'
      case InvalidTicker => |m| == 14
      case NoBalances => |m| == 18 && m[3] == 'b'
      case InvalidAddress => |m| == 64 && m[36] == 'a'
      case InvalidBalance => |m| == 64 && m[36] == 'b'
  {
  }

  /** Each error has its own message. */
  lemma ErrorMessagesDistinct(e1: TokenStateError, e2: TokenStateError)
    ensures ErrorMessage(e1) == ErrorMessage(e2) <==> e1 == e2
  {
    ErrorMessageShape(e1);
    ErrorMessageShape(e2);
  }

  // ---------------------------------------------------------------------------
  // parseInteractions

  /** The parsed `Input` tag of an interaction (only the fields read). */
  datatype InteractionInput = InteractionInput(functionName: JsValue, target: JsValue, qty: JsValue)

  /** An interaction transaction node. */
  datatype InteractionTx = InteractionTx(
    id: string,
    recipient: string,
    owner: string,
    quantityAr: string,
    tags: seq<NotificationUtils.Tag>,
    timestamp: Option<int>)    // block.timestamp, absent without a block

  datatype InteractionType = Interaction | In | Out

  /** A parsed interaction. `qty` is the raw value whose number is shown and
      `unit` the text after it; `otherAddress` is Undefined for a plain
      interaction. */
  datatype TokenInteraction = TokenInteraction(
    id: string,
    interactionType: InteractionType,
    qty: JsValue,
    unit: string,
    functionName: JsValue,
    otherAddress: JsValue)

  /** Why parsing an interaction throws: its Input tag is missing or does not
      parse to an object. */
  datatype ParseError = NoInput

  /** `x || y` on JavaScript values. */
  function Or(x: JsValue, y: JsValue): JsValue {
    if Truthy(x) then x else y
  }

  /** One interaction; `parseInput` stands for `JSON.parse` of a tag value,
      None where it throws or yields null. */
  function ParseInteraction(tx: InteractionTx, activeAddress: string, ticker: Option<string>,
                            parseInput: string -> Option<InteractionInput>): Result<TokenInteraction, ParseError> {
    match NotificationUtils.FindTag(tx.tags, "Input")
    case None => Failure(NoInput)
    case Some(tag) =>
      match parseInput(tag.value)
      case None => Failure(NoInput)
      case Some(input) =>
        var recipient := Or(Str(tx.recipient), input.target);
        if input.functionName == Str("transfer") then
          var incoming := recipient == Str(activeAddress);
          var other := if incoming && tx.owner != "" then Str(tx.owner) else recipient;
          var unit := if ticker.Some? && ticker.value != "" then ticker.value else "";
          Success(TokenInteraction(tx.id, if incoming then In else Out, input.qty, unit, input.functionName, other))
        else
          Success(TokenInteraction(tx.id, Interaction, Str(tx.quantityAr), "AR", input.functionName, Undefined))
  }

  /** The transfer rule: the recipient is the node's recipient, or the
      input's target when that is empty; the interaction is incoming exactly
      when the recipient is the active address, and the other party is then
      the owner (when non-empty) and otherwise the recipient. */
  lemma TransferClassification(tx: InteractionTx, activeAddress: string, ticker: Option<string>,
                               parseInput: string -> Option<InteractionInput>, input: InteractionInput)
    requires NotificationUtils.FindTag(tx.tags, "Input").Some?
    requires parseInput(NotificationUtils.FindTag(tx.tags, "Input").value.value) == Some(input)
    requires input.functionName == Str("transfer")
    ensures var r := ParseInteraction(tx, activeAddress, ticker, parseInput);
      var recipient := if tx.recipient != "" then Str(tx.recipient) else input.target;
      r.Success? && r.value.id == tx.id && r.value.qty == input.qty &&
      (r.value.interactionType == In <==> recipient == Str(activeAddress)) &&
      (r.value.interactionType == Out <==> recipient != Str(activeAddress)) &&
      (recipient == Str(activeAddress) && tx.owner != "" ==> r.value.otherAddress == Str(tx.owner)) &&
      (recipient == Str(activeAddress) && tx.owner == "" ==> r.value.otherAddress == recipient) &&
      (recipient != Str(activeAddress) ==> r.value.otherAddress == recipient) &&
      r.value.unit == (if ticker.Some? then ticker.value else "")
  {
  }

  /** Any other function is a plain interaction: quantity in AR from the
      node, no other address. */
  lemma OtherFunctionIsInteraction(tx: InteractionTx, activeAddress: string, ticker: Option<string>,
                                   parseInput: string -> Option<InteractionInput>, input: InteractionInput)
    requires NotificationUtils.FindTag(tx.tags, "Input").Some?
    requires parseInput(NotificationUtils.FindTag(tx.tags, "Input").value.value) == Some(input)
    requires input.functionName != Str("transfer")
    ensures var r := ParseInteraction(tx, activeAddress, ticker, parseInput);
      r.Success? && r.value.interactionType == Interaction && r.value.otherAddress == Undefined &&
      r.value.qty == Str(tx.quantityAr) && r.value.unit == "AR" && r.value.functionName == input.functionName
  {
  }

  /** parseInteractions: the interactions in order, or the first error. */
  function ParseInteractions(txs: seq<InteractionTx>, activeAddress: string, ticker: Option<string>,
                             parseInput: string -> Option<InteractionInput>): (r: Result<seq<TokenInteraction>, ParseError>)
    ensures r.Failure? <==> exists i :: 0 <= i < |txs| && ParseInteraction(txs[i], activeAddress, ticker, parseInput).Failure?
    ensures r.Success? ==> |r.value| == |txs|
    ensures r.Success? ==> forall i :: 0 <= i < |txs| ==> Success(r.value[i]) == ParseInteraction(txs[i], activeAddress, ticker, parseInput)
  {
    if |txs| == 0 then Success([])
    else
      var head := ParseInteraction(txs[0], activeAddress, ticker, parseInput);
      var rest := ParseInteractions(txs[1..], activeAddress, ticker, parseInput);
      assert forall i :: 1 <= i < |txs| ==> txs[i] == txs[1..][i - 1];
      if head.Failure? then Failure(head.error)
      else if rest.Failure? then Failure(rest.error)
      else Success([head.value] + rest.value)
  }

  // ---------------------------------------------------------------------------
  // the tail of getInteractionsTxsForAddress

  const DefaultInteractionsLimit: int := 6

  /** `!!tx.node.block?.timestamp` */
  predicate HasTimestamp(tx: InteractionTx) {
    tx.timestamp.Some? && tx.timestamp.value != 0
  }

  function Timestamp(tx: InteractionTx): int {
    if tx.timestamp.Some? then tx.timestamp.value else 0
  }

  function KeepTimestamped(txs: seq<InteractionTx>): (r: seq<InteractionTx>)
    ensures forall t :: t in r <==> t in txs && HasTimestamp(t)
    ensures |r| <= |txs|
  {
    if |txs| == 0 then []
    else (if HasTimestamp(txs[0]) then [txs[0]] else []) + KeepTimestamped(txs[1..])
  }

  /** Each timestamped interaction is kept as often as it occurs, every
      other one is dropped. */
  lemma {:induction false} KeepTimestampedCounts(txs: seq<InteractionTx>)
    ensures forall t :: multiset(KeepTimestamped(txs))[t] == if HasTimestamp(t) then multiset(txs)[t] else 0
  {
    if |txs| > 0 {
      KeepTimestampedCounts(txs[1..]);
      assert txs == [txs[0]] + txs[1..];
    }
  }

  /** The filter keeps order: filtering a concatenation concatenates the
      filtered parts. */
  lemma {:induction false} KeepTimestampedAppend(a: seq<InteractionTx>, b: seq<InteractionTx>)
    ensures KeepTimestamped(a + b) == KeepTimestamped(a) + KeepTimestamped(b)
  {
    if |a| == 0 {
      assert a + b == b;
    } else {
      var head := if HasTimestamp(a[0]) then [a[0]] else [];
      assert (a + b)[0] == a[0] && (a + b)[1..] == a[1..] + b;
      assert KeepTimestamped(a + b) == head + KeepTimestamped(a[1..] + b);
      KeepTimestampedAppend(a[1..], b);
      assert KeepTimestamped(a) == head + KeepTimestamped(a[1..]);
    }
  }

  /** Stable insertion for the comparator `b.timestamp - a.timestamp`: `x`,
      which came earlier, goes before the first element not newer than it. */
  function InsertByTimestamp(x: InteractionTx, s: seq<InteractionTx>): (r: seq<InteractionTx>)
    ensures |r| == |s| + 1
  {
    if |s| == 0 then [x]
    else if Timestamp(s[0]) <= Timestamp(x) then [x] + s
    else [s[0]] + InsertByTimestamp(x, s[1..])
  }

  /** The stable sort of Array.prototype.sort with that comparator. */
  function SortByTimestamp(s: seq<InteractionTx>): (r: seq<InteractionTx>)
    ensures |r| == |s|
  {
    if |s| == 0 then [] else InsertByTimestamp(s[0], SortByTimestamp(s[1..]))
  }

  predicate NewestFirst(s: seq<InteractionTx>) {
    forall i, j :: 0 <= i < j < |s| ==> Timestamp(s[i]) >= Timestamp(s[j])
  }

  lemma {:induction false} InsertByTimestampPermutes(x: InteractionTx, s: seq<InteractionTx>)
    ensures multiset(InsertByTimestamp(x, s)) == multiset(s) + multiset{x}
  {
    if |s| > 0 && Timestamp(s[0]) > Timestamp(x) {
      var t := s[1..];
      var it := InsertByTimestamp(x, t);
      assert InsertByTimestamp(x, s) == [s[0]] + it;
      InsertByTimestampPermutes(x, t);
      assert s == [s[0]] + t;
      assert multiset(s) == multiset{s[0]} + multiset(t);
      assert multiset([s[0]] + it) == multiset{s[0]} + multiset(it);
    }
  }

  lemma NewestFirstTail(s: seq<InteractionTx>)
    requires |s| > 0 && NewestFirst(s)
    ensures NewestFirst(s[1..])
  {
    var t := s[1..];
    forall i, j | 0 <= i < j < |t| ensures Timestamp(t[i]) >= Timestamp(t[j]) {
      assert t[i] == s[i + 1] && t[j] == s[j + 1];
    }
  }

  /** When `x` goes after the head, the head is no older than anything in
      the rest with `x` inserted. */
  lemma HeadBoundsInsertion(x: InteractionTx, s: seq<InteractionTx>)
    requires |s| > 0 && NewestFirst(s) && Timestamp(s[0]) > Timestamp(x)
    ensures forall j :: 0 <= j < |InsertByTimestamp(x, s[1..])| ==> Timestamp(s[0]) >= Timestamp(InsertByTimestamp(x, s[1..])[j])
  {
    var t := s[1..];
    var it := InsertByTimestamp(x, t);
    InsertByTimestampPermutes(x, t);
    forall j | 0 <= j < |it| ensures Timestamp(s[0]) >= Timestamp(it[j]) {
      assert it[j] in multiset(it);
      if it[j] != x {
        assert it[j] in multiset(t);
        var m :| 0 <= m < |t| && t[m] == it[j];
        assert s[m + 1] == t[m];
      }
    }
  }

  lemma {:induction false} InsertByTimestampSorted(x: InteractionTx, s: seq<InteractionTx>)
    requires NewestFirst(s)
    ensures NewestFirst(InsertByTimestamp(x, s))
  {
    if |s| == 0 {
    } else if Timestamp(s[0]) <= Timestamp(x) {
      var r := [x] + s;
      assert InsertByTimestamp(x, s) == r;
      forall i, j | 0 <= i < j < |r| ensures Timestamp(r[i]) >= Timestamp(r[j]) {
        assert r[j] == s[j - 1];
        if i > 0 { assert r[i] == s[i - 1]; }
      }
    } else {
      var t := s[1..];
      NewestFirstTail(s);
      InsertByTimestampSorted(x, t);
      HeadBoundsInsertion(x, s);
      var it := InsertByTimestamp(x, t);
      var r := [s[0]] + it;
      assert InsertByTimestamp(x, s) == r;
      forall i, j | 0 <= i < j < |r| ensures Timestamp(r[i]) >= Timestamp(r[j]) {
        assert r[j] == it[j - 1];
        if i > 0 { assert r[i] == it[i - 1]; }
      }
    }
  }

  lemma {:induction false} SortByTimestampPermutes(s: seq<InteractionTx>)
    ensures multiset(SortByTimestamp(s)) == multiset(s)
    ensures |SortByTimestamp(s)| == |s|
  {
    if |s| > 0 {
      var t := s[1..];
      var r := SortByTimestamp(s);
      assert r == InsertByTimestamp(s[0], SortByTimestamp(t));
      SortByTimestampPermutes(t);
      InsertByTimestampPermutes(s[0], SortByTimestamp(t));
      assert s == [s[0]] + t;
    }
  }

  lemma {:induction false} SortByTimestampSorted(s: seq<InteractionTx>)
    ensures NewestFirst(SortByTimestamp(s))
  {
    if |s| > 0 {
      SortByTimestampSorted(s[1..]);
      InsertByTimestampSorted(s[0], SortByTimestamp(s[1..]));
    }
  }

  lemma SortByTimestampFacts(s: seq<InteractionTx>)
    ensures multiset(SortByTimestamp(s)) == multiset(s)
    ensures |SortByTimestamp(s)| == |s|
    ensures NewestFirst(SortByTimestamp(s))
  {
    SortByTimestampPermutes(s);
    SortByTimestampSorted(s);
  }

  /** The end index of `slice(0, limit)` on a list of length `n`. */
  function SliceEnd(n: nat, limit: int): (e: nat)
    ensures e <= n
    ensures limit >= 0 ==> e == if limit < n then limit else n
    ensures limit < 0 ==> e == if n + limit > 0 then n + limit else 0
  {
    if limit >= 0 then (if limit < n then limit else n)
    else if n + limit > 0 then n + limit else 0
  }

  /** `out.concat(incoming).filter(has timestamp).sort(newest first)
      .slice(0, limit)`, with `limit` defaulting to 6. */
  function RecentInteractions(outgoing: seq<InteractionTx>, incoming: seq<InteractionTx>, limit: Option<int>): seq<InteractionTx> {
    var sorted := SortByTimestamp(KeepTimestamped(outgoing + incoming));
    sorted[..SliceEnd(|sorted|, limit.GetOr(DefaultInteractionsLimit))]
  }

  /** The selection keeps only timestamped interactions of either list,
      newest first, and at most `limit` of them (6 by default). */
  lemma {:induction false} RecentInteractionsBounded(outgoing: seq<InteractionTx>, incoming: seq<InteractionTx>, limit: Option<int>)
    ensures var r := RecentInteractions(outgoing, incoming, limit);
      (forall t :: t in r ==> HasTimestamp(t) && (t in outgoing || t in incoming)) &&
      NewestFirst(r) &&
      (limit.GetOr(DefaultInteractionsLimit) >= 0 ==> |r| <= limit.GetOr(DefaultInteractionsLimit)) &&
      (limit.None? ==> |r| <= 6)
  {
    var kept := KeepTimestamped(outgoing + incoming);
    var sorted := SortByTimestamp(kept);
    SortByTimestampFacts(kept);
    var e := SliceEnd(|sorted|, limit.GetOr(DefaultInteractionsLimit));
    forall t | t in sorted[..e] ensures t in kept {
      assert t in multiset(sorted);
    }
  }

  /** What a prefix of a newest-first list leaves out is no newer than the
      prefix's last element. */
  lemma PrefixLeavesOutOlder(sorted: seq<InteractionTx>, e: nat, t: InteractionTx)
    requires NewestFirst(sorted) && 0 < e <= |sorted|
    requires t in sorted && t !in sorted[..e]
    ensures Timestamp(t) <= Timestamp(sorted[..e][e - 1])
  {
    var r := sorted[..e];
    var m :| 0 <= m < |sorted| && sorted[m] == t;
    assert m >= e;
    assert r[e - 1] == sorted[e - 1];
  }

  /** A prefix of a newest-first ordering of `kept` is part of `kept`, and
      what it leaves out is no newer than its last element; a prefix that
      reaches the end is all of `kept`. */
  lemma PrefixOfNewestFirst(kept: seq<InteractionTx>, sorted: seq<InteractionTx>, e: nat, limit: int)
    requires multiset(sorted) == multiset(kept) && NewestFirst(sorted) && e <= |sorted|
    requires limit >= |kept| ==> e == |sorted|
    ensures var r := sorted[..e];
      multiset(r) <= multiset(kept) &&
      (forall t :: t in kept && t !in r && |r| > 0 ==> Timestamp(t) <= Timestamp(r[|r| - 1])) &&
      (limit >= |kept| ==> multiset(r) == multiset(kept))
  {
    var r := sorted[..e];
    assert sorted == r + sorted[e..];
    forall t | t in kept && t !in r && |r| > 0 ensures Timestamp(t) <= Timestamp(r[|r| - 1]) {
      assert t in multiset(sorted);
      PrefixLeavesOutOlder(sorted, e, t);
    }
    if limit >= |kept| {
      assert r == sorted;
    }
  }

  /** The first `limit` of the sorted interactions are the newest of them. */
  lemma NewestOfKept(kept: seq<InteractionTx>, limit: int)
    ensures var sorted := SortByTimestamp(kept);
      var r := sorted[..SliceEnd(|sorted|, limit)];
      multiset(r) <= multiset(kept) &&
      (forall t :: t in kept && t !in r && |r| > 0 ==> Timestamp(t) <= Timestamp(r[|r| - 1])) &&
      (limit >= |kept| ==> multiset(r) == multiset(kept))
  {
    var sorted := SortByTimestamp(kept);
    SortByTimestampFacts(kept);
    PrefixOfNewestFirst(kept, sorted, SliceEnd(|sorted|, limit), limit);
  }

  /** The kept interactions are the newest ones: each timestamped
      interaction is kept once, or is no newer than the last one kept; with
      a limit at least the number of candidates, all of them are kept. */
  lemma {:induction false} RecentInteractionsAreNewest(outgoing: seq<InteractionTx>, incoming: seq<InteractionTx>, limit: Option<int>)
    ensures var r := RecentInteractions(outgoing, incoming, limit);
      var kept := KeepTimestamped(outgoing + incoming);
      multiset(r) <= multiset(kept) &&
      (forall t :: t in kept && t !in r && |r| > 0 ==> Timestamp(t) <= Timestamp(r[|r| - 1])) &&
      (limit.GetOr(DefaultInteractionsLimit) >= |kept| ==> multiset(r) == multiset(kept))
  {
    NewestOfKept(KeepTimestamped(outgoing + incoming), limit.GetOr(DefaultInteractionsLimit));
  }
}

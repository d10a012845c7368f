/** The transaction pipeline behind wallet notifications
    (src/notifications/utils.ts): merging and ordering the GraphQL edges of
    several responses, and classifying each transaction. */
module NotificationUtils {
  import opened Wrappers

  datatype Tag = Tag(name: string, value: string)

  datatype Block = Block(timestamp: int, height: int)

  /** `quantity.ar` as text, with whether it denotes a number above zero
      (the source's `ar > 0` and `BigNumber(ar).gt(0)`). */
  datatype ArQuantity = ArQuantity(ar: string, positive: bool)

  /** One GraphQL edge's node (RawTransaction); `block` is absent for
      transactions not yet mined. */
  datatype RawTransaction = RawTransaction(
    id: string,
    recipient: string,
    owner: string,
    quantity: ArQuantity,
    block: Option<Block>,
    tags: seq<Tag>)

  datatype TransactionType = Transaction | Sent | Received | Message | PrintArchive

  /** A classified transaction; `tokenId` is present only when non-empty,
      `isAo` and `warpContract` are set only when true. */
  datatype EnrichedTransaction = EnrichedTransaction(
    node: RawTransaction,
    transactionType: TransactionType,
    quantity: string,
    isAo: bool,
    tokenId: Option<string>,
    warpContract: bool)

  // ---------------------------------------------------------------------------
  // combineAndSortTransactions

  /** The concatenation of every response's edges, in response order (the
      reduce with `acc.concat`). */
  function Concat(responses: seq<seq<RawTransaction>>): seq<RawTransaction> {
    if |responses| == 0 then []
    else Concat(responses[..|responses| - 1]) + responses[|responses| - 1]
  }

  function TotalEdges(responses: seq<seq<RawTransaction>>): nat {
    if |responses| == 0 then 0
    else TotalEdges(responses[..|responses| - 1]) + |responses[|responses| - 1]|
  }

  lemma {:induction false} ConcatLength(responses: seq<seq<RawTransaction>>)
    ensures |Concat(responses)| == TotalEdges(responses)
  {
    if |responses| > 0 {
      ConcatLength(responses[..|responses| - 1]);
    }
  }

  /** The sort comparator: transactions without a block first, keeping their
      order, then newer timestamps first. */
  function CompareTransactions(a: RawTransaction, b: RawTransaction): int {
    if a.block.None? || b.block.None? then
      if a.block.None? && b.block.None? then 0
      else if a.block.Some? then 1 else -1
    else b.block.value.timestamp - a.block.value.timestamp
  }

  /** Inserts `x` before the first element it does not sort after. */
  function InsertByRecency(x: RawTransaction, s: seq<RawTransaction>): (r: seq<RawTransaction>)
    ensures |r| == |s| + 1
  {
    if |s| == 0 then [x]
    else if CompareTransactions(x, s[0]) <= 0 then [x] + s
    else [s[0]] + InsertByRecency(x, s[1..])
  }

  /** The stable sort by CompareTransactions (Array.prototype.sort is stable). */
  function SortByRecency(s: seq<RawTransaction>): (r: seq<RawTransaction>)
    ensures |r| == |s|
  {
    if |s| == 0 then [] else InsertByRecency(s[0], SortByRecency(s[1..]))
  }

  /** `a` may come before `b`: a block-less `b` needs a block-less `a`, and
      of two blocks the earlier one is not older. */
  predicate Precedes(a: RawTransaction, b: RawTransaction) {
    (b.block.None? ==> a.block.None?) &&
    (a.block.Some? && b.block.Some? ==> a.block.value.timestamp >= b.block.value.timestamp)
  }

  /** Every block-less transaction precedes every transaction with a block, and
      block timestamps do not increase. */
  predicate NewestFirst(s: seq<RawTransaction>) {
    forall i, j :: 0 <= i < j < |s| ==> Precedes(s[i], s[j])
  }

  lemma PrecedesTransitive(a: RawTransaction, b: RawTransaction, c: RawTransaction)
    requires Precedes(a, b) && Precedes(b, c)
    ensures Precedes(a, c)
  {
  }

  /** The comparator agrees with Precedes. */
  lemma CompareAgrees(a: RawTransaction, b: RawTransaction)
    ensures CompareTransactions(a, b) <= 0 ==> Precedes(a, b)
    ensures CompareTransactions(a, b) > 0 ==> Precedes(b, a)
    ensures Precedes(a, b) ==> CompareTransactions(a, b) <= 0
  {
  }

  function Blockless(s: seq<RawTransaction>): seq<RawTransaction> {
    if |s| == 0 then []
    else (if s[0].block.None? then [s[0]] else []) + Blockless(s[1..])
  }

  lemma {:induction false} InsertByRecencyPermutes(x: RawTransaction, s: seq<RawTransaction>)
    ensures multiset(InsertByRecency(x, s)) == multiset(s) + multiset{x}
  {
    if |s| > 0 && CompareTransactions(x, s[0]) > 0 {
      var t := s[1..];
      var it := InsertByRecency(x, t);
      assert InsertByRecency(x, s) == [s[0]] + it;
      InsertByRecencyPermutes(x, t);
      assert s == [s[0]] + t;
      assert multiset(s) == multiset{s[0]} + multiset(t);
      assert multiset([s[0]] + it) == multiset{s[0]} + multiset(it);
    }
  }

  /** When `x` sorts after the head, the head precedes everything in the
      rest with `x` inserted. */
  lemma HeadPrecedesInsertion(x: RawTransaction, s: seq<RawTransaction>)
    requires |s| > 0 && NewestFirst(s) && CompareTransactions(x, s[0]) > 0
    ensures forall j :: 0 <= j < |InsertByRecency(x, s[1..])| ==> Precedes(s[0], InsertByRecency(x, s[1..])[j])
  {
    var t := s[1..];
    var it := InsertByRecency(x, t);
    CompareAgrees(x, s[0]);
    InsertByRecencyPermutes(x, t);
    forall j | 0 <= j < |it| ensures Precedes(s[0], it[j]) {
      assert it[j] in multiset(it);
      if it[j] != x {
        assert it[j] in multiset(t);
        var m :| 0 <= m < |t| && t[m] == it[j];
        assert s[m + 1] == t[m];
      }
    }
  }

  lemma {:induction false} InsertByRecencySorted(x: RawTransaction, s: seq<RawTransaction>)
    requires NewestFirst(s)
    ensures NewestFirst(InsertByRecency(x, s))
  {
    if |s| == 0 {
    } else if CompareTransactions(x, s[0]) <= 0 {
      CompareAgrees(x, s[0]);
      var r := [x] + s;
      assert InsertByRecency(x, s) == r;
      forall i, j | 0 <= i < j < |r| ensures Precedes(r[i], r[j]) {
        assert r[j] == s[j - 1];
        if i == 0 {
          if j > 1 { PrecedesTransitive(x, s[0], s[j - 1]); }
        } else {
          assert r[i] == s[i - 1];
        }
      }
    } else {
      var t := s[1..];
      NewestFirstTail(s);
      InsertByRecencySorted(x, t);
      HeadPrecedesInsertion(x, s);
      var it := InsertByRecency(x, t);
      var r := [s[0]] + it;
      assert InsertByRecency(x, s) == r;
      forall i, j | 0 <= i < j < |r| ensures Precedes(r[i], r[j]) {
        assert r[j] == it[j - 1];
        if i > 0 { assert r[i] == it[i - 1]; }
      }
    }
  }

  lemma NewestFirstTail(s: seq<RawTransaction>)
    requires |s| > 0 && NewestFirst(s)
    ensures NewestFirst(s[1..])
  {
    var t := s[1..];
    forall i, j | 0 <= i < j < |t| ensures Precedes(t[i], t[j]) {
      assert t[i] == s[i + 1] && t[j] == s[j + 1];
    }
  }

  lemma {:induction false} InsertByRecencyBlockless(x: RawTransaction, s: seq<RawTransaction>)
    requires NewestFirst(s)
    ensures Blockless(InsertByRecency(x, s)) == (if x.block.None? then [x] else []) + Blockless(s)
  {
    if |s| == 0 {
      assert InsertByRecency(x, s) == [x];
      assert Blockless([x]) == (if x.block.None? then [x] else []) + Blockless([x][1..]);
    } else if CompareTransactions(x, s[0]) <= 0 {
      var r := [x] + s;
      assert InsertByRecency(x, s) == r;
      assert r[1..] == s;
    } else {
      var t := s[1..];
      NewestFirstTail(s);
      InsertByRecencyBlockless(x, t);
      var it := InsertByRecency(x, t);
      var r := [s[0]] + it;
      assert InsertByRecency(x, s) == r;
      assert r[1..] == it;
      // x sorts strictly after s[0], so x has a block
      CompareAgrees(x, s[0]);
      assert x.block.Some?;
      var head := if s[0].block.None? then [s[0]] else [];
      assert Blockless(r) == head + Blockless(it);
      assert Blockless(s) == head + Blockless(t);
    }
  }

  lemma {:induction false} SortByRecencyPermutes(s: seq<RawTransaction>)
    ensures multiset(SortByRecency(s)) == multiset(s)
    ensures |SortByRecency(s)| == |s|
  {
    if |s| > 0 {
      var t := s[1..];
      var r := SortByRecency(s);
      assert r == InsertByRecency(s[0], SortByRecency(t));
      SortByRecencyPermutes(t);
      InsertByRecencyPermutes(s[0], SortByRecency(t));
      assert s == [s[0]] + t;
    }
  }

  lemma {:induction false} SortByRecencySorted(s: seq<RawTransaction>)
    ensures NewestFirst(SortByRecency(s))
  {
    if |s| > 0 {
      SortByRecencySorted(s[1..]);
      InsertByRecencySorted(s[0], SortByRecency(s[1..]));
    }
  }

  lemma {:induction false} SortByRecencyKeepsBlockless(s: seq<RawTransaction>)
    ensures Blockless(SortByRecency(s)) == Blockless(s)
  {
    if |s| > 0 {
      var t := s[1..];
      SortByRecencyKeepsBlockless(t);
      SortByRecencySorted(t);
      InsertByRecencyBlockless(s[0], SortByRecency(t));
      assert Blockless(s) == (if s[0].block.None? then [s[0]] else []) + Blockless(t);
    }
  }

  lemma SortByRecencyFacts(s: seq<RawTransaction>)
    ensures multiset(SortByRecency(s)) == multiset(s)
    ensures |SortByRecency(s)| == |s|
    ensures NewestFirst(SortByRecency(s))
    ensures Blockless(SortByRecency(s)) == Blockless(s)
  {
    SortByRecencyPermutes(s);
    SortByRecencySorted(s);
    SortByRecencyKeepsBlockless(s);
  }

  /** combineAndSortTransactions: the edges of all responses, every one kept,
      block-less ones first in their original order, then newest first. */
  method CombineAndSortTransactions(responses: seq<seq<RawTransaction>>) returns (sorted: seq<RawTransaction>)
    ensures sorted == SortByRecency(Concat(responses))
    ensures multiset(sorted) == multiset(Concat(responses))
    ensures |sorted| == TotalEdges(responses)
    ensures NewestFirst(sorted)
    ensures Blockless(sorted) == Blockless(Concat(responses))
  {
    var combined: seq<RawTransaction> := [];
    var i := 0;
    while i < |responses|
      invariant 0 <= i <= |responses|
      invariant combined == Concat(responses[..i])
    {
      assert responses[..i + 1][..i] == responses[..i];
      combined := combined + responses[i];
      i := i + 1;
    }
    assert responses[..i] == responses;
    sorted := SortByRecency(combined);
    SortByRecencyFacts(combined);
    ConcatLength(responses);
  }

  // ---------------------------------------------------------------------------
  // processTransactions

  /** `tags.find(tag => tag.name === name)` */
  function FindTag(tags: seq<Tag>, name: string): (r: Option<Tag>)
    ensures r.Some? ==> r.value in tags && r.value.name == name
    ensures r.None? <==> forall i :: 0 <= i < |tags| ==> tags[i].name != name
    ensures r.Some? ==> exists i :: 0 <= i < |tags| && tags[i] == r.value && forall k :: 0 <= k < i ==> tags[k].name != name
  {
    if |tags| == 0 then None
    else if tags[0].name == name then Some(tags[0])
    else
      var rest := FindTag(tags[1..], name);
      assert forall i :: 1 <= i < |tags| ==> tags[i] == tags[1..][i - 1];
      rest
  }

  /** Whether some tag has this name and value. */
  predicate HasTag(tags: seq<Tag>, name: string, value: string) {
    exists i :: 0 <= i < |tags| && tags[i].name == name && tags[i].value == value
  }

  /** The TypeError raised when an AO transaction has neither an Action tag nor
      a `Type=Message` tag (`aoMessageTag.value` on undefined). */
  datatype ProcessError = UndefinedTagDereference

  function Direction(tx: RawTransaction, address: string): TransactionType {
    if tx.owner == address then Sent else Received
  }

  function NonEmpty(s: string): Option<string> {
    if s == "" then None else Some(s)
  }

  /** The classification callback of processTransactions. */
  function ProcessTransaction(tx: RawTransaction, address: string): Result<EnrichedTransaction, ProcessError> {
    if tx.quantity.positive then
      Success(EnrichedTransaction(tx, Direction(tx, address), tx.quantity.ar, false, Some("AR"), false))
    else if HasTag(tx.tags, "Data-Protocol", "ao") then
      var action := FindTag(tx.tags, "Action");
      if action.Some? && action.value.value == "Transfer" then
        var recipientTag := FindTag(tx.tags, "Recipient");
        var quantityTag := FindTag(tx.tags, "Quantity");
        var tokenId := if recipientTag.Some? && tx.recipient != "" then tx.recipient else "";
        var quantity := if quantityTag.Some? then quantityTag.value.value else "0";
        Success(EnrichedTransaction(tx, Direction(tx, address), quantity, true, NonEmpty(tokenId), false))
      else if action.Some? then
        Success(EnrichedTransaction(tx, Message, "0", true, None, false))
      else if HasTag(tx.tags, "Type", "Message") then
        Success(EnrichedTransaction(tx, Message, "0", true, None, false))
      else
        Failure(UndefinedTagDereference)
    else
      var contract := FindTag(tx.tags, "Contract");
      if contract.Some? then
        Success(EnrichedTransaction(tx, Direction(tx, address), "0", false, NonEmpty(contract.value.value), true))
      else if HasTag(tx.tags, "Type", "Print-Archive") then
        Success(EnrichedTransaction(tx, PrintArchive, "0", false, None, false))
      else
        Success(EnrichedTransaction(tx, Transaction, "0", false, None, false))
  }

  /** A transfer of AR: token "AR", the AR quantity, Sent exactly when the
      owner is the address. */
  lemma ArTransferClassification(tx: RawTransaction, address: string)
    requires tx.quantity.positive
    ensures var r := ProcessTransaction(tx, address);
      r.Success? && r.value.tokenId == Some("AR") && r.value.quantity == tx.quantity.ar &&
      !r.value.isAo && !r.value.warpContract &&
      (r.value.transactionType == Sent <==> tx.owner == address) &&
      (r.value.transactionType == Received <==> tx.owner != address)
  {
  }

  /** An AO transaction (tag Data-Protocol=ao) is marked isAo; a Transfer
      action is Sent/Received with the recipient as token and the Quantity
      tag as quantity; any other action is a Message. */
  lemma AoClassification(tx: RawTransaction, address: string)
    requires !tx.quantity.positive && HasTag(tx.tags, "Data-Protocol", "ao")
    requires FindTag(tx.tags, "Action").Some?
    ensures var r := ProcessTransaction(tx, address);
      var action := FindTag(tx.tags, "Action").value.value;
      r.Success? && r.value.isAo && !r.value.warpContract &&
      (action == "Transfer" ==>
         r.value.transactionType == Direction(tx, address) &&
         (r.value.tokenId == Some(tx.recipient) <==> FindTag(tx.tags, "Recipient").Some? && tx.recipient != "") &&
         r.value.quantity == (if FindTag(tx.tags, "Quantity").Some? then FindTag(tx.tags, "Quantity").value.value else "0")) &&
      (action != "Transfer" ==> r.value.transactionType == Message && r.value.tokenId == None)
  {
  }

  /** An AO transaction without an Action tag is a Message when it has the
      tag Type=Message, and otherwise the classification throws. */
  lemma AoWithoutAction(tx: RawTransaction, address: string)
    requires !tx.quantity.positive && HasTag(tx.tags, "Data-Protocol", "ao")
    requires FindTag(tx.tags, "Action").None?
    ensures ProcessTransaction(tx, address).Failure? <==> !HasTag(tx.tags, "Type", "Message")
    ensures ProcessTransaction(tx, address).Success? ==> ProcessTransaction(tx, address).value.transactionType == Message
  {
  }

  /** Other transactions: a Contract tag makes a Warp transfer, a
      Type=Print-Archive tag a PrintArchive, anything else a plain
      Transaction of quantity "0"; none of them throws. */
  lemma NonAoClassification(tx: RawTransaction, address: string)
    requires !tx.quantity.positive && !HasTag(tx.tags, "Data-Protocol", "ao")
    ensures var r := ProcessTransaction(tx, address);
      var contract := FindTag(tx.tags, "Contract");
      r.Success? && !r.value.isAo && r.value.quantity == "0" &&
      (r.value.warpContract <==> contract.Some?) &&
      (contract.Some? ==> r.value.transactionType == Direction(tx, address) && r.value.tokenId == NonEmpty(contract.value.value)) &&
      (contract.None? && HasTag(tx.tags, "Type", "Print-Archive") ==> r.value.transactionType == PrintArchive) &&
      (contract.None? && !HasTag(tx.tags, "Type", "Print-Archive") ==> r.value.transactionType == Transaction && r.value.tokenId == None)
  {
  }

  /** Only the AO-without-Action case can throw. */
  lemma ProcessTransactionFailsOnlyForBareAo(tx: RawTransaction, address: string)
    ensures ProcessTransaction(tx, address).Failure? <==>
      !tx.quantity.positive && HasTag(tx.tags, "Data-Protocol", "ao") &&
      FindTag(tx.tags, "Action").None? && !HasTag(tx.tags, "Type", "Message")
  {
  }

  /** The classification keeps the edge it classified. */
  lemma ProcessTransactionKeepsNode(tx: RawTransaction, address: string)
    ensures ProcessTransaction(tx, address).Success? ==> ProcessTransaction(tx, address).value.node == tx
  {
  }

  /** processTransactions: the classification of every transaction, in order;
      it throws when any one classification throws. */
  function ProcessTransactions(txs: seq<RawTransaction>, address: string): (r: Result<seq<EnrichedTransaction>, ProcessError>)
    ensures r.Failure? <==> exists i :: 0 <= i < |txs| && ProcessTransaction(txs[i], address).Failure?
    ensures r.Success? ==> |r.value| == |txs|
    ensures r.Success? ==> forall i :: 0 <= i < |txs| ==>
      ProcessTransaction(txs[i], address) == Success(r.value[i]) && r.value[i].node == txs[i]
  {
    if |txs| == 0 then Success([])
    else
      match ProcessTransaction(txs[0], address)
      case Failure(e) => Failure(e)
      case Success(first) =>
        match ProcessTransactions(txs[1..], address)
        case Failure(e) =>
          assert forall i :: 0 <= i < |txs[1..]| ==> txs[1..][i] == txs[i + 1];
          Failure(e)
        case Success(rest) =>
          assert forall i :: 1 <= i < |txs| ==> txs[i] == txs[1..][i - 1];
          Success([first] + rest)
  }
}

/** The per-address subscription list (src/subscriptions/index.ts), kept in
    the extension's key-value storage under `subscriptions_<address>`. The
    date arithmetic of calculateNextPaymentDate is a parameter. */
module Subscriptions {
  import opened Wrappers

  datatype RecurringPaymentFrequency = Annually | Quarterly | Monthly | Weekly

  /** A point in time, as the JavaScript Date it stands for. */
  type Date = int

  /** The fields of SubscriptionData that the list operations read or
      write; the others travel along unchanged in `details`. */
  datatype SubscriptionData = SubscriptionData(
    arweaveAccountAddress: string,
    subscriptionStatus: string,
    recurringPaymentFrequency: RecurringPaymentFrequency,
    nextPaymentDue: Date,
    details: string)

  function StorageKey(address: string): string {
    "subscriptions_" + address
  }

  /** Index of the first subscription with the given account address, -1
      when there is none (`findIndex`). */
  function FirstIndex(subs: seq<SubscriptionData>, id: string): (i: int)
    ensures -1 <= i < |subs|
    ensures i == -1 <==> forall k :: 0 <= k < |subs| ==> subs[k].arweaveAccountAddress != id
    ensures i >= 0 ==> subs[i].arweaveAccountAddress == id && forall k :: 0 <= k < i ==> subs[k].arweaveAccountAddress != id
  {
    if |subs| == 0 then -1
    else if subs[0].arweaveAccountAddress == id then 0
    else
      var i := FirstIndex(subs[1..], id);
      if i == -1 then -1 else i + 1
  }

  /** Number of subscriptions with the given account address. */
  function MatchCount(subs: seq<SubscriptionData>, id: string): nat {
    if |subs| == 0 then 0
    else (if subs[0].arweaveAccountAddress == id then 1 else 0) + MatchCount(subs[1..], id)
  }

  /** The list without its first match, the others in their order. */
  function RemoveFirst(subs: seq<SubscriptionData>, id: string): seq<SubscriptionData> {
    if |subs| == 0 then []
    else if subs[0].arweaveAccountAddress == id then subs[1..]
    else [subs[0]] + RemoveFirst(subs[1..], id)
  }

  /** RemoveFirst is `splice(findIndex(...), 1)`: with no match the list
      itself, otherwise the list with exactly the entry at the first match's
      index cut out. */
  lemma {:induction false} RemoveFirstSplices(subs: seq<SubscriptionData>, id: string)
    ensures FirstIndex(subs, id) == -1 ==> RemoveFirst(subs, id) == subs
    ensures FirstIndex(subs, id) >= 0 ==>
      RemoveFirst(subs, id) == subs[..FirstIndex(subs, id)] + subs[FirstIndex(subs, id) + 1..]
  {
    if |subs| > 0 {
      if subs[0].arweaveAccountAddress == id {
        assert subs[..0] + subs[1..] == subs[1..];
      } else {
        RemoveFirstSplices(subs[1..], id);
        SpliceCons(subs, FirstIndex(subs[1..], id));
      }
    }
  }

  /** Putting an element back in front of a list with its j-th entry cut
      out is the longer list with its (j+1)-th entry cut out. */
  lemma SpliceCons<T>(s: seq<T>, j: int)
    requires -1 <= j < |s| - 1
    ensures j == -1 ==> [s[0]] + s[1..] == s
    ensures j >= 0 ==> [s[0]] + (s[1..][..j] + s[1..][j + 1..]) == s[..j + 1] + s[j + 2..]
  {
    if j >= 0 {
      var a, b := s[1..][..j], s[1..][j + 1..];
      assert s[..j + 1] == [s[0]] + a;
      assert s[j + 2..] == b;
      assert [s[0]] + (a + b) == ([s[0]] + a) + b;
    }
  }

  lemma {:induction false} RemoveFirstMatchCount(subs: seq<SubscriptionData>, id: string)
    requires FirstIndex(subs, id) >= 0
    ensures MatchCount(RemoveFirst(subs, id), id) == MatchCount(subs, id) - 1
  {
    var t := subs[1..];
    if subs[0].arweaveAccountAddress != id {
      RemoveFirstMatchCount(t, id);
      var r := RemoveFirst(subs, id);
      assert r == [subs[0]] + RemoveFirst(t, id);
      assert r[1..] == RemoveFirst(t, id);
    }
  }

  /** Removing the first match takes away exactly one entry with that
      address, and nothing else. */
  lemma {:induction false} RemoveFirstCounts(subs: seq<SubscriptionData>, id: string)
    requires FirstIndex(subs, id) >= 0
    ensures |RemoveFirst(subs, id)| == |subs| - 1
    ensures MatchCount(RemoveFirst(subs, id), id) == MatchCount(subs, id) - 1
    ensures multiset(RemoveFirst(subs, id)) + multiset{subs[FirstIndex(subs, id)]} == multiset(subs)
  {
    var i := FirstIndex(subs, id);
    RemoveFirstSplices(subs, id);
    assert subs == subs[..i] + [subs[i]] + subs[i + 1..];
    RemoveFirstMatchCount(subs, id);
  }

  /** The list with its first match given the new status and, when a date
      is supplied, the next payment date computed from it; all other
      entries and fields unchanged. */
  function UpdateFirst(subs: seq<SubscriptionData>, id: string, newStatus: string, nextPaymentDue: Option<Date>,
                       calculateNext: (Date, RecurringPaymentFrequency) -> Date): (r: seq<SubscriptionData>)
    ensures |r| == |subs|
    ensures FirstIndex(subs, id) == -1 ==> r == subs
    ensures forall k :: 0 <= k < |subs| && k != FirstIndex(subs, id) ==> r[k] == subs[k]
    ensures FirstIndex(subs, id) >= 0 ==>
      var old_ := subs[FirstIndex(subs, id)];
      var new_ := r[FirstIndex(subs, id)];
      new_.subscriptionStatus == newStatus &&
      new_.arweaveAccountAddress == old_.arweaveAccountAddress &&
      new_.recurringPaymentFrequency == old_.recurringPaymentFrequency &&
      new_.details == old_.details &&
      new_.nextPaymentDue == (if nextPaymentDue.Some? then calculateNext(nextPaymentDue.value, old_.recurringPaymentFrequency)
                              else old_.nextPaymentDue)
  {
    if |subs| == 0 then []
    else if subs[0].arweaveAccountAddress == id then
      var s := subs[0];
      var due := if nextPaymentDue.Some? then calculateNext(nextPaymentDue.value, s.recurringPaymentFrequency) else s.nextPaymentDue;
      [s.(subscriptionStatus := newStatus, nextPaymentDue := due)] + subs[1..]
    else
      [subs[0]] + UpdateFirst(subs[1..], id, newStatus, nextPaymentDue, calculateNext)
  }

  /** findIndex as the loop it performs. */
  method FindIndex(subs: seq<SubscriptionData>, id: string) returns (i: int)
    ensures i == FirstIndex(subs, id)
  {
    i := 0;
    while i < |subs|
      invariant 0 <= i <= |subs|
      invariant forall k :: 0 <= k < i ==> subs[k].arweaveAccountAddress != id
    {
      if subs[i].arweaveAccountAddress == id {
        return;
      }
      i := i + 1;
    }
    i := -1;
  }

  /** The extension storage, as far as subscription lists go. */
  class SubscriptionStore {
    var store: map<string, seq<SubscriptionData>>

    constructor (store: map<string, seq<SubscriptionData>>)
      ensures this.store == store
    {
      this.store := store;
    }

    /** What getSubscriptionData returns; `readFails` says whether the
        storage read throws. */
    function Stored(address: string, readFails: bool): (subs: seq<SubscriptionData>)
      reads this
      ensures readFails || StorageKey(address) !in store ==> subs == []
      ensures !readFails && StorageKey(address) in store ==> subs == store[StorageKey(address)]
    {
      if !readFails && StorageKey(address) in store then store[StorageKey(address)] else []
    }

    method GetSubscriptionData(address: string, readFails: bool) returns (subs: seq<SubscriptionData>)
      ensures subs == Stored(address, readFails)
    {
      subs := Stored(address, readFails);
    }

    /** deleteSubscription: drops the first subscription with the id and
        writes the list back; with no match nothing is written. */
    method DeleteSubscription(address: string, deleteId: string, readFails: bool)
      modifies this`store
      ensures var subs := old(Stored(address, readFails));
        store == if FirstIndex(subs, deleteId) == -1 then old(store)
                 else old(store)[StorageKey(address) := RemoveFirst(subs, deleteId)]
    {
      var subs := GetSubscriptionData(address, readFails);
      var index := FindIndex(subs, deleteId);
      RemoveFirstSplices(subs, deleteId);
      if index != -1 {
        subs := subs[..index] + subs[index + 1..];
        store := store[StorageKey(address) := subs];
      }
    }

    /** updateSubscription: sets the first match's status and, when a date
        is given, its next payment date; with no match nothing is written. */
    method UpdateSubscription(address: string, updateId: string, newStatus: string, nextPaymentDue: Option<Date>,
                              calculateNext: (Date, RecurringPaymentFrequency) -> Date, readFails: bool)
      modifies this`store
      ensures var subs := old(Stored(address, readFails));
        store == if FirstIndex(subs, updateId) == -1 then old(store)
                 else old(store)[StorageKey(address) := UpdateFirst(subs, updateId, newStatus, nextPaymentDue, calculateNext)]
    {
      var subs := GetSubscriptionData(address, readFails);
      var index := FindIndex(subs, updateId);
      if index != -1 {
        var s := subs[index];
        if nextPaymentDue.Some? {
          s := s.(nextPaymentDue := calculateNext(nextPaymentDue.value, s.recurringPaymentFrequency));
        }
        s := s.(subscriptionStatus := newStatus);
        subs := subs[index := s];
        assert subs == UpdateFirst(old(Stored(address, readFails)), updateId, newStatus, nextPaymentDue, calculateNext);
        store := store[StorageKey(address) := subs];
      }
    }

    /** addSubscription: appends the subscription to the list read (an
        empty one when the read fails) and writes it back. */
    method AddSubscription(address: string, newSubscription: SubscriptionData, readFails: bool)
      modifies this`store
      ensures store == old(store)[StorageKey(address) := old(Stored(address, readFails)) + [newSubscription]]
      ensures |store[StorageKey(address)]| == |old(Stored(address, readFails))| + 1
    {
      var subs := GetSubscriptionData(address, readFails);
      subs := subs + [newSubscription];
      store := store[StorageKey(address) := subs];
    }
  }

  /** Adding a subscription and deleting it again by its address restores a
      list in which that address did not occur. */
  lemma {:induction false} AddThenDelete(subs: seq<SubscriptionData>, s: SubscriptionData)
    requires FirstIndex(subs, s.arweaveAccountAddress) == -1
    ensures RemoveFirst(subs + [s], s.arweaveAccountAddress) == subs
  {
    var t := subs + [s];
    assert FirstIndex(t, s.arweaveAccountAddress) == |subs| by {
      assert t[|subs|] == s;
      assert forall k :: 0 <= k < |subs| ==> t[k] == subs[k];
    }
    RemoveFirstSplices(t, s.arweaveAccountAddress);
    assert t[..|subs|] == subs;
  }

  /** Updating twice with the same arguments is the same as once when no
      date is given. */
  lemma UpdateStatusIdempotent(subs: seq<SubscriptionData>, id: string, newStatus: string,
                               calculateNext: (Date, RecurringPaymentFrequency) -> Date)
    ensures var once := UpdateFirst(subs, id, newStatus, None, calculateNext);
      UpdateFirst(once, id, newStatus, None, calculateNext) == once
  {
    var once := UpdateFirst(subs, id, newStatus, None, calculateNext);
    var twice := UpdateFirst(once, id, newStatus, None, calculateNext);
    assert FirstIndex(once, id) == FirstIndex(subs, id) by {
      if FirstIndex(subs, id) >= 0 {
        assert once[FirstIndex(subs, id)].arweaveAccountAddress == id;
      }
    }
    assert forall k :: 0 <= k < |once| ==> twice[k] == once[k];
  }
}

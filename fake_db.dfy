/** The in-memory stand-in for the wallet backend
    (src/utils/authentication/fakeDB.ts): a current session and two
    append-only tables, wallets and key shares. Fresh ids (nanoid), the
    clock (Date.now) and the simulated delays are not modelled as effects:
    ids and times are parameters. */
module FakeDb {
  import opened Wrappers

  datatype AuthMethod = Passkey | EmailPassword | Google

  /** DbAuthenticateData */
  datatype Session = Session(userId: string, authMethod: AuthMethod)

  datatype WalletSource = WalletSource(sourceType: string, from: string)

  datatype WalletInfo = WalletInfo(identifierType: string, alias: string)   // ans and pns are null

  datatype DbWallet = DbWallet(
    id: string,
    userId: string,
    chain: string,
    address: string,
    publicKey: string,
    walletType: string,
    info: WalletInfo,
    source: WalletSource,
    lastUsed: int,
    status: string)

  datatype DbKeyShare = DbKeyShare(
    id: string,
    userId: string,
    walletId: string,
    walletAddress: string,
    createdAt: int,
    deviceNonceRotatedAt: int,
    sharesRotatedAt: int,
    lastRequestedAt: int,
    usagesAfterExpiration: int,
    deviceNonce: string,
    authShare: string,
    deviceSharePublicKey: string,
    recoveryAuthShare: string,
    recoveryBackupSharePublicKey: string,
    recoveryDeviceSharePublicKey: string)

  /** The fields of CreateWalletParams that addWallet reads. */
  datatype CreateWalletParams = CreateWalletParams(
    publicKey: string, source: WalletSource, deviceNonce: string, authShare: string, deviceSharePublicKey: string)

  /** getKeyShareForDevice's result. */
  datatype ShareForDevice = ShareForDevice(authShare: string, rotateChallenge: bool)

  /** The TypeErrors thrown: reading `userId` of a null session, or
      `authShare` of the share that was not found. */
  datatype DbError = NoSession | NoKeyShare

  /** The wallet addWallet creates. */
  function NewWallet(params: CreateWalletParams, walletId: string, userId: string, now: int): (w: DbWallet)
    ensures w.id == walletId && w.userId == userId && w.address == ""
    ensures w.chain == "arweave" && w.walletType == "public" && w.status == "enabled"
    ensures w.info == WalletInfo("alias", "") && w.publicKey == params.publicKey && w.source == params.source
  {
    DbWallet(walletId, userId, "arweave", "", params.publicKey, "public", WalletInfo("alias", ""), params.source, now, "enabled")
  }

  /** The key share addWallet creates next to it. */
  function NewKeyShare(params: CreateWalletParams, shareId: string, walletId: string, userId: string, now: int): (k: DbKeyShare)
    ensures k.id == shareId && k.userId == userId && k.walletId == walletId && k.walletAddress == ""
    ensures k.usagesAfterExpiration == 0
    ensures k.recoveryAuthShare == "" && k.recoveryBackupSharePublicKey == "" && k.recoveryDeviceSharePublicKey == ""
    ensures k.deviceNonce == params.deviceNonce && k.authShare == params.authShare
    ensures k.deviceSharePublicKey == params.deviceSharePublicKey
  {
    DbKeyShare(shareId, userId, walletId, "", now, now, now, now, 0,
               params.deviceNonce, params.authShare, params.deviceSharePublicKey, "", "", "")
  }

  predicate ShareMatches(k: DbKeyShare, userId: string, deviceNonce: string, walletAddress: string) {
    k.userId == userId && k.deviceNonce == deviceNonce && k.walletAddress == walletAddress
  }

  /** The index of the first share matching user, device nonce and wallet
      address (`find`). */
  function FindShare(shares: seq<DbKeyShare>, userId: string, deviceNonce: string, walletAddress: string): (r: Option<nat>)
    ensures r.None? <==> forall k :: 0 <= k < |shares| ==> !ShareMatches(shares[k], userId, deviceNonce, walletAddress)
    ensures r.Some? ==> r.value < |shares| && ShareMatches(shares[r.value], userId, deviceNonce, walletAddress)
    ensures r.Some? ==> forall k :: 0 <= k < r.value ==> !ShareMatches(shares[k], userId, deviceNonce, walletAddress)
  {
    if |shares| == 0 then None
    else if ShareMatches(shares[0], userId, deviceNonce, walletAddress) then Some(0)
    else match FindShare(shares[1..], userId, deviceNonce, walletAddress)
      case None => None
      case Some(i) => Some(i + 1)
  }

  /** Every key share belongs to a wallet of the same user. */
  predicate SharesBelongToWallets(wallets: seq<DbWallet>, shares: seq<DbKeyShare>) {
    forall k :: 0 <= k < |shares| ==>
      exists w :: 0 <= w < |wallets| && wallets[w].id == shares[k].walletId && wallets[w].userId == shares[k].userId
  }

  /** Appending a wallet together with a share of it keeps every share
      attached to a wallet of its user. */
  lemma AddingWalletWithShare(wallets: seq<DbWallet>, shares: seq<DbKeyShare>, w: DbWallet, k: DbKeyShare)
    requires SharesBelongToWallets(wallets, shares)
    requires k.walletId == w.id && k.userId == w.userId
    ensures SharesBelongToWallets(wallets + [w], shares + [k])
  {
    var ws := wallets + [w];
    var ks := shares + [k];
    forall j | 0 <= j < |ks|
      ensures exists v :: 0 <= v < |ws| && ws[v].id == ks[j].walletId && ws[v].userId == ks[j].userId
    {
      if j == |shares| {
        assert ws[|wallets|] == w;
      } else {
        assert ks[j] == shares[j];
        var v :| 0 <= v < |wallets| && wallets[v].id == shares[j].walletId && wallets[v].userId == shares[j].userId;
        assert ws[v] == wallets[v];
      }
    }
    assert forall j :: 0 <= j < |ks| ==> exists v :: 0 <= v < |ws| && ws[v].id == ks[j].walletId && ws[v].userId == ks[j].userId;
    assert SharesBelongToWallets(ws, ks);
  }

  class FakeDB {
    var session: Option<Session>        // currentSession, None for null
    var wallets: seq<DbWallet>
    var keyShares: seq<DbKeyShare>

    ghost predicate Valid()
      reads this
    {
      SharesBelongToWallets(wallets, keyShares)
    }

    /** The module's initial state: no session and empty tables. */
    constructor ()
      ensures session.None? && wallets == [] && keyShares == []
      ensures Valid()
    {
      session := None;
      wallets := [];
      keyShares := [];
    }

    /** addWallet: with a session, appends one wallet and one key share
        that points to it, both owned by the session's user; without one it
        throws before changing anything. */
    method AddWallet(params: CreateWalletParams, walletId: string, shareId: string, now: int)
      returns (r: Result<DbWallet, DbError>)
      requires Valid()
      modifies this`wallets, this`keyShares
      ensures Valid()
      ensures old(session).None? ==> r == Failure(NoSession) && wallets == old(wallets) && keyShares == old(keyShares)
      ensures old(session).Some? ==>
        var userId := old(session).value.userId;
        r == Success(NewWallet(params, walletId, userId, now)) &&
        wallets == old(wallets) + [NewWallet(params, walletId, userId, now)] &&
        keyShares == old(keyShares) + [NewKeyShare(params, shareId, walletId, userId, now)]
    {
      if session.None? {
        return Failure(NoSession);
      }
      var userId := session.value.userId;
      var wallet := NewWallet(params, walletId, userId, now);
      wallets := wallets + [wallet];
      keyShares := keyShares + [NewKeyShare(params, shareId, walletId, userId, now)];
      AddingWalletWithShare(old(wallets), old(keyShares), wallet, NewKeyShare(params, shareId, walletId, userId, now));
      return Success(wallet);
    }

    /** getKeyShareForDevice: the auth share of the first key share of the
        session's user for that device and wallet, never asking for a
        rotation; it fails without a session or without such a share. */
    method GetKeyShareForDevice(deviceNonce: string, walletAddress: string) returns (r: Result<ShareForDevice, DbError>)
      ensures session.None? ==> r.Failure?
      ensures session.Some? ==>
        match FindShare(keyShares, session.value.userId, deviceNonce, walletAddress)
        case None => r == Failure(NoKeyShare)
        case Some(i) => r == Success(ShareForDevice(keyShares[i].authShare, false))
    {
      if |keyShares| == 0 {
        return Failure(NoKeyShare);
      }
      if session.None? {
        return Failure(NoSession);
      }
      var userId := session.value.userId;
      var i := 0;
      while i < |keyShares|
        invariant 0 <= i <= |keyShares|
        invariant forall k :: 0 <= k < i ==> !ShareMatches(keyShares[k], userId, deviceNonce, walletAddress)
      {
        if ShareMatches(keyShares[i], userId, deviceNonce, walletAddress) {
          return Success(ShareForDevice(keyShares[i].authShare, false));
        }
        i := i + 1;
      }
      return Failure(NoKeyShare);
    }

    /** authenticate: a new session for a fresh user id. */
    method Authenticate(authMethod: AuthMethod, freshUserId: string) returns (s: Session)
      modifies this`session
      ensures s == Session(freshUserId, authMethod) && session == Some(s)
    {
      s := Session(freshUserId, authMethod);
      session := Some(s);
    }

    /** refreshSession: the current session, unchanged (null when none). */
    method RefreshSession() returns (s: Option<Session>)
      ensures s == session
    {
      s := session;
    }
  }

  /** A wallet added with a session can then be looked up by its share:
      the lookup for the new share's device and address (the empty address)
      finds a share of that user, and finds the new one when the user had
      no earlier share for that device. */
  lemma {:induction false} AddedShareIsFound(shares: seq<DbKeyShare>, params: CreateWalletParams,
                                             shareId: string, walletId: string, userId: string, now: int)
    requires FindShare(shares, userId, params.deviceNonce, "").None?
    ensures var all := shares + [NewKeyShare(params, shareId, walletId, userId, now)];
      FindShare(all, userId, params.deviceNonce, "") == Some(|shares|)
  {
    var all := shares + [NewKeyShare(params, shareId, walletId, userId, now)];
    assert forall k :: 0 <= k < |shares| ==> all[k] == shares[k];
    assert ShareMatches(all[|shares|], userId, params.deviceNonce, "");
  }
}

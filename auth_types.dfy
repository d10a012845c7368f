/** The types of the authorization protocol (src/utils/auth/auth.types.ts)
    and the AuthResult message shape (shim.d.ts). */
module AuthTypes {
  import opened Wrappers
  import opened JsValues

  /** The five states of a queued authorization request. */
  datatype AuthRequestStatus = Pending | Accepted | Rejected | Aborted | Error

  function StatusName(s: AuthRequestStatus): string {
    match s
    case Pending => "pending"
    case Accepted => "accepted"
    case Rejected => "rejected"
    case Aborted => "aborted"
    case Error => "error"
  }

  function ParseStatus(x: string): Option<AuthRequestStatus> {
    if x == "pending" then Some(Pending)
    else if x == "accepted" then Some(Accepted)
    else if x == "rejected" then Some(Rejected)
    else if x == "aborted" then Some(Aborted)
    else if x == "error" then Some(Error)
    else None
  }

  /** The status strings are exactly the five names: every status parses back
      from its name, and only those names parse. */
  lemma StatusNames(s: AuthRequestStatus, x: string)
    ensures ParseStatus(StatusName(s)) == Some(s)
    ensures ParseStatus(x).Some? ==> StatusName(ParseStatus(x).value) == x
  {
  }

  /** Every status but `pending` is terminal. */
  predicate IsTerminal(s: AuthRequestStatus) {
    s != Pending
  }

  /** The discriminants of AuthRequestData (AuthType). */
  datatype AuthType =
    | Connect | Allowance | Token | Sign | Subscription
    | SignKeystone | Signature | SignDataItem | BatchSignDataItem

  function TypeName(t: AuthType): string {
    match t
    case Connect => "connect"
    case Allowance => "allowance"
    case Token => "token"
    case Sign => "sign"
    case Subscription => "subscription"
    case SignKeystone => "signKeystone"
    case Signature => "signature"
    case SignDataItem => "signDataItem"
    case BatchSignDataItem => "batchSignDataItem"
  }

  function ParseAuthType(x: string): Option<AuthType> {
    if x == "connect" then Some(Connect)
    else if x == "allowance" then Some(Allowance)
    else if x == "token" then Some(Token)
    else if x == "sign" then Some(Sign)
    else if x == "subscription" then Some(Subscription)
    else if x == "signKeystone" then Some(SignKeystone)
    else if x == "signature" then Some(Signature)
    else if x == "signDataItem" then Some(SignDataItem)
    else if x == "batchSignDataItem" then Some(BatchSignDataItem)
    else None
  }

  /** AuthType is exactly the nine discriminant strings, and "unlock" is not
      one of them. */
  lemma AuthTypeNames(t: AuthType, x: string)
    ensures ParseAuthType(TypeName(t)) == Some(t)
    ensures ParseAuthType(x).Some? ==> TypeName(ParseAuthType(x).value) == x
    ensures ParseAuthType("unlock") == None && TypeName(t) != "unlock"
  {
  }

  datatype TokenType = Asset | Collectible

  /** The payload variants of AuthRequestData; payload fields whose shape lives
      in files outside this model (AppInfo, SplitTransaction, RawDataItem,
      SubscriptionData) are kept as opaque strings. */
  datatype AuthRequestData =
    | ConnectRequest(permissions: seq<string>, appInfo: string, gateway: Option<string>)
    | AllowanceRequest(spendingLimitReached: bool)
    | TokenRequest(tokenID: string, tokenType: Option<TokenType>, dre: Option<string>)
    | SignRequest(address: string, transaction: string, signCollectionID: string)
    | SubscriptionRequest(subscription: string)
    | SignKeystoneRequest(keystoneCollectionID: string, keystoneSignType: string)
    | SignatureRequest(message: seq<int>)
    | SignDataItemRequest(dataItem: string)
    | BatchSignDataItemRequest(dataItems: string)

  /** The `type` discriminant of a payload. */
  function TypeOf(d: AuthRequestData): AuthType {
    match d
    case ConnectRequest(_, _, _) => Connect
    case AllowanceRequest(_) => Allowance
    case TokenRequest(_, _, _) => Token
    case SignRequest(_, _, _) => Sign
    case SubscriptionRequest(_) => Subscription
    case SignKeystoneRequest(_, _) => SignKeystone
    case SignatureRequest(_) => Signature
    case SignDataItemRequest(_) => SignDataItem
    case BatchSignDataItemRequest(_) => BatchSignDataItem
  }

  /** AuthRequestByType: the request variant listed under each type key. */
  predicate IsRequestOfType(t: AuthType, d: AuthRequestData) {
    match t
    case Connect => d.ConnectRequest?
    case Allowance => d.AllowanceRequest?
    case Token => d.TokenRequest?
    case Sign => d.SignRequest?
    case Subscription => d.SubscriptionRequest?
    case SignKeystone => d.SignKeystoneRequest?
    case Signature => d.SignatureRequest?
    case SignDataItem => d.SignDataItemRequest?
    case BatchSignDataItem => d.BatchSignDataItemRequest?
  }

  /** Each type key of AuthRequestByType selects exactly the variants whose
      discriminant is that type. */
  lemma AuthRequestByTypeAgrees(t: AuthType, d: AuthRequestData)
    ensures IsRequestOfType(t, d) <==> TypeOf(d) == t
  {
  }

  /** The `auth_result` message (AuthResult in shim.d.ts). `error` is optional
      there; every result this model builds sets it. */
  datatype AuthResult = AuthResult(resultType: string, authID: string, error: bool, data: JsValue)

  /** The result as the plain object that travels over the message bus. */
  function ResultObject(r: AuthResult): (o: map<string, JsValue>)
    ensures Field(o, "type") == Str(r.resultType) && Field(o, "authID") == Str(r.authID)
    ensures Field(o, "error") == Bool(r.error) && Field(o, "data") == r.data
  {
    map["type" := Str(r.resultType), "authID" := Str(r.authID),
        "error" := Bool(r.error), "data" := r.data]
  }

  /** isAuthErrorResult: true exactly when `type`, `authID` and `error` are
      all non-empty strings. */
  predicate IsAuthErrorResult(data: map<string, JsValue>)
    ensures IsAuthErrorResult(data) <==>
      IsNonEmptyString(Field(data, "type")) &&
      IsNonEmptyString(Field(data, "authID")) &&
      IsNonEmptyString(Field(data, "error"))
  {
    var t, id, e := Field(data, "type"), Field(data, "authID"), Field(data, "error");
    Truthy(t) && Truthy(id) && Truthy(e) && t.Str? && id.Str? && e.Str?
  }

  /** A result whose `error` is the boolean `true` is not an error result for
      this predicate. */
  lemma BooleanErrorIsNotErrorResult(data: map<string, JsValue>)
    requires Field(data, "error") == Bool(true)
    ensures !IsAuthErrorResult(data)
  {
  }
}

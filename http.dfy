/**
 * The request and response shapes shared by the middleware, the
 * controllers and the routes: the identity attached as `req.user`, the
 * JSON bodies the API reads, and every reply as a status with a payload.
 */
module Http {
  import opened Wrappers
  import opened Schema

  /** `req.user` after a verified token: the four claims copied from its payload. */
  datatype Identity = Identity(id: UserId, role: string, branch: string, email: string)

  /** The JSON body of a stock request; an absent field is None. */
  datatype StockBody = StockBody(itemName: Option<string>, quantity: Option<int>, location: Option<string>)

  /** The user fields a response shows: never the password hash. */
  datatype PublicUser = PublicUser(id: UserId, name: string, email: string, role: string,
                                   branch: string, version: nat)

  function Public(u: User): (p: PublicUser)
    ensures p.id == u.id && p.name == u.name && p.email == u.email
    ensures p.role == u.role && p.branch == u.branch && p.version == u.version
  {
    PublicUser(u.id, u.name, u.email, u.role, u.branch, u.version)
  }

  /** The JSON payload of a response. */
  datatype Payload =
    | Message(msg: string)
    | StockList(stocks: map<StockId, Stock>)
    | StockMessage(msg: string, id: StockId, stock: Stock)
    | UserMessage(msg: string, user: PublicUser)
    | LoginMessage(msg: string, token: string, user: PublicUser)

  datatype Response = Response(status: int, payload: Payload)

  /** The message of a failure that a library throws and the handler turns into a 500 (`err.message`). */
  const ValidationFailed := "validation failed"
}

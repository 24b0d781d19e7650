/**
 * The stock router: each verb runs a chain of gates and, when every gate
 * passes, the handler of that verb with the identity the gates attached.
 */
module StockRoutes {
  import opened Wrappers
  import opened Schema
  import opened Http
  import opened Crypto
  import opened Middleware
  import opened StockController
  import Js

  datatype Verb = Get | Post | Put | Delete

  datatype Gate = Token | Admin | AdminOrSameBranch

  /** A request to the stock router; `id` is the `:id` path parameter of PUT and DELETE. */
  datatype Request = Request(verb: Verb, authorization: Option<string>, id: StockId, body: StockBody)

  /** The gates each verb passes through before its handler. */
  function Chain(verb: Verb): (r: seq<Gate>)
    ensures |r| >= 1 && r[0] == Token
    ensures verb == Get <==> |r| == 1
    ensures |r| <= 2
    ensures |r| == 2 ==> r[1] == if verb == Put then AdminOrSameBranch else Admin
  {
    match verb
    case Get => [Token]
    case Post => [Token, Admin]
    case Put => [Token, AdminOrSameBranch]
    case Delete => [Token, Admin]
  }

  /** One gate, given the identity attached so far. */
  function RunGate(g: Gate, user: Option<Identity>, req: Request, decode: Decoder, now: int): GateResult {
    match g
    case Token => VerifyToken(req.authorization, decode, now)
    case Admin => VerifyAdmin(user)
    case AdminOrSameBranch => VerifyAdminOrSameBranch(user, req.body)
  }

  /** Where a chain ends: at the handler with `req.user`, or at the response of the gate that stopped it. */
  datatype Outcome = Reached(user: Option<Identity>) | Stopped(response: Response)

  /** Run the gates in order; the first failure answers the request. */
  function RunGates(gates: seq<Gate>, user: Option<Identity>, req: Request, decode: Decoder, now: int): (r: Outcome)
    ensures gates == [] ==> r == Reached(user)
    ensures r.Reached? && gates != [] ==> r.user.Some?
    ensures r.Stopped? ==> gates != [] && (r.response.status == 401 || r.response.status == 403)
  {
    if gates == [] then Reached(user)
    else match RunGate(gates[0], user, req, decode, now)
      case Fail(resp) => Stopped(resp)
      case Pass(u) => RunGates(gates[1..], Some(u), req, decode, now)
  }

  /** Whether a verb's second gate lets an authenticated identity through. */
  predicate Permitted(verb: Verb, user: Identity, body: StockBody) {
    match verb
    case Get => true
    case Post => user.role == AdminRole
    case Put => user.role == AdminRole || (Js.Truthy(body.location) && body.location.value == user.branch)
    case Delete => user.role == AdminRole
  }

  /** The response of a second gate that refuses an authenticated identity. */
  function Refusal(verb: Verb): Response {
    if verb == Put then WrongBranch else AdminsOnly
  }

  /** Every chain starts with the token gate: a failed token answers for every verb; otherwise the verb's own gate decides, and a reached handler always has the token's identity. */
  lemma ChainOutcome(req: Request, decode: Decoder, now: int)
    ensures var c := VerifyToken(req.authorization, decode, now);
            var o := RunGates(Chain(req.verb), None, req, decode, now);
            && (c.Fail? ==> o == Stopped(c.response))
            && (c.Pass? && Permitted(req.verb, c.user, req.body) ==> o == Reached(Some(c.user)))
            && (c.Pass? && !Permitted(req.verb, c.user, req.body) ==> o == Stopped(Refusal(req.verb)))
  {
    var c := VerifyToken(req.authorization, decode, now);
    var gates := Chain(req.verb);
    if c.Pass? && req.verb != Get {
      var second := RunGate(gates[1], Some(c.user), req, decode, now);
      assert gates[1..][1..] == [];
      assert RunGates(gates, None, req, decode, now) == RunGates(gates[1..], Some(c.user), req, decode, now);
      if second.Pass? {
        assert RunGates(gates[1..], Some(c.user), req, decode, now) == Reached(Some(second.user));
      }
    }
  }

  /** A request without a token, or with a malformed one, is answered 401 whatever its verb. */
  lemma MissingTokenIs401(req: Request, decode: Decoder, now: int)
    requires !Js.Truthy(req.authorization) || BearerToken(req.authorization.value).None?
    ensures RunGates(Chain(req.verb), None, req, decode, now).Stopped?
    ensures RunGates(Chain(req.verb), None, req, decode, now).response.status == 401
  {
    ChainOutcome(req, decode, now);
  }

  /** The route handler: run the verb's chain, then its handler on the stock collection. */
  method Route(db: StockCollection, req: Request, decode: Decoder, now: int) returns (r: Response)
    requires db.Valid()
    modifies db
    ensures db.Valid()
    ensures var c := VerifyToken(req.authorization, decode, now);
            && (c.Fail? ==> r == c.response && db.records == old(db.records))
            && (c.Pass? && !Permitted(req.verb, c.user, req.body) ==>
                  r == Refusal(req.verb) && db.records == old(db.records))
            && (c.Pass? && req.verb == Get ==> r == old(GetStocks(db, c.user)) && db.records == old(db.records))
    // Only the addressed record can change, and only POST adds one, in the caller's branch.
    ensures forall k :: k in old(db.records) && k != req.id ==> k in db.records && db.records[k] == old(db.records)[k]
    ensures forall k :: k in db.records && k !in old(db.records) ==>
              && req.verb == Post && k == old(db.nextId)
              && db.records[k].location == VerifyToken(req.authorization, decode, now).user.branch
    ensures req.verb != Post ==> db.records.Keys <= old(db.records).Keys
    // A non-admin PUT never succeeds and changes nothing.
    ensures var c := VerifyToken(req.authorization, decode, now);
            c.Pass? && c.user.role != AdminRole && req.verb == Put ==>
              && r.status != 200 && db.records == old(db.records)
              && (r.status == 403 || (r == NotFound && req.id !in old(db.records)))
    // DELETE is for admins only, and an admin deletes only in their own branch.
    ensures var c := VerifyToken(req.authorization, decode, now);
            c.Pass? && req.verb == Delete ==>
              && (c.user.role != AdminRole ==> r == AdminsOnly && db.records == old(db.records))
              && (c.user.role == AdminRole && req.id in old(db.records)
                  && old(db.records)[req.id].location == c.user.branch ==>
                    r == Deleted && db.records == old(db.records) - {req.id})
              && (c.user.role == AdminRole
                  && !(req.id in old(db.records) && old(db.records)[req.id].location == c.user.branch) ==>
                    r == NotInBranch && db.records == old(db.records))
  {
    ChainOutcome(req, decode, now);
    var outcome := RunGates(Chain(req.verb), None, req, decode, now);
    if outcome.Stopped? {
      return outcome.response;
    }
    var user := outcome.user.value;
    match req.verb
    case Get =>
      r := GetStocks(db, user);
    case Post =>
      r := AddStock(db, user, req.body, now);
    case Put =>
      r := UpdateStock(db, req.id, user, req.body);
    case Delete =>
      r := DeleteStock(db, req.id, user);
  }

  // ---------------------------------------------------------------------
  // PUT for a user of the record's own branch
  // ---------------------------------------------------------------------

  /** As written, a non-admin PUT without a body location is stopped by the branch gate; one with a location passes the gate only to be refused by the handler (see `Route`). */
  lemma NonAdminUpdateRefused(req: Request, decode: Decoder, now: int)
    requires req.verb == Put
    requires VerifyToken(req.authorization, decode, now).Pass?
    requires VerifyToken(req.authorization, decode, now).user.role != AdminRole
    requires !Js.Truthy(req.body.location)
    ensures RunGates(Chain(Put), None, req, decode, now) == Stopped(WrongBranch)
  {
    ChainOutcome(req, decode, now);
  }

  /** The evidently intended PUT chain: the token gate only, leaving the branch check to the handler, which compares against the stored record. */
  function IntendedChain(verb: Verb): (r: seq<Gate>)
    ensures |r| >= 1 && r[0] == Token
    ensures AdminOrSameBranch !in r
    ensures verb != Put ==> r == Chain(verb)
    ensures |r| == 1 <==> verb == Get || verb == Put
  {
    if verb == Put then [Token] else Chain(verb)
  }

  /** Under the intended chain every authenticated identity reaches the update handler. */
  lemma IntendedPutReached(req: Request, decode: Decoder, now: int)
    requires req.verb == Put
    ensures var c := VerifyToken(req.authorization, decode, now);
            && (c.Pass? ==> RunGates(IntendedChain(Put), None, req, decode, now) == Reached(Some(c.user)))
            && (c.Fail? ==> RunGates(IntendedChain(Put), None, req, decode, now) == Stopped(c.response))
  {
  }

  /** PUT under the intended chain: a user of the record's branch updates its item name and quantity; anyone else who is not an admin is refused. */
  method IntendedUpdateRoute(db: StockCollection, req: Request, decode: Decoder, now: int) returns (r: Response)
    requires db.Valid()
    requires req.verb == Put
    modifies db
    ensures db.Valid()
    ensures var c := VerifyToken(req.authorization, decode, now);
            && (c.Fail? ==> r == c.response && db.records == old(db.records))
            && (c.Pass? && c.user.role != AdminRole && req.id in old(db.records) ==>
                  && (old(db.records)[req.id].location != c.user.branch ==>
                        r == NotYourStock && db.records == old(db.records))
                  && (old(db.records)[req.id].location == c.user.branch && !Js.Truthy(req.body.location)
                      && ValidStock(Merged(old(db.records)[req.id], req.body)) ==>
                        && r == Response(200, StockMessage("Stock updated", req.id, Merged(old(db.records)[req.id], req.body)))
                        && db.records == old(db.records)[req.id := Merged(old(db.records)[req.id], req.body)]))
  {
    IntendedPutReached(req, decode, now);
    var outcome := RunGates(IntendedChain(Put), None, req, decode, now);
    if outcome.Stopped? {
      return outcome.response;
    }
    r := UpdateStock(db, req.id, outcome.user.value, req.body);
  }
}

/**
 * The stock collection and the four stock handlers. Every handler works
 * for the identity the middleware attached and is scoped by that
 * identity's branch; update also looks at the role.
 */
module StockController {
  import opened Wrappers
  import opened Schema
  import opened Http
  import Js

  /** The stored stock documents by id, with the id the next created document receives. */
  class StockCollection {
    var records: map<StockId, Stock>
    var nextId: StockId

    /** Ids already handed out lie below `nextId`, and every stored document passed schema validation. */
    ghost predicate Valid()
      reads this
    {
      && (forall id :: id in records ==> id < nextId)
      && (forall id :: id in records ==> ValidStock(records[id]))
    }

    constructor ()
      ensures Valid() && records == map[] && nextId == 0
    {
      records := map[];
      nextId := 0;
    }

    /** `Stock.find({ location })`: the documents whose location is the given one. */
    function Find(location: string): (r: map<StockId, Stock>)
      reads this
      ensures forall id :: id in r <==> id in records && records[id].location == location
      ensures forall id :: id in r ==> r[id] == records[id]
    {
      map id | id in records && records[id].location == location :: records[id]
    }

    /** `Stock.findById(id)`. */
    function FindById(id: StockId): (r: Option<Stock>)
      reads this
      ensures r.Some? <==> id in records
      ensures r.Some? ==> r.value == records[id]
    {
      if id in records then Some(records[id]) else None
    }

    /** `Stock.create(input)` at clock reading `now`: validate, then store under a fresh id. */
    method Create(input: StockInput, now: int) returns (r: Option<StockId>)
      requires Valid()
      modifies this
      ensures Valid()
      ensures CastStock(input, now).None? ==>
                r.None? && records == old(records) && nextId == old(nextId)
      ensures CastStock(input, now).Some? ==>
                && r == Some(old(nextId)) && old(nextId) !in old(records)
                && records == old(records)[old(nextId) := CastStock(input, now).value]
                && nextId == old(nextId) + 1
    {
      var cast := CastStock(input, now);
      if cast.None? {
        return None;
      }
      r := Some(nextId);
      records := records[nextId := cast.value];
      nextId := nextId + 1;
    }

    /** `stock.save()` of a loaded document `s` with id `id`: validate, then overwrite. */
    method Save(id: StockId, s: Stock) returns (ok: bool)
      requires Valid() && id in records
      modifies this`records
      ensures Valid()
      ensures ok == ValidStock(s)
      ensures records == if ok then old(records)[id := s] else old(records)
    {
      ok := ValidStock(s);
      if ok {
        records := records[id := s];
      }
    }

    /** `Stock.findOneAndDelete({ _id: id, location })`: remove the document only when both match. */
    method FindOneAndDelete(id: StockId, location: string) returns (r: Option<Stock>)
      requires Valid()
      modifies this`records
      ensures Valid()
      ensures r.Some? <==> id in old(records) && old(records)[id].location == location
      ensures r.Some? ==> r.value == old(records)[id] && records == old(records) - {id}
      ensures r.None? ==> records == old(records)
    {
      if id in records && records[id].location == location {
        r := Some(records[id]);
        records := records - {id};
      } else {
        r := None;
      }
    }
  }

  const FieldsRequired := Response(400, Message("All fields required"))
  const CreateFailed := Response(500, Message(ValidationFailed))
  const NotFound := Response(404, Message("Stock not found"))
  const NotYourStock := Response(403, Message("Not authorized to update this stock"))
  const LocationAdminOnly := Response(403, Message("Only admin can update location"))
  const SaveFailed := Response(500, Message(ValidationFailed))
  const Deleted := Response(200, Message("Stock deleted"))
  const NotInBranch := Response(404, Message("Stock not found in your branch"))

  // ---------------------------------------------------------------------
  // getStocks
  // ---------------------------------------------------------------------

  /** `getStocks`: exactly the records whose location is the caller's branch. */
  function GetStocks(db: StockCollection, user: Identity): (r: Response)
    reads db
    ensures r.status == 200 && r.payload.StockList?
    ensures forall id :: id in r.payload.stocks <==>
                           id in db.records && db.records[id].location == user.branch
    ensures forall id :: id in r.payload.stocks ==> r.payload.stocks[id] == db.records[id]
  {
    Response(200, StockList(db.Find(user.branch)))
  }

  /** The role plays no part in listing: an admin sees what a user of the same branch sees, and nothing of another branch. */
  lemma ListingIgnoresRole(db: StockCollection, user: Identity, role: string)
    ensures GetStocks(db, user) == GetStocks(db, user.(role := role))
  {
  }

  // ---------------------------------------------------------------------
  // addStock
  // ---------------------------------------------------------------------

  /** `addStock` at clock reading `now`: a present item name and non-zero quantity are required; the location always comes from the caller's branch. */
  method AddStock(db: StockCollection, user: Identity, body: StockBody, now: int) returns (r: Response)
    requires db.Valid()
    modifies db
    ensures db.Valid()
    ensures !(Js.Truthy(body.itemName) && Js.TruthyNumber(body.quantity)) ==>
              r == FieldsRequired && db.records == old(db.records)
    ensures Js.Truthy(body.itemName) && Js.TruthyNumber(body.quantity) && user.branch !in StockLocations ==>
              r == CreateFailed && db.records == old(db.records)
    ensures Js.Truthy(body.itemName) && Js.TruthyNumber(body.quantity) && user.branch in StockLocations ==>
              var s := Stock(body.itemName.value, body.quantity.value, user.branch, now);
              && r == Response(201, StockMessage("Stock added", old(db.nextId), s))
              && old(db.nextId) !in old(db.records)
              && db.records == old(db.records)[old(db.nextId) := s]
  {
    if !Js.Truthy(body.itemName) || !Js.TruthyNumber(body.quantity) {
      return FieldsRequired;
    }
    var input := StockInput(body.itemName, body.quantity, Some(user.branch), None);
    var id := db.Create(input, now);
    if id.None? {
      return CreateFailed;
    }
    r := Response(201, StockMessage("Stock added", id.value, db.records[id.value]));
  }

  // ---------------------------------------------------------------------
  // updateStock
  // ---------------------------------------------------------------------

  /** The loaded document after the assignments of `updateStock`: each present, truthy body field replaces its own field and nothing else. */
  function Merged(s: Stock, body: StockBody): (r: Stock)
    ensures Js.Truthy(body.itemName) ==> r.itemName == body.itemName.value
    ensures !Js.Truthy(body.itemName) ==> r.itemName == s.itemName
    ensures Js.TruthyNumber(body.quantity) ==> r.quantity == body.quantity.value
    ensures !Js.TruthyNumber(body.quantity) ==> r.quantity == s.quantity
    ensures Js.Truthy(body.location) ==> r.location == body.location.value
    ensures !Js.Truthy(body.location) ==> r.location == s.location
    ensures r.createdAt == s.createdAt
  {
    Stock(Js.OrString(body.itemName, s.itemName),
          if Js.TruthyNumber(body.quantity) then body.quantity.value else s.quantity,
          Js.OrString(body.location, s.location),
          s.createdAt)
  }

  /** An empty body changes nothing; applying the same body twice is the same as once; the creation time never changes. */
  lemma MergedLaws(s: Stock, body: StockBody)
    ensures Merged(s, StockBody(None, None, None)) == s
    ensures Merged(Merged(s, body), body) == Merged(s, body)
    ensures Merged(s, body).createdAt == s.createdAt
  {
  }

  /** A quantity of 0 in the body is ignored exactly like an absent one. */
  lemma ZeroQuantityIgnored(s: Stock, body: StockBody)
    ensures Merged(s, body.(quantity := Some(0))) == Merged(s, body.(quantity := None))
    ensures Merged(s, body.(quantity := Some(0))).quantity == s.quantity
  {
  }

  /** Merging keeps a valid document valid unless it brings in a location outside the enumeration. */
  lemma MergedValid(s: Stock, body: StockBody)
    requires ValidStock(s)
    ensures ValidStock(Merged(s, body)) <==>
              !Js.Truthy(body.location) || body.location.value in StockLocations
  {
  }

  /** `updateStock` of document `id`: find it, check branch or admin, assign the truthy body fields, refuse a location from a non-admin, save. */
  method UpdateStock(db: StockCollection, id: StockId, user: Identity, body: StockBody) returns (r: Response)
    requires db.Valid()
    modifies db
    ensures db.Valid() && db.nextId == old(db.nextId)
    ensures id !in old(db.records) ==> r == NotFound && db.records == old(db.records)
    ensures id in old(db.records) && old(db.records)[id].location != user.branch && user.role != AdminRole ==>
              r == NotYourStock && db.records == old(db.records)
    ensures id in old(db.records) && old(db.records)[id].location == user.branch && user.role != AdminRole
            && Js.Truthy(body.location) ==>
              r == LocationAdminOnly && db.records == old(db.records)
    ensures id in old(db.records) && (old(db.records)[id].location == user.branch || user.role == AdminRole)
            && (user.role == AdminRole || !Js.Truthy(body.location)) ==>
              var s := Merged(old(db.records)[id], body);
              && (ValidStock(s) ==>
                    r == Response(200, StockMessage("Stock updated", id, s)) && db.records == old(db.records)[id := s])
              && (!ValidStock(s) ==> r == SaveFailed && db.records == old(db.records))
  {
    var found := db.FindById(id);
    if found.None? {
      return NotFound;
    }
    var stock := found.value;
    if stock.location != user.branch && user.role != AdminRole {
      return NotYourStock;
    }
    if Js.Truthy(body.itemName) {
      stock := stock.(itemName := body.itemName.value);
    }
    if Js.TruthyNumber(body.quantity) {
      stock := stock.(quantity := body.quantity.value);
    }
    if Js.Truthy(body.location) {
      if user.role == AdminRole {
        stock := stock.(location := body.location.value);
      } else {
        return LocationAdminOnly;
      }
    }
    var ok := db.Save(id, stock);
    if !ok {
      return SaveFailed;
    }
    r := Response(200, StockMessage("Stock updated", id, stock));
  }

  // ---------------------------------------------------------------------
  // deleteStock
  // ---------------------------------------------------------------------

  /** `deleteStock`: the document goes only when its id and its location both match, for admins too. */
  method DeleteStock(db: StockCollection, id: StockId, user: Identity) returns (r: Response)
    requires db.Valid()
    modifies db
    ensures db.Valid() && db.nextId == old(db.nextId)
    ensures id in old(db.records) && old(db.records)[id].location == user.branch ==>
              r == Deleted && db.records == old(db.records) - {id}
    ensures !(id in old(db.records) && old(db.records)[id].location == user.branch) ==>
              r == NotInBranch && db.records == old(db.records)
  {
    var removed := db.FindOneAndDelete(id, user.branch);
    if removed.None? {
      return NotInBranch;
    }
    r := Deleted;
  }

  /** Deleting the same id twice: the second attempt finds nothing in the branch. */
  method DeleteTwice(db: StockCollection, id: StockId, user: Identity) returns (first: Response, second: Response)
    requires db.Valid()
    modifies db
    ensures db.Valid()
    ensures second == NotInBranch
    ensures first == Deleted ==> id !in db.records
    ensures first == Deleted <==> id in old(db.records) && old(db.records)[id].location == user.branch
  {
    first := DeleteStock(db, id, user);
    second := DeleteStock(db, id, user);
  }
}

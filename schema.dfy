/**
 * The two document schemas of the backend: a stock record (item name,
 * quantity, location from a fixed list, creation time) and a user
 * (name, unique email, password hash, branch, role).
 */
module Schema {
  import opened Wrappers

  type StockId = nat
  type UserId = nat

  // ---------------------------------------------------------------------
  // Stock
  // ---------------------------------------------------------------------

  /** The values the location enumeration of a stock record admits. */
  const StockLocations: seq<string> := ["Chennai", "Coimbatore", "Trichy", "Madurai", "Service Station"]

  /** A stored stock record; times are abstract clock readings. */
  datatype Stock = Stock(itemName: string, quantity: int, location: string, createdAt: int)

  /** What a caller hands to `Stock.create`: every field may be left out. */
  datatype StockInput = StockInput(itemName: Option<string>, quantity: Option<int>,
                                   location: Option<string>, createdAt: Option<int>)

  /** A record passes schema validation: required strings are non-empty and the location is enumerated. */
  predicate ValidStock(s: Stock) {
    s.itemName != "" && s.location in StockLocations
  }

  /** `Stock.create` validation at clock reading `now`: the record it would store, or None when validation fails. */
  function CastStock(input: StockInput, now: int): (r: Option<Stock>)
    ensures r.Some? <==>
              && input.itemName.Some? && input.itemName.value != ""
              && input.quantity.Some?
              && input.location.Some? && input.location.value in StockLocations
    ensures r.Some? ==> ValidStock(r.value)
    ensures r.Some? ==>
              && r.value.itemName == input.itemName.value
              && r.value.quantity == input.quantity.value
              && r.value.location == input.location.value
    ensures r.Some? && input.createdAt.None? ==> r.value.createdAt == now
    ensures r.Some? && input.createdAt.Some? ==> r.value.createdAt == input.createdAt.value
  {
    if input.itemName.None? || input.quantity.None? || input.location.None? then None
    else
      var s := Stock(input.itemName.value, input.quantity.value, input.location.value,
                     input.createdAt.GetOr(now));
      if ValidStock(s) then Some(s) else None
  }

  // ---------------------------------------------------------------------
  // User
  // ---------------------------------------------------------------------

  const UserBranches: seq<string> := ["Chennai", "Coimbatore", "Trichy", "Madurai"]
  const UserRoles: seq<string> := ["admin", "user"]
  const AdminRole := "admin"

  /** A stored user. `password` holds the hash, `version` the document version key `__v`. */
  datatype User = User(id: UserId, name: string, email: string, password: string,
                       branch: string, role: string, version: nat)

  /** What `registerUser` hands to `User.create`. */
  datatype UserInput = UserInput(name: string, email: string, password: string,
                                 role: string, branch: string)

  /** A user passes schema validation: required strings are non-empty, branch and role are enumerated. */
  predicate ValidUser(u: User) {
    && u.name != "" && u.email != "" && u.password != ""
    && u.branch in UserBranches
    && u.role in UserRoles
  }

  /** `User.create` validation for a new document with the given id; a new document has version 0. */
  function CastUser(input: UserInput, id: UserId): (r: Option<User>)
    ensures r.Some? <==>
              && input.name != "" && input.email != "" && input.password != ""
              && input.branch in UserBranches && input.role in UserRoles
    ensures r.Some? ==> ValidUser(r.value) && r.value.id == id && r.value.version == 0
    ensures r.Some? ==>
              && r.value.name == input.name && r.value.email == input.email
              && r.value.password == input.password
              && r.value.branch == input.branch && r.value.role == input.role
  {
    var u := User(id, input.name, input.email, input.password, input.branch, input.role, 0);
    if ValidUser(u) then Some(u) else None
  }

  /** The unique index on email: the user table is keyed by email, and each user sits under its own email. */
  ghost predicate EmailsUnique(users: map<string, User>) {
    forall e :: e in users ==> users[e].email == e
  }

  /** A fact about the table's key rather than about an operation: no two users share an email in a table keyed by email. */
  lemma EmailIdentifiesUser(users: map<string, User>, e1: string, e2: string)
    requires EmailsUnique(users) && e1 in users && e2 in users
    ensures users[e1].email == users[e2].email ==> e1 == e2
  {
  }

  /** Every user branch is a stock location, so a record placed in a valid user's branch passes the location check. */
  lemma BranchesAreLocations(b: string)
    requires b in UserBranches
    ensures b in StockLocations
  {
  }

  /** A fact about the two enumerations: the converse fails, as "Service Station" is a stock location but no user's branch. */
  lemma ServiceStationHasNoUsers()
    ensures "Service Station" in StockLocations && "Service Station" !in UserBranches
  {
  }
}

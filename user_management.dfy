/**
 * The user management panel of the client: a local list of users with an
 * add form, a search box and a role filter. Nothing here talks to the
 * server; the list lives in component state.
 */
module UserManagement {
  import Js

  datatype UiUser = UiUser(name: string, role: string)

  const InitialUsers: seq<UiUser> := [UiUser("Admin User", "admin"), UiUser("John Doe", "manager"), UiUser("Jane Smith", "staff")]

  /** The add form after a reset: no name, role "staff". */
  const EmptyForm := UiUser("", "staff")

  /** A user is shown when the lowercased name contains the lowercased search and the role filter is "all" or the role itself. */
  predicate Matches(u: UiUser, search: string, filterRole: string)
    ensures Matches(u, search, filterRole) ==> |search| <= |u.name|
    ensures search == "" ==> (Matches(u, search, filterRole) <==> filterRole == "all" || u.role == filterRole)
  {
    Js.IncludesEmpty(Js.ToLower(u.name));
    assert search == "" ==> Js.ToLower(search) == "";
    Js.Includes(Js.ToLower(u.name), Js.ToLower(search)) && (filterRole == "all" || u.role == filterRole)
  }

  /** `users.filter(...)`: the matching users in their original order. */
  function Filter(users: seq<UiUser>, search: string, filterRole: string): (r: seq<UiUser>)
    ensures |r| <= |users|
  {
    if |users| == 0 then []
    else (if Matches(users[0], search, filterRole) then [users[0]] else []) + Filter(users[1..], search, filterRole)
  }

  /** Filtering distributes over concatenation: the view of a list is the views of its parts, in order. */
  lemma {:induction false} FilterAppend(a: seq<UiUser>, b: seq<UiUser>, search: string, filterRole: string)
    ensures Filter(a + b, search, filterRole) == Filter(a, search, filterRole) + Filter(b, search, filterRole)
  {
    if |a| > 0 {
      FilterAppend(a[1..], b, search, filterRole);
      assert (a + b)[1..] == a[1..] + b;
    } else {
      assert a + b == b;
    }
  }

  /** The view holds exactly the matching users of the list. */
  lemma {:induction false} FilterMembers(users: seq<UiUser>, search: string, filterRole: string)
    ensures forall u :: u in Filter(users, search, filterRole) <==> u in users && Matches(u, search, filterRole)
  {
    if |users| > 0 {
      FilterMembers(users[1..], search, filterRole);
      assert users == [users[0]] + users[1..];
    }
  }

  /** Every name contains the empty search, so an empty search with filter "all" shows every user. */
  lemma {:induction false} FilterShowsAll(users: seq<UiUser>)
    ensures Filter(users, "", "all") == users
  {
    if |users| > 0 {
      FilterShowsAll(users[1..]);
      Js.IncludesEmpty(Js.ToLower(users[0].name));
      assert Js.ToLower("") == "";
      assert users == [users[0]] + users[1..];
    }
  }

  /** The position in the full list of the user shown in row `k` of the view. */
  function ViewToFull(users: seq<UiUser>, search: string, filterRole: string, k: nat): (i: nat)
    requires k < |Filter(users, search, filterRole)|
    ensures i < |users|
    ensures users[i] == Filter(users, search, filterRole)[k]
    ensures Matches(users[i], search, filterRole)
    ensures |Filter(users[..i], search, filterRole)| == k
  {
    var rest := users[1..];
    var head := if Matches(users[0], search, filterRole) then [users[0]] else [];
    assert Filter(users, search, filterRole) == head + Filter(rest, search, filterRole);
    if |head| == 1 && k == 0 then
      assert users[..0] == [];
      0
    else
      var j := ViewToFull(rest, search, filterRole, k - |head|);
      FilterTake(users, j, search, filterRole);
      j + 1
  }

  /** The view of the first `j + 1` users is the first user's row, if shown, followed by the view of the next `j`. */
  lemma FilterTake(users: seq<UiUser>, j: nat, search: string, filterRole: string)
    requires j < |users|
    ensures Filter(users[..j + 1], search, filterRole)
              == (if Matches(users[0], search, filterRole) then [users[0]] else []) + Filter(users[1..][..j], search, filterRole)
  {
    assert users[..j + 1][1..] == users[1..][..j];
  }

  /** Removing from the full list the user shown in row `k` removes exactly row `k` from the view, and that user. */
  lemma RemoveShownUserCorrect(users: seq<UiUser>, search: string, filterRole: string, k: nat)
    requires k < |Filter(users, search, filterRole)|
    ensures var i := ViewToFull(users, search, filterRole, k);
            && Js.SpliceOne(users, i) == users[..i] + users[i + 1..]
            && Filter(Js.SpliceOne(users, i), search, filterRole)
                 == Js.SpliceOne(Filter(users, search, filterRole), k)
            && Filter(Js.SpliceOne(users, i), search, filterRole)
                 == Filter(users, search, filterRole)[..k] + Filter(users, search, filterRole)[k + 1..]
  {
    var i := ViewToFull(users, search, filterRole, k);
    var a, u, b := users[..i], users[i], users[i + 1..];
    assert users == a + [u] + b;
    FilterAppend(a + [u], b, search, filterRole);
    FilterAppend(a, [u], search, filterRole);
    FilterAppend(a, b, search, filterRole);
    assert Filter([u], search, filterRole) == [u] by {
      assert [u][1..] == [];
    }
    var view := Filter(users, search, filterRole);
    assert view == Filter(a, search, filterRole) + [u] + Filter(b, search, filterRole);
    assert Js.SpliceOne(view, k) == view[..k] + view[k + 1..];
    assert view[..k] == Filter(a, search, filterRole);
    assert view[k + 1..] == Filter(b, search, filterRole);
  }

  /** With the initial users and the filter "staff", row 0 shows Jane Smith, and splicing index 0 of the full list removes Admin User and keeps Jane Smith. */
  lemma RemoveRowUnderFilterAsWritten()
    ensures Filter(InitialUsers, "", "staff") == [UiUser("Jane Smith", "staff")]
    ensures Js.SpliceOne(InitialUsers, 0) == [UiUser("John Doe", "manager"), UiUser("Jane Smith", "staff")]
  {
    var jane := UiUser("Jane Smith", "staff");
    Js.IncludesEmpty(Js.ToLower(jane.name));
    assert Js.ToLower("") == "";
    assert InitialUsers[1..][1..] == [jane];
    assert [jane][1..] == [];
  }

  /** The component's state. */
  class UserPanel {
    var users: seq<UiUser>
    var newUser: UiUser
    var search: string
    var filterRole: string

    constructor ()
      ensures users == InitialUsers && newUser == EmptyForm && search == "" && filterRole == "all"
    {
      users := InitialUsers;
      newUser := EmptyForm;
      search := "";
      filterRole := "all";
    }

    /** `filteredUsers`, the rows of the table. */
    function Shown(): (r: seq<UiUser>)
      reads this
      ensures |r| <= |users|
      ensures forall u :: u in r <==> u in users && Matches(u, search, filterRole)
    {
      FilterMembers(users, search, filterRole);
      Filter(users, search, filterRole)
    }

    /** The change handlers of the form fields, the search box and the role filter. */
    method EditNewUser(name: string, role: string)
      modifies this`newUser
      ensures newUser == UiUser(name, role)
    {
      newUser := UiUser(name, role);
    }

    method SetSearch(s: string)
      modifies this`search
      ensures search == s
    {
      search := s;
    }

    method SetFilterRole(role: string)
      modifies this`filterRole
      ensures filterRole == role
    {
      filterRole := role;
    }

    /** `handleAddUser`: a blank name changes nothing; otherwise the form's user, name untrimmed, goes first and the form resets. */
    method HandleAddUser()
      modifies this`users, this`newUser
      ensures Js.Blank(old(newUser.name)) ==> users == old(users) && newUser == old(newUser)
      ensures !Js.Blank(old(newUser.name)) ==> users == [old(newUser)] + old(users) && newUser == EmptyForm
      ensures !Js.Blank(old(newUser.name)) ==>
                Shown() == (if Matches(old(newUser), search, filterRole) then [old(newUser)] else []) + old(Shown())
    {
      if Js.Blank(newUser.name) {
        return;
      }
      FilterAppend([newUser], users, search, filterRole);
      assert [newUser][1..] == [];
      users := [newUser] + users;
      newUser := EmptyForm;
    }

    /** `handleRemoveUser(index)`: splice one entry out of a copy of the full list. */
    method HandleRemoveUser(index: int)
      modifies this`users
      ensures users == Js.SpliceOne(old(users), index)
      ensures 0 <= index < |old(users)| ==>
                && |users| == |old(users)| - 1
                && users == old(users)[..index] + old(users)[index + 1..]
    {
      users := Js.SpliceOne(users, index);
    }

    /** The remove button of row `row`, as evidently intended: remove the user that row shows. */
    method HandleRemoveShownUser(row: nat)
      requires row < |Shown()|
      modifies this`users
      ensures var i := old(ViewToFull(users, search, filterRole, row));
              users == old(users)[..i] + old(users)[i + 1..]
      ensures Shown() == old(Shown())[..row] + old(Shown())[row + 1..]
    {
      ghost var view := Shown();
      var i := ViewToFull(users, search, filterRole, row);
      RemoveShownUserCorrect(users, search, filterRole, row);
      var next := Js.SpliceOne(users, i);
      assert next == users[..i] + users[i + 1..];
      assert Filter(next, search, filterRole) == view[..row] + view[row + 1..];
      users := next;
    }
  }
}

/** The admin user-management route: listing users with a role filter and a
    name/email search, and the BAN and ROLE actions. */
module AdminUsers {
  import opened Wrappers
  import opened Http
  import opened AdminQuery
  import Truthy
  import Strings

  datatype UserRow = UserRow(id: string, name: Option<string>, email: string, role: string, banned: bool)

  /** The columns the PATCH reply selects: the email is not among them. */
  datatype UserSummary = UserSummary(id: string, name: Option<string>, role: string, banned: bool)

  function Summary(u: UserRow): UserSummary {
    UserSummary(u.id, u.name, u.role, u.banned)
  }

  datatype UsersQuery = UsersQuery(page: Option<int>, limit: Option<int>,
                                   search: Option<string>, role: Option<string>)

  /** The where-clause: a search on name or email (a user without a name
      matches on email only), then the role filter. */
  predicate Selected(search: Option<string>, role: Option<string>, u: UserRow) {
    (search.None?
     || (u.name.Some? && Strings.Contains(u.name.value, search.value))
     || Strings.Contains(u.email, search.value))
    && Passes(role, u.role)
  }

  function Selector(q: UsersQuery): UserRow -> bool {
    (u: UserRow) => Selected(Truthy.TextOrNull(q.search), ExactFilter(q.role), u)
  }

  /** GET: admins only; lists the users the query selects. */
  function GetUsers(session: Option<Session>, q: UsersQuery, rows: seq<UserRow>): (r: Reply<Listing<UserRow>>)
    ensures !HasRole(session, "ADMIN") ==> r == Error(401, "Unauthorized")
    ensures HasRole(session, "ADMIN") ==> r.Ok? && r.body.total == |r.body.selected|
    ensures r.Ok? ==> forall i :: 0 <= i < |r.body.selected| ==>
      var u := r.body.selected[i];
      u in rows
      && (!Truthy.Text(q.role) || q.role.value == "ALL" || u.role == q.role.value)
      && (!Truthy.Text(q.search) || (u.name.Some? && Strings.Contains(u.name.value, q.search.value))
          || Strings.Contains(u.email, q.search.value))
  {
    if !HasRole(session, "ADMIN") then Error(401, "Unauthorized")
    else Ok(List(Selector(q), rows, q.page, q.limit))
  }

  /** Role "ALL" or none, and no search text, select every user. */
  lemma NoFilterListsAll(session: Option<Session>, page: Option<int>, limit: Option<int>, rows: seq<UserRow>)
    requires HasRole(session, "ADMIN")
    ensures GetUsers(session, UsersQuery(page, limit, Some(""), Some("ALL")), rows).body.selected == rows
    ensures GetUsers(session, UsersQuery(page, limit, None, None), rows).body.selected == rows
  {
    Seqs.FilterAll(Selector(UsersQuery(page, limit, Some(""), Some("ALL"))), rows);
    Seqs.FilterAll(Selector(UsersQuery(page, limit, None, None)), rows);
  }

  /** Every user the query admits is listed: a search hit on either the name
      or the email is enough. */
  lemma ListsEverySelectedUser(session: Option<Session>, q: UsersQuery, rows: seq<UserRow>, i: nat)
    requires HasRole(session, "ADMIN") && i < |rows|
    requires !Truthy.Text(q.role) || q.role.value == "ALL" || rows[i].role == q.role.value
    requires !Truthy.Text(q.search) || (rows[i].name.Some? && Strings.Contains(rows[i].name.value, q.search.value))
             || Strings.Contains(rows[i].email, q.search.value)
    ensures rows[i] in GetUsers(session, q, rows).body.selected
  {
    assert Selector(q)(rows[i]);
  }

  /** The JSON `value` of the request body: absent (undefined, which the
      update ignores), a boolean, a string, or anything else. */
  datatype Value = Absent | Flag(flag: bool) | Text(text: string) | OtherValue

  /** The update the action asks for; None when the stored column cannot
      take the value, so the update throws and the handler answers 500. */
  function Updated(u: UserRow, action: string, value: Value): Option<UserRow>
    requires action == "BAN" || action == "ROLE"
  {
    match value
    case Absent => Some(u)
    case Flag(b) => if action == "BAN" then Some(u.(banned := b)) else None
    case Text(t) => if action == "ROLE" then Some(u.(role := t)) else None
    case OtherValue => None
  }

  /** PATCH: admins only; user id and action required; BAN sets only
      `banned`, ROLE sets only `role` to any string at all; other actions are
      refused before the store is touched. The reply shows the updated
      user's id, name, role and ban flag, but not the email. */
  function PatchUser(session: Option<Session>, userId: Option<string>, action: Option<string>, value: Value,
                     store: map<string, UserRow>): (r: Patched<UserSummary, UserRow>)
    ensures !HasRole(session, "ADMIN") ==> r == Patched(Error(401, "Unauthorized"), store)
    ensures HasRole(session, "ADMIN") && (!Truthy.Text(userId) || !Truthy.Text(action)) ==>
      r == Patched(Error(400, "Missing required fields"), store)
    ensures HasRole(session, "ADMIN") && Truthy.Text(userId) && Truthy.Text(action)
            && action.value != "BAN" && action.value != "ROLE" ==>
      r == Patched(Error(400, "Invalid action"), store)
    ensures !r.reply.Ok? ==> r.store == store
    ensures r.reply.Ok? ==>
      && HasRole(session, "ADMIN") && Truthy.Text(userId) && userId.value in store
      && r.store.Keys == store.Keys
      && r.reply.body == UserSummary(store[userId.value].id, store[userId.value].name,
                                   r.store[userId.value].role, r.store[userId.value].banned)
      && (forall k :: k in store && k != userId.value ==> r.store[k] == store[k])
      && r.store[userId.value].id == store[userId.value].id
      && r.store[userId.value].name == store[userId.value].name
      && r.store[userId.value].email == store[userId.value].email
    ensures r.reply.Ok? && action == Some("BAN") ==> r.store[userId.value].role == store[userId.value].role
    ensures r.reply.Ok? && action == Some("ROLE") ==> r.store[userId.value].banned == store[userId.value].banned
  {
    if !HasRole(session, "ADMIN") then Patched(Error(401, "Unauthorized"), store)
    else if !Truthy.Text(userId) || !Truthy.Text(action) then Patched(Error(400, "Missing required fields"), store)
    else if action.value != "BAN" && action.value != "ROLE" then Patched(Error(400, "Invalid action"), store)
    else if userId.value !in store then Patched(Error(500, "Internal Server Error"), store)
    else
      match Updated(store[userId.value], action.value, value)
      case None => Patched(Error(500, "Internal Server Error"), store)
      case Some(u) => Patched(Ok(Summary(u)), store[userId.value := u])
  }

  /** BAN with a boolean on an existing user succeeds and sets the flag. */
  lemma BanSetsFlag(session: Option<Session>, userId: string, b: bool, store: map<string, UserRow>)
    requires HasRole(session, "ADMIN") && userId != "" && userId in store
    ensures PatchUser(session, Some(userId), Some("BAN"), Flag(b), store).reply.Ok?
    ensures PatchUser(session, Some(userId), Some("BAN"), Flag(b), store).store[userId].banned == b
  {
  }

  /** ROLE accepts any string, not only the roles the application knows. */
  lemma RoleIsNotValidated(session: Option<Session>, userId: string, role: string, store: map<string, UserRow>)
    requires HasRole(session, "ADMIN") && userId != "" && userId in store
    ensures PatchUser(session, Some(userId), Some("ROLE"), Text(role), store).reply.Ok?
    ensures PatchUser(session, Some(userId), Some("ROLE"), Text(role), store).store[userId].role == role
  {
  }
}

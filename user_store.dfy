/**
 * The users collection behind the controller, as a class over a map from
 * ObjectId text to stored user. Keys are in the canonical lower-case form,
 * and every stored user carries its own key as id. An id given in a request
 * is read regardless of the case of its hexadecimal digits, so it is looked
 * up by its lower-case form. New ids are minted outside (by the driver) and
 * passed in.
 */
module Store {
  import opened Wrappers
  import opened Seqs
  import opened ServerUser
  import opened UserController
  import opened CompanyGroups

  /** Why a lookup by id fails: not an ObjectId at all, or no such user. */
  datatype LookupError = IllegalId | UserNotFound

  function LookupMessage(e: LookupError): string {
    match e
    case IllegalId => "The requested user id wasn't a legal Mongo Object ID."
    case UserNotFound => "The requested user was not found"
  }

  /** The sortBy query text that asks for each sort key. */
  function SortByName(key: SortBy): string {
    match key
    case ByCompany => "company"
    case ByCount => "count"
  }

  /** The sortOrder query text that asks for each order. */
  function SortOrderName(order: SortOrder): string {
    match order
    case Ascending => "asc"
    case Descending => "desc"
  }

  /** The sort key a sortBy text asks for, if it is one the tests use. */
  function ParseSortBy(s: string): (r: Option<SortBy>)
    ensures r.Some? ==> SortByName(r.value) == s
    ensures r.None? ==> forall key: SortBy :: SortByName(key) != s
  {
    if s == "company" then Some(ByCompany) else if s == "count" then Some(ByCount) else None
  }

  /** The order a sortOrder text asks for, if it is one the tests use. */
  function ParseSortOrder(s: string): (r: Option<SortOrder>)
    ensures r.Some? ==> SortOrderName(r.value) == s
    ensures r.None? ==> forall order: SortOrder :: SortOrderName(order) != s
  {
    if s == "asc" then Some(Ascending) else if s == "desc" then Some(Descending) else None
  }

  /** Each key and order is read back from its own query text. */
  lemma SortQueriesReadBack(key: SortBy, order: SortOrder)
    ensures ParseSortBy(SortByName(key)) == Some(key)
    ensures ParseSortOrder(SortOrderName(order)) == Some(order)
  {
  }

  class UserStore {
    var users: map<string, User>
    const rules: Rules
    const md5: string -> Option<string>

    /** Every key is a canonical ObjectId and is the id of the user stored under it. */
    ghost predicate Valid()
      reads this
    {
      forall id | id in users :: CanonicalObjectId(id) && users[id].id == Some(id)
    }

    constructor (rules: Rules, md5: string -> Option<string>)
      ensures Valid()
      ensures users == map[] && this.rules == rules && this.md5 == md5
    {
      this.rules := rules;
      this.md5 := md5;
      users := map[];
    }

    /** All stored users, each once, in no particular order. */
    method Listing() returns (all: seq<User>)
      requires Valid()
      ensures |all| == |users|
      ensures Distinct(all)
      ensures forall u :: u in all <==> u in users.Values
    {
      all := [];
      var todo := users.Keys;
      while todo != {}
        invariant todo <= users.Keys
        invariant |all| + |todo| == |users|
        invariant Distinct(all)
        invariant forall i | 0 <= i < |all| ::
          all[i].id.Some? && all[i].id.value in users && all[i].id.value !in todo && users[all[i].id.value] == all[i]
        invariant forall id | id in users && id !in todo :: users[id] in all
        decreases todo
      {
        var id :| id in todo;
        assert users[id].id == Some(id);
        all := all + [users[id]];
        todo := todo - {id};
      }
    }

    /** getUsers: the stored users that satisfy the query, or the query's error. */
    method GetUsers(p: QueryParams) returns (r: Result<seq<User>, QueryError>)
      requires Valid()
      ensures r.Failure? <==> ParseFilter(p, rules).Failure?
      ensures r.Failure? ==> r.error == ParseFilter(p, rules).error
      ensures r.Success? ==> Distinct(r.value)
      ensures r.Success? ==> forall u :: u in r.value <==> u in users.Values && Matches(ParseFilter(p, rules).value, u)
      ensures p == NoParams ==> r.Success? && |r.value| == |users|
    {
      match ParseFilter(p, rules)
      case Failure(e) =>
        r := Failure(e);
      case Success(f) =>
        var all := Listing();
        FilterDistinct(all, f);
        FilterUsersMembers(all, f);
        if p == NoParams {
          FilterWithoutParams(all);
        }
        r := Success(FilterUsers(all, f));
    }

    /** getUser: an illegal id is refused before the lookup; a legal one finds
        the user with that ObjectId, however its digits are cased. */
    method GetUser(id: string) returns (r: Result<User, LookupError>)
      ensures !LegalObjectId(id) ==> r == Failure(IllegalId)
      ensures LegalObjectId(id) && Lower(id) !in users ==> r == Failure(UserNotFound)
      ensures LegalObjectId(id) && Lower(id) in users ==> r == Success(users[Lower(id)])
    {
      if !LegalObjectId(id) {
        r := Failure(IllegalId);
      } else if Lower(id) !in users {
        r := Failure(UserNotFound);
      } else {
        r := Success(users[Lower(id)]);
      }
    }

    /** addNewUser: a body that fails any check is refused with all its errors
        and nothing is stored; otherwise the user is stored under the new id,
        with the avatar generated from its email, and the id is returned. */
    method AddNewUser(body: RequestBody, newId: string) returns (r: Result<string, seq<NewUserError>>)
      requires Valid()
      requires CanonicalObjectId(newId) && newId !in users
      modifies this
      ensures Valid()
      ensures ValidateNewUser(body, rules) != [] ==>
        r == Failure(ValidateNewUser(body, rules)) && users == old(users)
      ensures ValidateNewUser(body, rules) == [] ==>
        && body.bound.Some? && body.bound.value.email.Some?
        && r == Success(newId)
        && users == old(users)[newId := body.bound.value.(
             id := Some(newId), avatar := Some(GenerateAvatar(body.bound.value.email.value, md5)))]
    {
      var errs := ValidateNewUser(body, rules);
      if errs != [] {
        r := Failure(errs);
      } else {
        var u := body.bound.value;
        assert CheckFailed(EmailCheck, body.text) !in errs;
        var stored := u.(id := Some(newId), avatar := Some(GenerateAvatar(u.email.value, md5)));
        users := users[newId := stored];
        r := Success(newId);
      }
    }

    /** deleteUser: removes the user with that ObjectId, however its digits are
        cased; reports whether there was one. */
    method DeleteUser(id: string) returns (deleted: bool)
      requires Valid()
      modifies this
      ensures Valid()
      ensures deleted <==> Lower(id) in old(users)
      ensures users == old(users) - {Lower(id)}
    {
      deleted := Lower(id) in users;
      users := users - {Lower(id)};
    }

    /** getUsersGroupedByCompany, given the sortBy and sortOrder query texts:
        the stored users grouped by company and sorted as the texts ask. Texts
        other than those the tests use give None (see README). */
    method GetUsersGroupedByCompany(sortBy: string, sortOrder: string) returns (r: Option<seq<UserByCompany>>)
      requires Valid()
      ensures r.Some? <==> ParseSortBy(sortBy).Some? && ParseSortOrder(sortOrder).Some?
      ensures r.Some? ==> Sorted(r.value, ParseSortBy(sortBy).value, ParseSortOrder(sortOrder).value)
      ensures r.Some? ==> DistinctKeys(r.value)
      ensures r.Some? ==> forall i | 0 <= i < |r.value| ::
        && r.value[i].count == |r.value[i].users| && r.value[i].users != [] && Distinct(r.value[i].users)
        && (forall u :: u in r.value[i].users <==> u in users.Values && u.company == r.value[i].company)
      ensures r.Some? ==> forall u | u in users.Values :: exists i | 0 <= i < |r.value| :: r.value[i].company == u.company
    {
      var key, order := ParseSortBy(sortBy), ParseSortOrder(sortOrder);
      if key.None? || order.None? {
        r := None;
      } else {
        var all := Listing();
        var gs := GroupByCompany(all, key.value, order.value);
        GroupByCompanyCorrect(all, key.value, order.value);
        forall i | 0 <= i < |gs| ensures Distinct(gs[i].users) {
          UsersOfDistinct(all, gs[i].company);
        }
        r := Some(gs);
      }
    }
  }

  /** The delete tests: the first delete removes the user, the second finds nothing. */
  method DeleteTwice(store: UserStore, id: string) returns (first: bool, second: bool)
    requires store.Valid() && Lower(id) in store.users
    modifies store
    ensures first && !second
    ensures store.users == old(store.users) - {Lower(id)}
  {
    first := store.DeleteUser(id);
    second := store.DeleteUser(id);
  }

  /** The addNewUser test: the stored user is the submitted one, under a fresh id, with an avatar. */
  method AddThenGet(store: UserStore, body: RequestBody, newId: string) returns (r: Result<User, LookupError>)
    requires store.Valid() && CanonicalObjectId(newId) && newId !in store.users
    requires body.bound.Some? && ValidateNewUser(body, store.rules) == []
    modifies store
    ensures r.Success?
    ensures r.value.id == Some(newId) && r.value.avatar.Some?
    ensures r.value.(id := None, avatar := None) == body.bound.value.(id := None, avatar := None)
  {
    var added := store.AddNewUser(body, newId);
    r := store.GetUser(newId);
  }

  /** An id is found whatever the case of its digits, and one ObjectId cannot
      be stored twice under differently cased texts. */
  method GetIgnoresIdCase(store: UserStore, id: string) returns (r1: Result<User, LookupError>, r2: Result<User, LookupError>)
    requires store.Valid() && LegalObjectId(id)
    ensures r1 == r2
    ensures r1.Success? <==> exists key | key in store.users :: Lower(key) == Lower(id)
  {
    LowerIsCanonical(id);
    r1 := store.GetUser(id);
    r2 := store.GetUser(Lower(id));
    if r1.Failure? {
      forall key | key in store.users ensures Lower(key) != Lower(id) {
        assert CanonicalObjectId(key);
      }
    }
  }

  /** The getUser tests: "bad" is refused as an illegal id, and a legal id that
      is not stored is not found; each with the message the tests expect. */
  method GetUserSamplePoints(store: UserStore) returns (bad: string, missing: string)
    requires "588935f5c668650dc77df581" !in store.users
    ensures bad == "The requested user id wasn't a legal Mongo Object ID."
    ensures missing == "The requested user was not found"
  {
    IdSamplePoints();
    var r1 := store.GetUser("bad");
    bad := LookupMessage(r1.error);
    var r2 := store.GetUser("588935f5c668650dc77df581");
    missing := LookupMessage(r2.error);
  }
}

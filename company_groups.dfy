/**
 * getUsersGroupedByCompany: the stored users grouped by company, one entry
 * per company with its count and its users, the entries sorted by company
 * name or by count, ascending or descending.
 */
module CompanyGroups {
  import opened Wrappers
  import opened ServerUser
  import opened Seqs

  /** One entry of the result: `_id` is the company, `count` and `users` its members. */
  datatype UserByCompany = UserByCompany(company: Option<string>, count: nat, users: seq<User>)

  datatype SortBy = ByCompany | ByCount
  datatype SortOrder = Ascending | Descending

  // ---------------------------------------------------------------------
  // The order on company names

  /** The database compares strings character by character by code;
      a proper prefix comes first. */
  predicate StringLe(a: string, b: string)
    decreases |a|
  {
    a == [] || (b != [] && (a[0] < b[0] || (a[0] == b[0] && StringLe(a[1..], b[1..]))))
  }

  lemma {:induction false} StringLeTotal(a: string, b: string)
    ensures StringLe(a, b) || StringLe(b, a)
    decreases |a|
  {
    if a != [] && b != [] && a[0] == b[0] {
      StringLeTotal(a[1..], b[1..]);
    }
  }

  lemma {:induction false} StringLeTransitive(a: string, b: string, c: string)
    requires StringLe(a, b) && StringLe(b, c)
    ensures StringLe(a, c)
    decreases |a|
  {
    if a != [] && a[0] == b[0] && b[0] == c[0] {
      StringLeTransitive(a[1..], b[1..], c[1..]);
    }
  }

  /** A missing company (null) sorts before every name. */
  predicate KeyLe(a: Option<string>, b: Option<string>) {
    a.None? || (b.Some? && StringLe(a.value, b.value))
  }

  /** Whether entry `a` may come before entry `b` under the requested order. */
  predicate InOrder(a: UserByCompany, b: UserByCompany, key: SortBy, order: SortOrder) {
    match (key, order)
    case (ByCompany, Ascending) => KeyLe(a.company, b.company)
    case (ByCompany, Descending) => KeyLe(b.company, a.company)
    case (ByCount, Ascending) => a.count <= b.count
    case (ByCount, Descending) => b.count <= a.count
  }

  lemma InOrderTotal(a: UserByCompany, b: UserByCompany, key: SortBy, order: SortOrder)
    ensures InOrder(a, b, key, order) || InOrder(b, a, key, order)
  {
    if a.company.Some? && b.company.Some? {
      StringLeTotal(a.company.value, b.company.value);
    }
  }

  lemma InOrderTransitive(a: UserByCompany, b: UserByCompany, c: UserByCompany, key: SortBy, order: SortOrder)
    requires InOrder(a, b, key, order) && InOrder(b, c, key, order)
    ensures InOrder(a, c, key, order)
  {
    if key == ByCompany {
      if order == Ascending && a.company.Some? {
        StringLeTransitive(a.company.value, b.company.value, c.company.value);
      } else if order == Descending && c.company.Some? {
        StringLeTransitive(c.company.value, b.company.value, a.company.value);
      }
    }
  }

  // ---------------------------------------------------------------------
  // Building the groups

  /** The users of one company, in the order given. */
  function UsersOf(us: seq<User>, c: Option<string>): (r: seq<User>)
    ensures forall u :: u in r <==> u in us && u.company == c
    ensures |r| <= |us|
  {
    if us == [] then []
    else (if us[0].company == c then [us[0]] else []) + UsersOf(us[1..], c)
  }

  lemma {:induction false} UsersOfDistinct(us: seq<User>, c: Option<string>)
    requires Distinct(us)
    ensures Distinct(UsersOf(us, c))
  {
    if us != [] {
      assert Distinct(us[1..]);
      UsersOfDistinct(us[1..], c);
      assert us[0] !in us[1..];
    }
  }

  /** Each company of `us` once. */
  function CompaniesOf(us: seq<User>): (cs: seq<Option<string>>)
    ensures Distinct(cs)
    ensures forall u | u in us :: u.company in cs
    ensures forall c | c in cs :: UsersOf(us, c) != []
  {
    if us == [] then []
    else
      var rest := CompaniesOf(us[1..]);
      assert forall c | c in rest :: us[1..] != [] && UsersOf(us, c) != [] by {
        forall c | c in rest ensures UsersOf(us, c) != [] {
          var u := UsersOf(us[1..], c)[0];
          assert u in us[1..];
        }
      }
      if us[0].company in rest then rest else [us[0].company] + rest
  }

  function Group(us: seq<User>, c: Option<string>): UserByCompany {
    var members := UsersOf(us, c);
    UserByCompany(c, |members|, members)
  }

  predicate DistinctKeys(gs: seq<UserByCompany>) {
    forall i, j | 0 <= i < j < |gs| :: gs[i].company != gs[j].company
  }

  predicate Sorted(gs: seq<UserByCompany>, key: SortBy, order: SortOrder) {
    forall i, j | 0 <= i < j < |gs| :: InOrder(gs[i], gs[j], key, order)
  }

  // ---------------------------------------------------------------------
  // Sorting the groups

  function Insert(g: UserByCompany, s: seq<UserByCompany>, key: SortBy, order: SortOrder): (r: seq<UserByCompany>)
    ensures multiset(r) == multiset(s) + multiset{g}
  {
    if s == [] || InOrder(g, s[0], key, order) then [g] + s
    else
      assert s == [s[0]] + s[1..];
      [s[0]] + Insert(g, s[1..], key, order)
  }

  function Sort(gs: seq<UserByCompany>, key: SortBy, order: SortOrder): (r: seq<UserByCompany>)
    ensures multiset(r) == multiset(gs)
  {
    if gs == [] then []
    else
      assert gs == [gs[0]] + gs[1..];
      Insert(gs[0], Sort(gs[1..], key, order), key, order)
  }

  lemma {:induction false} InsertSorted(g: UserByCompany, s: seq<UserByCompany>, key: SortBy, order: SortOrder)
    requires Sorted(s, key, order)
    ensures Sorted(Insert(g, s, key, order), key, order)
  {
    var r := Insert(g, s, key, order);
    if s == [] || InOrder(g, s[0], key, order) {
      forall j | 1 <= j < |r| ensures InOrder(g, r[j], key, order) {
        if j > 1 { InOrderTransitive(g, s[0], s[j - 1], key, order); }
      }
    } else {
      var rest := Insert(g, s[1..], key, order);
      InsertSorted(g, s[1..], key, order);
      InOrderTotal(g, s[0], key, order);
      forall j | 0 <= j < |rest| ensures InOrder(s[0], rest[j], key, order) {
        assert rest[j] in multiset(rest);
        if rest[j] != g {
          assert rest[j] in s[1..];
        }
      }
      assert r == [s[0]] + rest;
    }
  }

  lemma {:induction false} SortSorted(gs: seq<UserByCompany>, key: SortBy, order: SortOrder)
    ensures Sorted(Sort(gs, key, order), key, order)
  {
    if gs != [] {
      SortSorted(gs[1..], key, order);
      InsertSorted(gs[0], Sort(gs[1..], key, order), key, order);
    }
  }

  lemma {:induction false} InsertKeepsKeysDistinct(g: UserByCompany, s: seq<UserByCompany>, key: SortBy, order: SortOrder)
    requires DistinctKeys(s)
    requires forall x | x in s :: x.company != g.company
    ensures DistinctKeys(Insert(g, s, key, order))
  {
    if !(s == [] || InOrder(g, s[0], key, order)) {
      var rest := Insert(g, s[1..], key, order);
      InsertKeepsKeysDistinct(g, s[1..], key, order);
      forall j | 0 <= j < |rest| ensures rest[j].company != s[0].company {
        assert rest[j] in multiset(rest);
        if rest[j] != g {
          var k :| 0 <= k < |s[1..]| && s[1..][k] == rest[j];
          assert s[k + 1] == rest[j];
        }
      }
    }
  }

  lemma {:induction false} SortKeepsKeysDistinct(gs: seq<UserByCompany>, key: SortBy, order: SortOrder)
    requires DistinctKeys(gs)
    ensures DistinctKeys(Sort(gs, key, order))
  {
    if gs != [] {
      SortKeepsKeysDistinct(gs[1..], key, order);
      var sorted := Sort(gs[1..], key, order);
      forall x | x in sorted ensures x.company != gs[0].company {
        assert x in multiset(sorted);
        var k :| 0 <= k < |gs[1..]| && gs[1..][k] == x;
        assert gs[k + 1] == x;
      }
      InsertKeepsKeysDistinct(gs[0], sorted, key, order);
    }
  }

  // ---------------------------------------------------------------------
  // The operation

  /** What the result of grouping `us` must be. */
  predicate IsGroupingOf(r: seq<UserByCompany>, us: seq<User>, key: SortBy, order: SortOrder) {
    && (forall i | 0 <= i < |r| ::
          r[i].users == UsersOf(us, r[i].company) && r[i].count == |r[i].users| && r[i].users != [])
    && (forall u | u in us :: exists i | 0 <= i < |r| :: r[i].company == u.company)
    && DistinctKeys(r)
    && Sorted(r, key, order)
  }

  /** The unsorted groups, one per company. */
  function Groups(us: seq<User>): (gs: seq<UserByCompany>)
    ensures forall g | g in gs :: g.users == UsersOf(us, g.company) && g.count == |g.users| && g.users != []
    ensures forall u | u in us :: exists g | g in gs :: g.company == u.company
    ensures DistinctKeys(gs)
  {
    var cs := CompaniesOf(us);
    var gs := seq(|cs|, i requires 0 <= i < |cs| => Group(us, cs[i]));
    assert forall u | u in us :: Group(us, u.company) in gs by {
      forall u | u in us ensures Group(us, u.company) in gs {
        var k :| 0 <= k < |cs| && cs[k] == u.company;
        assert gs[k] == Group(us, u.company);
      }
    }
    gs
  }

  function GroupByCompany(us: seq<User>, key: SortBy, order: SortOrder): (r: seq<UserByCompany>)
  {
    Sort(Groups(us), key, order)
  }

  /** One entry per company, each holding exactly that company's users with
      their number, sorted as requested. */
  lemma GroupByCompanyCorrect(us: seq<User>, key: SortBy, order: SortOrder)
    ensures IsGroupingOf(GroupByCompany(us, key, order), us, key, order)
  {
    var gs := Groups(us);
    var r := Sort(gs, key, order);
    SortKeepsKeysDistinct(gs, key, order);
    SortSorted(gs, key, order);
    forall i | 0 <= i < |r|
      ensures r[i].users == UsersOf(us, r[i].company) && r[i].count == |r[i].users| && r[i].users != []
    {
      assert r[i] in multiset(gs);
    }
    forall u | u in us ensures exists i | 0 <= i < |r| :: r[i].company == u.company {
      var g :| g in gs && g.company == u.company;
      assert g in multiset(r);
      var i :| 0 <= i < |r| && r[i] == g;
    }
  }

  /** Sorted by company, the names strictly ascend (or descend): one entry per name. */
  lemma ByCompanyStrict(us: seq<User>, order: SortOrder, i: int, j: int)
    requires 0 <= i < j < |GroupByCompany(us, ByCompany, order)|
    ensures var r := GroupByCompany(us, ByCompany, order);
      r[i].company != r[j].company &&
      if order == Ascending then KeyLe(r[i].company, r[j].company) else KeyLe(r[j].company, r[i].company)
  {
    GroupByCompanyCorrect(us, ByCompany, order);
  }
}

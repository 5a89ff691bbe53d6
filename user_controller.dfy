/**
 * The server's user controller, as far as its unit tests pin it down:
 * reading the query parameters of getUsers, filtering users, checking the
 * body of addNewUser, and building the Gravatar link of a new user.
 * The store itself (getUser, addNewUser, deleteUser) is in module Store.
 *
 * The age limits, the email rule and the role rule are not fixed by the tests
 * beyond a few sample points, so they are parameters (Rules) and FitsTests states the
 * sample points every admissible choice must respect.
 */
module UserController {
  import opened Wrappers
  import opened Seqs
  import opened ServerUser

  // ---------------------------------------------------------------------
  // The rules the tests pin only at sample points

  /** An inclusive range of accepted ages. */
  datatype AgeBounds = AgeBounds(min: int, max: int)

  predicate AgeAdmitted(b: AgeBounds, age: int) {
    b.min <= age <= b.max
  }

  /** The limits on a queried age, which role texts a query may ask for, the
      limits on a new user's age, and which emails and which role texts a new
      user may have. */
  datatype Rules = Rules(queryAge: AgeBounds, queryRole: string -> bool, newUserAge: AgeBounds,
                         legalEmail: string -> bool, legalRole: string -> bool)

  /** What the tests require of the rules: a query for age 37 is served while
      -1 and 151 are refused; a query for the role "viewer" is served; a new user of age 25 is taken while -17 and 150
      are refused; "test@example.com" is a legal email and "invalidemail" is not;
      "viewer" is a legal role and "invalidrole" is not. */
  predicate FitsTests(rules: Rules) {
    && AgeAdmitted(rules.queryAge, 37)
    && !AgeAdmitted(rules.queryAge, -1) && !AgeAdmitted(rules.queryAge, 151)
    && rules.queryRole("viewer")
    && AgeAdmitted(rules.newUserAge, 25)
    && !AgeAdmitted(rules.newUserAge, -17) && !AgeAdmitted(rules.newUserAge, 150)
    && rules.legalEmail("test@example.com") && !rules.legalEmail("invalidemail")
    && rules.legalRole("viewer") && !rules.legalRole("invalidrole")
  }

  // ---------------------------------------------------------------------
  // Integer.parseInt, used to read the age query parameter

  predicate IsDigit(c: char) {
    '0' <= c <= '9'
  }

  predicate AllDigits(s: string) {
    forall i | 0 <= i < |s| :: IsDigit(s[i])
  }

  function DigitsValue(s: string): nat
    requires AllDigits(s)
    decreases |s|
  {
    if s == [] then 0 else DigitsValue(s[..|s| - 1]) * 10 + (s[|s| - 1] as int - '0' as int)
  }

  /** Integer.parseInt(s): an optional sign, at least one decimal digit, and a
      value that fits a Java int; anything else is a NumberFormatException (None). */
  function ParseInt(s: string): (r: Option<int>)
    ensures r.Some? ==> IsInt32(r.value)
  {
    var signed := |s| > 0 && (s[0] == '-' || s[0] == '+');
    var digits := if signed then s[1..] else s;
    if digits == [] || !AllDigits(digits) then None
    else
      var n: int := if signed && s[0] == '-' then -(DigitsValue(digits) as int) else DigitsValue(digits);
      if IsInt32(n) then Some(n) else None
  }

  /** The decimal digits of n, most significant first. */
  function Decimal(n: nat): (s: string)
    ensures |s| > 0 && AllDigits(s)
    decreases n
  {
    if n < 10 then [('0' as int + n) as char]
    else Decimal(n / 10) + [('0' as int + n % 10) as char]
  }

  /** Integer.toString(n), the way the tests write an age into a query. */
  function IntToString(n: int): string {
    if n < 0 then "-" + Decimal(-n) else Decimal(n)
  }

  lemma {:induction false} DecimalValue(n: nat)
    ensures DigitsValue(Decimal(n)) == n
    decreases n
  {
    if n >= 10 {
      DecimalValue(n / 10);
      var s := Decimal(n);
      assert s[..|s| - 1] == Decimal(n / 10);
    }
  }

  /** Every Java int survives toString followed by parseInt. */
  lemma ParseIntRoundTrip(n: int)
    requires IsInt32(n)
    ensures ParseInt(IntToString(n)) == Some(n)
  {
    var s := IntToString(n);
    if n < 0 {
      var d := Decimal(-n);
      DecimalValue(-n);
      assert s == "-" + d;
      assert s[0] == '-' && s[1..] == d;
    } else {
      var d := Decimal(n);
      DecimalValue(n);
      assert s == d;
      assert IsDigit(d[0]);
    }
  }

  lemma ParseIntSamplePoints()
    ensures ParseInt("37") == Some(37)
    ensures ParseInt("-1") == Some(-1)
    ensures ParseInt("151") == Some(151)
    ensures ParseInt("bad integer string") == None
  {
    assert "37"[..1] == "3" && "3"[..0] == "";
    assert DigitsValue("37") == 37;
    assert "-1"[1..] == "1" && "1"[..0] == "";
    assert DigitsValue("1") == 1;
    assert "151"[..2] == "15" && "15"[..1] == "1";
    assert DigitsValue("151") == 151;
    assert !IsDigit("bad integer string"[0]);
  }

  // ---------------------------------------------------------------------
  // getUsers: query parameters

  /** The age, role and company query parameters, each possibly absent. */
  datatype QueryParams = QueryParams(age: Option<string>, role: Option<string>, company: Option<string>)

  const NoParams: QueryParams := QueryParams(None, None, None)

  /** The constraints a query puts on the users it returns. */
  datatype Filter = Filter(age: Option<int>, role: Option<string>, company: Option<string>)

  const NoFilter: Filter := Filter(None, None, None)

  /** An age parameter that is not a number (NumberFormatException) or not an
      acceptable age, or a role parameter that is not a legal role. */
  datatype QueryError = AgeNotANumber(input: string) | AgeOutOfRange(input: string) | RoleNotLegal(input: string)

  /** The message reported for a refused parameter; it quotes the offending text. */
  function QueryErrorMessage(e: QueryError): (m: string)
    ensures IsSubstring(e.input, m)
  {
    match e
    case AgeNotANumber(t) =>
      SubstringOfConcat("For input string: \"", t, "\"");
      "For input string: \"" + t + "\""
    case AgeOutOfRange(t) =>
      SuffixIsSubstring("User's age must be an acceptable age; the request asked for ", t);
      "User's age must be an acceptable age; the request asked for " + t
    case RoleNotLegal(t) =>
      SuffixIsSubstring("User's role must be a legal role; the request asked for ", t);
      "User's role must be a legal role; the request asked for " + t
  }

  /** An age parameter is refused when it does not parse or is not admitted. */
  predicate AgeRefused(age: Option<string>, rules: Rules) {
    age.Some? && (ParseInt(age.value).None? || !AgeAdmitted(rules.queryAge, ParseInt(age.value).value))
  }

  /** A role parameter is refused when the role rule does not take it. */
  predicate RoleRefused(role: Option<string>, rules: Rules) {
    role.Some? && !rules.queryRole(role.value)
  }

  /** Reads the query parameters: the age must parse and be admitted, the role
      must be one the role rule takes, and the company is taken as given. The
      age is looked at first. */
  function ParseFilter(p: QueryParams, rules: Rules): (r: Result<Filter, QueryError>)
    ensures r.Success? ==> r.value.role == p.role && r.value.company == p.company
    ensures r.Success? && p.age.None? ==> r.value.age.None?
    ensures r.Success? && p.age.Some? ==>
      r.value.age.Some? && ParseInt(p.age.value) == r.value.age && AgeAdmitted(rules.queryAge, r.value.age.value)
    ensures r.Failure? <==> AgeRefused(p.age, rules) || RoleRefused(p.role, rules)
    ensures AgeRefused(p.age, rules) ==>
      && r.Failure? && r.error.input == p.age.value && !r.error.RoleNotLegal?
      && (r.error.AgeNotANumber? <==> ParseInt(p.age.value).None?)
    ensures !AgeRefused(p.age, rules) && RoleRefused(p.role, rules) ==> r == Failure(RoleNotLegal(p.role.value))
  {
    match p.age
    case None =>
      if RoleRefused(p.role, rules) then Failure(RoleNotLegal(p.role.value))
      else Success(Filter(None, p.role, p.company))
    case Some(text) =>
      match ParseInt(text)
      case None => Failure(AgeNotANumber(text))
      case Some(n) =>
        if !AgeAdmitted(rules.queryAge, n) then Failure(AgeOutOfRange(text))
        else if RoleRefused(p.role, rules) then Failure(RoleNotLegal(p.role.value))
        else Success(Filter(Some(n), p.role, p.company))
  }

  /** The tested query ages under every admissible choice of rules. */
  lemma QueryAgeSamplePoints(rules: Rules)
    requires FitsTests(rules)
    ensures ParseFilter(QueryParams(Some("37"), None, None), rules) == Success(Filter(Some(37), None, None))
    ensures ParseFilter(QueryParams(Some("bad integer string"), None, None), rules)
      == Failure(AgeNotANumber("bad integer string"))
    ensures ParseFilter(QueryParams(Some("-1"), None, None), rules) == Failure(AgeOutOfRange("-1"))
    ensures ParseFilter(QueryParams(Some("151"), None, None), rules) == Failure(AgeOutOfRange("151"))
  {
    ParseIntSamplePoints();
  }

  /** The tested role query is served under every admissible choice of rules. */
  lemma QueryRoleSamplePoint(rules: Rules)
    requires FitsTests(rules)
    ensures ParseFilter(QueryParams(None, Some("viewer"), None), rules) == Success(Filter(None, Some("viewer"), None))
  {
  }

  // ---------------------------------------------------------------------
  // getUsers: matching

  /** Case folding of a case-insensitive regular expression: ASCII letters only. */
  function LowerAscii(c: char): char {
    if IsUpperAscii(c) then (c as int + 32) as char else c
  }

  predicate IsUpperAscii(c: char) {
    'A' <= c <= 'Z'
  }

  /** No upper-case ASCII letter is left, and every other character is kept. */
  function Lower(s: string): (r: string)
    ensures |r| == |s|
    ensures forall i | 0 <= i < |r| :: !IsUpperAscii(r[i])
    ensures forall i | 0 <= i < |s| && !IsUpperAscii(s[i]) :: r[i] == s[i]
  {
    seq(|s|, i requires 0 <= i < |s| => LowerAscii(s[i]))
  }

  predicate ContainsIgnoringCase(s: string, t: string) {
    IsSubstring(Lower(t), Lower(s))
  }

  /** A user satisfies a filter: the exact age, the exact role, and a company
      containing the requested text regardless of case. */
  predicate Matches(f: Filter, u: User) {
    && (f.age.None? || u.age == f.age.value)
    && (f.role.None? || u.role == f.role)
    && (f.company.None? || (u.company.Some? && ContainsIgnoringCase(u.company.value, f.company.value)))
  }

  /** The user, if it satisfies the filter. */
  function Keep(f: Filter, u: User): seq<User> {
    if Matches(f, u) then [u] else []
  }

  /** The users that satisfy the filter, in their original order. */
  function FilterUsers(us: seq<User>, f: Filter): (r: seq<User>)
    ensures |r| <= |us|
  {
    if us == [] then []
    else Keep(f, us[0]) + FilterUsers(us[1..], f)
  }

  /** A user is in the result exactly when it is in the input and satisfies the filter. */
  lemma {:induction false} FilterUsersMembers(us: seq<User>, f: Filter)
    ensures forall u :: u in FilterUsers(us, f) <==> u in us && Matches(f, u)
  {
    if us != [] {
      FilterUsersMembers(us[1..], f);
      assert us == [us[0]] + us[1..];
    }
  }

  /** No parameters: every user, in order. */
  lemma {:induction false} FilterWithoutParams(us: seq<User>)
    ensures FilterUsers(us, NoFilter) == us
  {
    if us != [] {
      FilterWithoutParams(us[1..]);
      assert us == [us[0]] + us[1..];
    }
  }

  /** Filtering twice with the same parameters changes nothing. */
  lemma FilterIdempotent(us: seq<User>, f: Filter)
    ensures FilterUsers(FilterUsers(us, f), f) == FilterUsers(us, f)
  {
    FilterComposes(us, f, f, f);
  }

  /** Filtering by f and then by g is filtering once by h, whenever h asks for both. */
  lemma {:induction false} FilterComposes(us: seq<User>, f: Filter, g: Filter, h: Filter)
    requires forall u :: Matches(h, u) <==> Matches(f, u) && Matches(g, u)
    ensures FilterUsers(FilterUsers(us, f), g) == FilterUsers(us, h)
  {
    if us != [] {
      FilterComposes(us[1..], f, g, h);
      var u, rest := us[0], FilterUsers(us[1..], f);
      assert Matches(h, u) <==> Matches(f, u) && Matches(g, u);
      assert FilterUsers(us, h) == Keep(h, u) + FilterUsers(us[1..], h);
      if Matches(f, u) {
        assert FilterUsers(us, f) == [u] + rest;
        assert ([u] + rest)[0] == u;
        assert ([u] + rest)[1..] == rest;
        assert FilterUsers([u] + rest, g) == Keep(g, u) + FilterUsers(rest, g);
      } else {
        assert FilterUsers(us, f) == rest;
      }
    }
  }

  /** Combined parameters intersect: age, then role, then company. */
  lemma FilterCombines(us: seq<User>, f: Filter)
    ensures FilterUsers(us, f) ==
      FilterUsers(FilterUsers(FilterUsers(us, Filter(f.age, None, None)), Filter(None, f.role, None)),
                  Filter(None, None, f.company))
  {
    var a, r, c := Filter(f.age, None, None), Filter(None, f.role, None), Filter(None, None, f.company);
    var ar := Filter(f.age, f.role, None);
    FilterComposes(us, a, r, ar);
    FilterComposes(us, ar, c, f);
  }

  lemma {:induction false} FilterDistinct(us: seq<User>, f: Filter)
    requires Distinct(us)
    ensures Distinct(FilterUsers(us, f))
  {
    if us != [] {
      assert Distinct(us[1..]);
      FilterDistinct(us[1..], f);
      FilterUsersMembers(us[1..], f);
      assert us[0] !in us[1..];
    }
  }

  // The four stored users of the tests (their avatars play no part in filtering and are left empty).
  const Chris: User := User(None, Some("Chris"), 25, Some("UMM"), Some("chris@this.that"), None, Some("admin"))
  const Pat: User := User(None, Some("Pat"), 37, Some("IBM"), Some("pat@something.com"), None, Some("editor"))
  const Jamie: User := User(None, Some("Jamie"), 37, Some("OHMNET"), Some("jamie@frogs.com"), None, Some("viewer"))
  const Sam: User := User(None, Some("Sam"), 45, Some("OHMNET"), Some("sam@frogs.com"), None, Some("viewer"))

  lemma CompanySamplePoints()
    ensures ContainsIgnoringCase("OHMNET", "ohm") && ContainsIgnoringCase("OHMNET", "OHMNET")
    ensures !ContainsIgnoringCase("UMM", "ohm") && !ContainsIgnoringCase("IBM", "ohm")
    ensures !ContainsIgnoringCase("UMM", "OHMNET") && !ContainsIgnoringCase("IBM", "OHMNET")
  {
    assert Lower("OHMNET") == "ohmnet" && Lower("ohm") == "ohm" && Lower("UMM") == "umm" && Lower("IBM") == "ibm";
    assert OccursAt("ohm", "ohmnet", 0) && OccursAt("ohmnet", "ohmnet", 0);
    assert "umm"[0..3] == "umm" && "ibm"[0..3] == "ibm";
  }

  /** The company query is matched regardless of case: two queries that agree
      once case is folded select the same users, ... */
  lemma CompanyQueryIgnoresCase(age: Option<int>, role: Option<string>, t1: string, t2: string, u: User)
    requires Lower(t1) == Lower(t2)
    ensures Matches(Filter(age, role, Some(t1)), u) <==> Matches(Filter(age, role, Some(t2)), u)
  {
  }

  /** ... as do two stored companies that agree once case is folded, ... */
  lemma StoredCompanyIgnoresCase(f: Filter, u: User, c1: string, c2: string)
    requires Lower(c1) == Lower(c2)
    ensures Matches(f, u.(company := Some(c1))) <==> Matches(f, u.(company := Some(c2)))
  {
  }

  /** ... so a query selects the same users as its lower-case form. */
  lemma LowerCaseQuerySelectsTheSame(f: Filter, u: User)
    requires f.company.Some?
    ensures Matches(f, u) <==> Matches(f.(company := Some(Lower(f.company.value))), u)
  {
    var t := f.company.value;
    assert Lower(Lower(t)) == Lower(t);
  }

  lemma FilterCons(u: User, us: seq<User>, f: Filter)
    ensures FilterUsers([u] + us, f) == Keep(f, u) + FilterUsers(us, f)
  {
    assert ([u] + us)[1..] == us;
  }

  lemma FilterOfFour(a: User, b: User, c: User, d: User, f: Filter)
    ensures FilterUsers([a, b, c, d], f) == Keep(f, a) + (Keep(f, b) + (Keep(f, c) + Keep(f, d)))
  {
    FilterCons(d, [], f);
    FilterCons(c, [d], f);
    FilterCons(b, [c, d], f);
    FilterCons(a, [b, c, d], f);
    assert [a, b, c, d] == [a] + [b, c, d] && [b, c, d] == [b] + [c, d] && [c, d] == [c] + [d] && [d] == [d] + [];
    assert Keep(f, d) + [] == Keep(f, d);
  }

  /** The test queries over the test data. */
  lemma FilterSamplePoints()
    ensures FilterUsers([Chris, Pat, Jamie, Sam], Filter(Some(37), None, None)) == [Pat, Jamie]
    ensures FilterUsers([Chris, Pat, Jamie, Sam], Filter(None, Some("viewer"), None)) == [Jamie, Sam]
    ensures FilterUsers([Chris, Pat, Jamie, Sam], Filter(None, None, Some("ohm"))) == [Jamie, Sam]
    ensures FilterUsers([Chris, Pat, Jamie, Sam], Filter(Some(37), None, Some("OHMNET"))) == [Jamie]
  {
    CompanySamplePoints();
    FilterOfFour(Chris, Pat, Jamie, Sam, Filter(Some(37), None, None));
    FilterOfFour(Chris, Pat, Jamie, Sam, Filter(None, Some("viewer"), None));
    FilterOfFour(Chris, Pat, Jamie, Sam, Filter(None, None, Some("ohm")));
    FilterOfFour(Chris, Pat, Jamie, Sam, Filter(Some(37), None, Some("OHMNET")));
  }

  /** The messages of the three refused test queries quote the offending text. */
  lemma QueryErrorSamplePoints(rules: Rules)
    requires FitsTests(rules)
    ensures var r := ParseFilter(QueryParams(Some("bad integer string"), None, None), rules);
      r.Failure? && IsSubstring("bad integer string", QueryErrorMessage(r.error))
    ensures var r := ParseFilter(QueryParams(Some("-1"), None, None), rules);
      r.Failure? && IsSubstring("-1", QueryErrorMessage(r.error))
    ensures var r := ParseFilter(QueryParams(Some("151"), None, None), rules);
      r.Failure? && IsSubstring("151", QueryErrorMessage(r.error))
  {
    QueryAgeSamplePoints(rules);
  }

  // ---------------------------------------------------------------------
  // getUser and deleteUser: ids

  predicate IsHexDigit(c: char) {
    '0' <= c <= '9' || 'a' <= c <= 'f' || 'A' <= c <= 'F'
  }

  /** The text form of a Mongo ObjectId: 24 hexadecimal digits. */
  predicate LegalObjectId(s: string) {
    |s| == 24 && forall i | 0 <= i < |s| :: IsHexDigit(s[i])
  }

  /** The form a stored id takes: an ObjectId written with lower-case digits,
      as ObjectId.toHexString writes it. */
  predicate CanonicalObjectId(s: string) {
    LegalObjectId(s) && Lower(s) == s
  }

  /** Hexadecimal digits are read regardless of case, so every legal id text
      names the ObjectId whose canonical text is its lower-case form. */
  lemma LowerIsCanonical(s: string)
    requires LegalObjectId(s)
    ensures CanonicalObjectId(Lower(s))
  {
    var t := Lower(s);
    forall i | 0 <= i < |t| ensures IsHexDigit(t[i]) {
      assert t[i] == LowerAscii(s[i]);
    }
    assert Lower(t) == t;
  }

  /** The upper-case spelling of the tested id names the same ObjectId. */
  lemma UpperCaseIdSamplePoint()
    ensures LegalObjectId("588935F5C668650DC77DF581")
    ensures Lower("588935F5C668650DC77DF581") == "588935f5c668650dc77df581"
  {
  }

  lemma IdSamplePoints()
    ensures !LegalObjectId("bad")
    ensures LegalObjectId("588935f5c668650dc77df581")
    ensures CanonicalObjectId("588935f5c668650dc77df581")
    ensures Lower("588935F5C668650DC77DF581") == "588935f5c668650dc77df581"
  {
    UpperCaseIdSamplePoint();
    var s := "588935f5c668650dc77df581";
    assert forall i | 0 <= i < |s| :: !IsUpperAscii(s[i]);
    assert Lower(s) == s;
  }

  // ---------------------------------------------------------------------
  // addNewUser: checking the body

  /** A request body: its text, and the User it binds to (None when it cannot
      be bound, as when the age is a string that is not a number). */
  datatype RequestBody = RequestBody(text: string, bound: Option<User>)

  /** The checks run on a bound body, in the order they are reported. */
  datatype Check = NameCheck | EmailCheck | AgeCheck | RoleCheck | CompanyCheck

  const Checks: seq<Check> := [NameCheck, EmailCheck, AgeCheck, RoleCheck, CompanyCheck]

  function Rank(c: Check): nat {
    match c
    case NameCheck => 0
    case EmailCheck => 1
    case AgeCheck => 2
    case RoleCheck => 3
    case CompanyCheck => 4
  }

  datatype NewUserError = Unbindable(body: string) | CheckFailed(check: Check, body: string)

  predicate Passes(c: Check, u: User, rules: Rules) {
    match c
    case NameCheck => u.name.Some? && |u.name.value| > 0
    case EmailCheck => u.email.Some? && rules.legalEmail(u.email.value)
    case AgeCheck => AgeAdmitted(rules.newUserAge, u.age)
    case RoleCheck => u.role.Some? && rules.legalRole(u.role.value)
    case CompanyCheck => u.company.Some? && |u.company.value| > 0
  }

  predicate RankOrdered(errs: seq<NewUserError>)
    requires forall e | e in errs :: e.CheckFailed?
  {
    forall i, j | 0 <= i < j < |errs| :: Rank(errs[i].check) < Rank(errs[j].check)
  }

  /** The error one check contributes: none, or one naming the check. */
  function Outcome(c: Check, u: User, rules: Rules, body: string): seq<NewUserError> {
    if Passes(c, u, rules) then [] else [CheckFailed(c, body)]
  }

  /** The failures among the checks from position k of Checks on, in that order. */
  function FailedFrom(k: nat, u: User, rules: Rules, body: string): seq<NewUserError>
    requires k <= |Checks|
    decreases |Checks| - k
  {
    if k == |Checks| then [] else Outcome(Checks[k], u, rules, body) + FailedFrom(k + 1, u, rules, body)
  }

  /** Everything FailedFrom reports from position k on is a failing check at or after k. */
  lemma {:induction false} FailedFromSound(k: nat, u: User, rules: Rules, body: string)
    requires k <= |Checks|
    ensures forall e | e in FailedFrom(k, u, rules, body) ::
      e.CheckFailed? && e.body == body && k <= Rank(e.check) && !Passes(e.check, u, rules)
    decreases |Checks| - k
  {
    if k < |Checks| {
      FailedFromSound(k + 1, u, rules, body);
      assert Rank(Checks[k]) == k;
    }
  }

  /** Every failing check at or after position k is reported by FailedFrom. */
  lemma {:induction false} FailedFromComplete(k: nat, u: User, rules: Rules, body: string)
    requires k <= |Checks|
    ensures forall c: Check | k <= Rank(c) && !Passes(c, u, rules) :: CheckFailed(c, body) in FailedFrom(k, u, rules, body)
    decreases |Checks| - k
  {
    if k < |Checks| {
      FailedFromComplete(k + 1, u, rules, body);
      var c := Checks[k];
      assert Rank(c) == k;
      assert forall d: Check | k <= Rank(d) :: d == c || k + 1 <= Rank(d);
    }
  }

  /** FailedFrom reports its checks in rank order. */
  lemma {:induction false} FailedFromOrdered(k: nat, u: User, rules: Rules, body: string)
    requires k <= |Checks|
    ensures forall e | e in FailedFrom(k, u, rules, body) :: e.CheckFailed?
    ensures RankOrdered(FailedFrom(k, u, rules, body))
    decreases |Checks| - k
  {
    FailedFromSound(k, u, rules, body);
    if k < |Checks| {
      FailedFromOrdered(k + 1, u, rules, body);
      FailedFromSound(k + 1, u, rules, body);
      assert Rank(Checks[k]) == k;
      var o, rest := Outcome(Checks[k], u, rules, body), FailedFrom(k + 1, u, rules, body);
      var errs := o + rest;
      assert FailedFrom(k, u, rules, body) == errs;
      forall i, j | 0 <= i < j < |errs| ensures Rank(errs[i].check) < Rank(errs[j].check) {
        assert errs[j] == rest[j - |o|] && errs[j] in rest;
        if i >= |o| {
          assert errs[i] == rest[i - |o|];
        }
      }
    }
  }

  /** FailedFrom reports each failing check from position k on, once, in rank order, and nothing else. */
  lemma FailedFromReports(k: nat, u: User, rules: Rules, body: string)
    requires k <= |Checks|
    ensures var errs := FailedFrom(k, u, rules, body);
      && (forall e | e in errs ::
            e.CheckFailed? && e.body == body && k <= Rank(e.check) && !Passes(e.check, u, rules))
      && (forall c: Check | k <= Rank(c) && !Passes(c, u, rules) :: CheckFailed(c, body) in errs)
      && RankOrdered(errs)
  {
    FailedFromSound(k, u, rules, body);
    FailedFromComplete(k, u, rules, body);
    FailedFromOrdered(k, u, rules, body);
  }

  /** Every failed check is reported, together, in a fixed order; an unbindable
      body gives one error. The list is empty exactly when the body is acceptable. */
  function ValidateNewUser(body: RequestBody, rules: Rules): (errs: seq<NewUserError>)
    ensures body.bound.None? ==> errs == [Unbindable(body.text)]
    ensures body.bound.Some? ==>
      && (forall e | e in errs :: e.CheckFailed? && e.body == body.text)
      && (forall c: Check :: CheckFailed(c, body.text) in errs <==> !Passes(c, body.bound.value, rules))
      && RankOrdered(errs)
  {
    match body.bound
    case None => [Unbindable(body.text)]
    case Some(u) =>
      FailedFromReports(0, u, rules, body.text);
      FailedFrom(0, u, rules, body.text)
  }

  /** The five checks written out in their order. */
  lemma FiveChecks(u: User, rules: Rules, text: string)
    ensures ValidateNewUser(RequestBody(text, Some(u)), rules) ==
      Outcome(NameCheck, u, rules, text) + (Outcome(EmailCheck, u, rules, text) + (Outcome(AgeCheck, u, rules, text) +
      (Outcome(RoleCheck, u, rules, text) + Outcome(CompanyCheck, u, rules, text))))
  {
    var company := Outcome(CompanyCheck, u, rules, text);
    assert FailedFrom(5, u, rules, text) == [];
    assert FailedFrom(4, u, rules, text) == company + [];
    assert company + [] == company;
  }

  /** What each check demands of the request. */
  function Requirement(c: Check): string {
    match c
    case NameCheck => "User must have a " + "non-empty user name"
    case EmailCheck => "User must have a " + "legal email"
    case AgeCheck => "User's age must be " + "an acceptable age"
    case RoleCheck => "User must have a " + "legal user role"
    case CompanyCheck => "User must have a " + "non-empty company name"
  }

  /** The message of an error: the requirement and the body it was checked on. */
  function ErrorMessage(e: NewUserError): (m: string)
    ensures IsSubstring(e.body, m)
    ensures e.CheckFailed? ==> IsSubstring(Requirement(e.check), m)
  {
    match e
    case Unbindable(b) =>
      SuffixIsSubstring("Unable to read the request body: ", b);
      "Unable to read the request body: " + b
    case CheckFailed(c, b) =>
      var lead := Requirement(c) + "; body was ";
      SuffixIsSubstring(lead, b);
      PrefixIsSubstring(Requirement(c), "; body was ");
      PrefixIsSubstring(lead, b);
      SubstringTransitive(Requirement(c), lead, lead + b);
      lead + b
  }

  /** Whatever the body contains reappears in every message about it. */
  lemma MessagesQuoteTheBody(e: NewUserError, x: string)
    requires IsSubstring(x, e.body)
    ensures IsSubstring(x, ErrorMessage(e))
  {
    SubstringTransitive(x, e.body, ErrorMessage(e));
  }

  lemma RequirementPhrases()
    ensures IsSubstring("non-empty user name", Requirement(NameCheck))
    ensures IsSubstring("non-empty company name", Requirement(CompanyCheck))
  {
    SubstringOfConcat("User must have a ", "non-empty user name", "");
    SubstringOfConcat("User must have a ", "non-empty company name", "");
    assert "User must have a " + "non-empty user name" + "" == Requirement(NameCheck);
    assert "User must have a " + "non-empty company name" + "" == Requirement(CompanyCheck);
  }

  /** The user the addNewUser tests start from. */
  const TestUser: User :=
    User(None, Some("Test User"), 25, Some("testers"), Some("test@example.com"), None, Some("viewer"))

  /** When exactly one check fails, exactly one error is reported. */
  lemma OnlyFailure(u: User, rules: Rules, text: string, c: Check)
    requires !Passes(c, u, rules)
    requires forall d: Check | d != c :: Passes(d, u, rules)
    ensures ValidateNewUser(RequestBody(text, Some(u)), rules) == [CheckFailed(c, text)]
  {
    FiveChecks(u, rules, text);
    assert Outcome(c, u, rules, text) == [CheckFailed(c, text)];
    assert forall d: Check | d != c :: Outcome(d, u, rules, text) == [];
  }

  /** The body of the successful addNewUser test passes every check. */
  lemma AcceptsTestUser(rules: Rules, text: string)
    requires FitsTests(rules)
    ensures ValidateNewUser(RequestBody(text, Some(TestUser)), rules) == []
  {
    FiveChecks(TestUser, rules, text);
  }

  lemma RejectsIllegalEmail(rules: Rules, text: string)
    requires FitsTests(rules)
    ensures ValidateNewUser(RequestBody(text, Some(TestUser.(email := Some("invalidemail")))), rules)
      == [CheckFailed(EmailCheck, text)]
  {
    OnlyFailure(TestUser.(email := Some("invalidemail")), rules, text, EmailCheck);
  }

  lemma RejectsIllegalAges(rules: Rules, text: string)
    requires FitsTests(rules)
    ensures ValidateNewUser(RequestBody(text, Some(TestUser.(age := -17))), rules) == [CheckFailed(AgeCheck, text)]
    ensures ValidateNewUser(RequestBody(text, Some(TestUser.(age := 150))), rules) == [CheckFailed(AgeCheck, text)]
  {
    OnlyFailure(TestUser.(age := -17), rules, text, AgeCheck);
    OnlyFailure(TestUser.(age := 150), rules, text, AgeCheck);
  }

  lemma RejectsIllegalRole(rules: Rules, text: string)
    requires FitsTests(rules)
    ensures ValidateNewUser(RequestBody(text, Some(TestUser.(role := Some("invalidrole")))), rules)
      == [CheckFailed(RoleCheck, text)]
  {
    OnlyFailure(TestUser.(role := Some("invalidrole")), rules, text, RoleCheck);
  }

  lemma RejectsMissingName(rules: Rules, text: string)
    requires FitsTests(rules)
    ensures ValidateNewUser(RequestBody(text, Some(TestUser.(name := None))), rules) == [CheckFailed(NameCheck, text)]
    ensures ValidateNewUser(RequestBody(text, Some(TestUser.(name := Some("")))), rules)
      == [CheckFailed(NameCheck, text)]
  {
    OnlyFailure(TestUser.(name := None), rules, text, NameCheck);
    OnlyFailure(TestUser.(name := Some("")), rules, text, NameCheck);
  }

  lemma RejectsMissingCompany(rules: Rules, text: string)
    requires FitsTests(rules)
    ensures ValidateNewUser(RequestBody(text, Some(TestUser.(company := None))), rules)
      == [CheckFailed(CompanyCheck, text)]
  {
    OnlyFailure(TestUser.(company := None), rules, text, CompanyCheck);
  }

  /** The body of the two-error test: empty name and empty company. */
  const NoNameNoCompany: User := TestUser.(name := Some(""), company := Some(""))

  /** An empty name and an empty company give two errors, the name's first. */
  lemma NameBeforeCompany(rules: Rules, text: string)
    requires FitsTests(rules)
    ensures ValidateNewUser(RequestBody(text, Some(NoNameNoCompany)), rules)
      == [CheckFailed(NameCheck, text), CheckFailed(CompanyCheck, text)]
  {
    FiveChecks(NoNameNoCompany, rules, text);
  }

  /** The two messages of that test name the missing name and the missing company. */
  lemma NameBeforeCompanyMessages(rules: Rules, text: string)
    requires FitsTests(rules)
    ensures var errs := ValidateNewUser(RequestBody(text, Some(NoNameNoCompany)), rules);
      && |errs| == 2
      && IsSubstring("non-empty user name", ErrorMessage(errs[0]))
      && IsSubstring("non-empty company name", ErrorMessage(errs[1]))
  {
    NameBeforeCompany(rules, text);
    RequirementPhrases();
    SubstringTransitive("non-empty user name", Requirement(NameCheck), ErrorMessage(CheckFailed(NameCheck, text)));
    SubstringTransitive("non-empty company name", Requirement(CompanyCheck),
                        ErrorMessage(CheckFailed(CompanyCheck, text)));
  }

  // ---------------------------------------------------------------------
  // generateAvatar

  const GravatarPrefix: string := "https://gravatar.com/avatar/"
  const IdenticonSuffix: string := "?d=identicon"
  const MysteryPersonAvatar: string := "https://gravatar.com/avatar/?d=mp"

  /** The hash an identicon link carries, if it is one. */
  function AvatarHash(url: string): Option<string> {
    var p, q := |GravatarPrefix|, |IdenticonSuffix|;
    if |url| >= p + q && url[..p] == GravatarPrefix && url[|url| - q..] == IdenticonSuffix
    then Some(url[p..|url| - q])
    else None
  }

  /** generateAvatar: the identicon link for the email's md5 hash, or the
      "mystery person" image when md5 fails. md5 itself is not modelled. */
  function GenerateAvatar(email: string, md5: string -> Option<string>): (url: string)
    ensures AvatarHash(url) == md5(email)
    ensures md5(email).None? ==> url == MysteryPersonAvatar
    ensures |url| >= |GravatarPrefix| && url[..|GravatarPrefix|] == GravatarPrefix
  {
    match md5(email)
    case Some(h) =>
      var url := GravatarPrefix + h + IdenticonSuffix;
      assert url[..|GravatarPrefix|] == GravatarPrefix;
      assert url[|url| - |IdenticonSuffix|..] == IdenticonSuffix;
      assert url[|GravatarPrefix|..|url| - |IdenticonSuffix|] == h;
      url
    case None =>
      MysteryPersonAvatar
  }

  lemma AvatarSamplePoints(md5: string -> Option<string>, failing: string -> Option<string>)
    requires md5("test@example.com") == Some("md5hash")
    requires failing("test@example.com") == None
    ensures GenerateAvatar("test@example.com", md5) == "https://gravatar.com/avatar/md5hash?d=identicon"
    ensures GenerateAvatar("test@example.com", failing) == "https://gravatar.com/avatar/?d=mp"
  {
  }
}

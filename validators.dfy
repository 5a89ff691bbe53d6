/**
 * The client and the server judge a new user separately. The client checks
 * the JSON Type Definition of a user; the server runs the controller's checks
 * on the bound body. This module relates the two.
 */
module ClientServer {
  import opened Wrappers
  import opened Json
  import UserRoles
  import Client = UserSchema
  import Server = ServerUser
  import opened UserController

  /** The server-side binding of a user the client sends. */
  function ToServer(u: Client.User): (s: Server.User)
    ensures s.name == Some(u.name) && s.company == Some(u.company) && s.email == Some(u.email)
    ensures s.age == u.age && s.id == u.id && s.avatar == u.avatar
    ensures s.role.Some? && UserRoles.ParseRole(s.role.value) == Some(u.role)
  {
    Server.User(u.id, Some(u.name), u.age, Some(u.company), Some(u.email), u.avatar, Some(UserRoles.Name(u.role)))
  }

  /** The client's view of a server user whose text fields are present and whose role is known. */
  function FromServer(s: Server.User): (u: Client.User)
    requires s.name.Some? && s.company.Some? && s.email.Some? && s.role.Some?
    requires UserRoles.ParseRole(s.role.value).Some?
    ensures ToServer(u) == s
  {
    Client.User(s.id, s.name.value, s.age, s.company.value, s.email.value, s.avatar,
                UserRoles.ParseRole(s.role.value).value)
  }

  /** A client user the client accepts with age 150 ... */
  const Aged150: Client.User :=
    Client.User(None, "Test User", 150, "testers", "test@example.com", None, UserRoles.Viewer)

  /** ... and one with an empty company. */
  const NoCompany: Client.User :=
    Client.User(None, "Test User", 25, "", "test@example.com", None, UserRoles.Viewer)

  /** Age 150 passes the client's uint8 age and fails the server's age check
      under every choice of server rules the tests allow. */
  lemma Age150Disagrees(rules: Rules, text: string)
    requires FitsTests(rules)
    ensures Client.ValidateUser(Client.ToJson(Aged150))
    ensures ValidateNewUser(RequestBody(text, Some(ToServer(Aged150))), rules) == [CheckFailed(AgeCheck, text)]
  {
    Client.ToJsonRoundTrip(Aged150);
    assert ToServer(Aged150) == TestUser.(age := 150);
    RejectsIllegalAges(rules, text);
  }

  /** An empty company passes the client's string type and fails the server's
      company check, whatever the rules. */
  lemma EmptyCompanyDisagrees(u: Client.User, rules: Rules, text: string)
    requires u.company == "" && 0 <= u.age <= 255
    ensures Client.ValidateUser(Client.ToJson(u))
    ensures CheckFailed(CompanyCheck, text) in ValidateNewUser(RequestBody(text, Some(ToServer(u))), rules)
  {
    Client.ToJsonRoundTrip(u);
  }

  lemma NoCompanyDisagrees(rules: Rules, text: string)
    requires FitsTests(rules)
    ensures Client.ValidateUser(Client.ToJson(NoCompany))
    ensures ValidateNewUser(RequestBody(text, Some(ToServer(NoCompany))), rules) == [CheckFailed(CompanyCheck, text)]
  {
    Client.ToJsonRoundTrip(NoCompany);
    OnlyFailure(ToServer(NoCompany), rules, text, CompanyCheck);
  }

  /** When the server's lower age bound is not negative and every role text it
      takes is a literal of the client's role union, every user the server
      accepts is one the client accepts too: the server is the stricter judge. */
  lemma ServerAcceptedIsClientValid(rules: Rules, text: string, s: Server.User)
    requires FitsTests(rules) && 0 <= rules.newUserAge.min
    requires forall r | rules.legalRole(r) :: UserRoles.ParseRole(r).Some?
    requires ValidateNewUser(RequestBody(text, Some(s)), rules) == []
    ensures s.name.Some? && s.company.Some? && s.email.Some? && s.role.Some?
    ensures UserRoles.ParseRole(s.role.value).Some?
    ensures Client.ValidateUser(Client.ToJson(FromServer(s)))
  {
    var errs := ValidateNewUser(RequestBody(text, Some(s)), rules);
    assert CheckFailed(NameCheck, text) !in errs && CheckFailed(CompanyCheck, text) !in errs;
    assert CheckFailed(EmailCheck, text) !in errs && CheckFailed(RoleCheck, text) !in errs;
    assert CheckFailed(AgeCheck, text) !in errs;
    Client.ToJsonRoundTrip(FromServer(s));
  }

  /** Rules that fit every test but also take the role text "Viewer". */
  const LooseRoles: Rules :=
    Rules(AgeBounds(0, 120), (r: string) => r == "viewer", AgeBounds(0, 120), (e: string) => e == "test@example.com",
          (r: string) => r == "viewer" || r == "Viewer")

  /** LooseRoles meets every sample point of the tests. */
  lemma LooseRolesFitTests()
    ensures FitsTests(LooseRoles)
  {
    assert LooseRoles.legalEmail("test@example.com") && !LooseRoles.legalEmail("invalidemail");
    assert LooseRoles.legalRole("viewer") && !LooseRoles.legalRole("invalidrole");
    assert LooseRoles.queryRole("viewer");
  }

  /** The role hypothesis of ServerAcceptedIsClientValid is needed: under rules
      that fit the tests, the server may accept a role the client refuses. */
  lemma LooseRolesAcceptWhatClientRefuses(text: string)
    ensures FitsTests(LooseRoles)
    ensures ValidateNewUser(RequestBody(text, Some(TestUser.(role := Some("Viewer")))), LooseRoles) == []
    ensures UserRoles.ParseRole("Viewer").None?
  {
    LooseRolesFitTests();
    var u := TestUser.(role := Some("Viewer"));
    FiveChecks(u, LooseRoles, text);
    assert LooseRoles.legalEmail(u.email.value) && LooseRoles.legalRole(u.role.value);
    assert AgeAdmitted(LooseRoles.newUserAge, u.age);
  }
}

/**
 * The client's User record and userSchema, the JSON Type Definition that
 * validateUser is compiled from. ValidateUser is the schema run through the
 * RFC 8927 semantics of module Jtd; ValidUser is an independent description
 * of the same set of instances, and ValidateUserMeansValidUser connects the two.
 */
module UserSchema {
  import opened Json
  import opened Wrappers
  import Jtd
  import opened UserRoles

  /** The seven member names of userSchema. */
  const RequiredKeys: set<string> := {"name", "age", "company", "email", "role"}
  const OptionalKeys: set<string> := {"_id", "avatar"}

  const StringSchema: Jtd.Schema := Jtd.TypeForm(Jtd.StringType, false)

  /** userSchema: five required properties, two optional ones, and no
      additionalProperties member (so extra keys are refused). */
  const UserSchema: Jtd.Schema :=
    Jtd.PropertiesForm(
      [ Jtd.Property("name", StringSchema),
        Jtd.Property("age", Jtd.TypeForm(Jtd.Uint8, false)),
        Jtd.Property("company", StringSchema),
        Jtd.Property("email", StringSchema),
        Jtd.Property("role", RoleSchema) ],
      [ Jtd.Property("_id", StringSchema),
        Jtd.Property("avatar", StringSchema) ],
      false, false)

  /** validateUser: the compiled schema applied to an instance. */
  predicate ValidateUser(v: Json) {
    Jtd.Valid(UserSchema, v)
  }

  predicate StringMember(m: map<string, Json>, k: string) {
    k in m && m[k].JString?
  }

  predicate AbsentOrString(m: map<string, Json>, k: string) {
    k in m ==> m[k].JString?
  }

  /** The same requirements written out member by member. */
  predicate ValidUser(v: Json) {
    && v.JObject?
    && var m := v.members;
    && StringMember(m, "name")
    && "age" in m && m["age"].JInt? && 0 <= m["age"].n <= 255
    && StringMember(m, "company")
    && StringMember(m, "email")
    && StringMember(m, "role") && ParseRole(m["role"].s).Some?
    && AbsentOrString(m, "_id")
    && AbsentOrString(m, "avatar")
    && m.Keys <= RequiredKeys + OptionalKeys
  }

  lemma UserSchemaWellFormed()
    ensures Jtd.WellFormed(UserSchema)
  {
    var all := UserSchema.required + UserSchema.optional;
    assert forall i | 0 <= i < |all| :: all[i].key == ["name", "age", "company", "email", "role", "_id", "avatar"][i];
  }

  lemma UserSchemaKeys()
    ensures Jtd.Keys(UserSchema.required) == RequiredKeys
    ensures Jtd.Keys(UserSchema.optional) == OptionalKeys
  {
    var req, opt := UserSchema.required, UserSchema.optional;
    forall k | k in Jtd.Keys(req) ensures k in RequiredKeys {
      var i :| 0 <= i < |req| && req[i].key == k;
      assert i == 0 || i == 1 || i == 2 || i == 3 || i == 4;
    }
    assert req[0].key == "name" && req[1].key == "age" && req[2].key == "company";
    assert req[3].key == "email" && req[4].key == "role";
    forall k | k in Jtd.Keys(opt) ensures k in OptionalKeys {
      var i :| 0 <= i < |opt| && opt[i].key == k;
      assert i == 0 || i == 1;
    }
    assert opt[0].key == "_id" && opt[1].key == "avatar";
  }

  /** The five "properties" members, one by one. */
  lemma RequiredMembers(m: map<string, Json>)
    ensures Jtd.RequiredHold(UserSchema.required, m) <==>
      && StringMember(m, "name")
      && "age" in m && m["age"].JInt? && 0 <= m["age"].n <= 255
      && StringMember(m, "company")
      && StringMember(m, "email")
      && StringMember(m, "role") && ParseRole(m["role"].s).Some?
  {
    var r0 := UserSchema.required;
    var r1 := [Jtd.Property("age", Jtd.TypeForm(Jtd.Uint8, false)), Jtd.Property("company", StringSchema),
               Jtd.Property("email", StringSchema), Jtd.Property("role", RoleSchema)];
    assert r0[1..] == r1 && r1[1..] == LastThree;
    assert Jtd.RequiredHold(r0, m) <==> StringMember(m, "name") && Jtd.RequiredHold(r1, m);
    assert Jtd.RequiredHold(r1, m) <==>
      "age" in m && m["age"].JInt? && 0 <= m["age"].n <= 255 && Jtd.RequiredHold(LastThree, m);
    LastThreeMembers(m);
  }

  const LastThree: seq<Jtd.Property> :=
    [Jtd.Property("company", StringSchema), Jtd.Property("email", StringSchema), Jtd.Property("role", RoleSchema)]

  /** The last three "properties" members: company, email and role. */
  lemma LastThreeMembers(m: map<string, Json>)
    ensures Jtd.RequiredHold(LastThree, m) <==>
      && StringMember(m, "company")
      && StringMember(m, "email")
      && StringMember(m, "role") && ParseRole(m["role"].s).Some?
  {
    var r2 := LastThree;
    var r3 := [Jtd.Property("email", StringSchema), Jtd.Property("role", RoleSchema)];
    var r4 := [Jtd.Property("role", RoleSchema)];
    assert r2[1..] == r3 && r3[1..] == r4 && r4[1..] == [];
    assert Jtd.RequiredHold(r2, m) <==> StringMember(m, "company") && Jtd.RequiredHold(r3, m);
    assert Jtd.RequiredHold(r3, m) <==> StringMember(m, "email") && Jtd.RequiredHold(r4, m);
    if "role" in m { ValidRoleExactly(m["role"]); }
    assert Jtd.RequiredHold(r4, m) <==> StringMember(m, "role") && ParseRole(m["role"].s).Some?;
  }

  /** The two "optionalProperties" members, one by one. */
  lemma OptionalMembersHold(m: map<string, Json>)
    ensures Jtd.OptionalHold(UserSchema.optional, m) <==>
      AbsentOrString(m, "_id") && AbsentOrString(m, "avatar")
  {
    var o0 := UserSchema.optional;
    var o1 := [Jtd.Property("avatar", StringSchema)];
    assert o0[1..] == o1 && o1[1..] == [];
    assert Jtd.OptionalHold(o0, m) <==> AbsentOrString(m, "_id") && Jtd.OptionalHold(o1, m);
    assert Jtd.OptionalHold(o1, m) <==> AbsentOrString(m, "avatar");
  }

  /** The compiled schema accepts exactly the instances ValidUser describes. */
  lemma ValidateUserMeansValidUser(v: Json)
    ensures ValidateUser(v) <==> ValidUser(v)
  {
    Jtd.PropertiesValid(UserSchema, v);
    UserSchemaKeys();
    if v.JObject? {
      RequiredMembers(v.members);
      OptionalMembersHold(v.members);
    }
  }

  // ---------------------------------------------------------------------
  // The User interface and its JSON form

  /** The User interface: `_id` and `avatar` are optional, age is a number. */
  datatype User = User(id: Option<string>, name: string, age: int, company: string,
                       email: string, avatar: Option<string>, role: UserRole)

  function WithOptional(m: map<string, Json>, k: string, o: Option<string>): map<string, Json> {
    if o.Some? then m[k := JString(o.value)] else m
  }

  /** The JSON object a User value is sent as. */
  function ToJson(u: User): Json {
    var m := map["name" := JString(u.name), "age" := JInt(u.age), "company" := JString(u.company),
                 "email" := JString(u.email), "role" := JString(Name(u.role))];
    JObject(WithOptional(WithOptional(m, "_id", u.id), "avatar", u.avatar))
  }

  function OptionalString(m: map<string, Json>, k: string): Option<string>
    requires AbsentOrString(m, k)
  {
    if k in m then Some(m[k].s) else None
  }

  /** The User an instance of the reference description stands for. */
  function Read(v: Json): User
    requires ValidUser(v)
  {
    var m := v.members;
    User(OptionalString(m, "_id"), m["name"].s, m["age"].n, m["company"].s,
         m["email"].s, OptionalString(m, "avatar"), ParseRole(m["role"].s).value)
  }

  /** validateUser used as a type guard: an instance it accepts read as a User. */
  function FromJson(v: Json): (r: Option<User>)
    ensures r.Some? <==> ValidateUser(v)
  {
    ValidateUserMeansValidUser(v);
    if ValidUser(v) then Some(Read(v)) else None
  }

  /** The schema describes the interface: a User's JSON form validates exactly
      when its age fits uint8 ... */
  lemma ToJsonRoundTrip(u: User)
    ensures ValidateUser(ToJson(u)) <==> 0 <= u.age <= 255
  {
    ValidateUserMeansValidUser(ToJson(u));
    EveryRoleValidates(u.role);
  }

  /** ... and then reads back as the same User. */
  lemma ToJsonReadsBack(u: User)
    requires 0 <= u.age <= 255
    ensures FromJson(ToJson(u)) == Some(u)
  {
    ValidateUserMeansValidUser(ToJson(u));
    EveryRoleValidates(u.role);
    assert ValidUser(ToJson(u));
  }

  /** Every accepted instance is the JSON form of the User it reads as. */
  lemma FromJsonRoundTrip(v: Json)
    requires ValidateUser(v)
    ensures FromJson(v).Some? && ToJson(FromJson(v).value) == v
  {
    ValidateUserMeansValidUser(v);
    assert FromJson(v) == Some(Read(v));
    ReadIsInverse(v);
  }

  lemma ReadIsInverse(v: Json)
    requires ValidUser(v)
    ensures ToJson(Read(v)) == v
  {
    var m := v.members;
    var u := Read(v);
    assert u.role == ParseRole(m["role"].s).value;
    var base := map["name" := m["name"], "age" := m["age"], "company" := m["company"],
                    "email" := m["email"], "role" := m["role"]];
    assert ToJson(u).members == WithOptional(WithOptional(base, "_id", u.id), "avatar", u.avatar);
    ReadBackMembers(m, base, u.id, u.avatar);
  }

  lemma ReadBackMembers(m: map<string, Json>, base: map<string, Json>, id: Option<string>, avatar: Option<string>)
    requires m.Keys <= RequiredKeys + OptionalKeys && AbsentOrString(m, "_id") && AbsentOrString(m, "avatar")
    requires RequiredKeys <= m.Keys
    requires base == map k | k in RequiredKeys :: m[k]
    requires id == OptionalString(m, "_id") && avatar == OptionalString(m, "avatar")
    ensures WithOptional(WithOptional(base, "_id", id), "avatar", avatar) == m
  {
    var r := WithOptional(WithOptional(base, "_id", id), "avatar", avatar);
    assert r.Keys == m.Keys;
    forall k | k in m ensures r[k] == m[k] {}
  }

  // ---------------------------------------------------------------------
  // The properties the schema promises

  /** A well-formed instance, used as the base of the sample points. */
  const Sample: map<string, Json> :=
    map["name" := JString("Test User"), "age" := JInt(25), "company" := JString("testers"),
        "email" := JString("test@example.com"), "role" := JString("viewer")]

  lemma SampleAccepted()
    ensures ValidateUser(JObject(Sample))
  {
    ValidateUserMeansValidUser(JObject(Sample));
  }

  /** RFC 8927 section 3.3.3, uint8: an age is accepted iff it is an integer in 0..255. */
  lemma AgeRule(v: Json, age: Json)
    requires ValidateUser(v)
    ensures ValidateUser(JObject(v.members["age" := age])) <==> age.JInt? && 0 <= age.n <= 255
  {
    ValidateUserMeansValidUser(v);
    ValidateUserMeansValidUser(JObject(v.members["age" := age]));
    ReplacedMember(v, "age", age);
  }

  /** Replacing one member of a described instance: the result is described
      exactly when the new value fits that member. */
  lemma ReplacedMember(v: Json, k: string, x: Json)
    requires ValidUser(v) && k in RequiredKeys + OptionalKeys
    ensures k == "age" ==> (ValidUser(JObject(v.members[k := x])) <==> x.JInt? && 0 <= x.n <= 255)
    ensures k in {"name", "company", "email", "_id", "avatar"} ==>
      (ValidUser(JObject(v.members[k := x])) <==> x.JString?)
    ensures k == "role" ==>
      (ValidUser(JObject(v.members[k := x])) <==> x.JString? && ParseRole(x.s).Some?)
  {
  }

  lemma AgeSamplePoints()
    ensures ValidateUser(JObject(Sample["age" := JInt(0)]))
    ensures ValidateUser(JObject(Sample["age" := JInt(150)]))
    ensures ValidateUser(JObject(Sample["age" := JInt(255)]))
    ensures !ValidateUser(JObject(Sample["age" := JInt(-1)]))
    ensures !ValidateUser(JObject(Sample["age" := JInt(256)]))
    ensures !ValidateUser(JObject(Sample["age" := JFraction]))
    ensures !ValidateUser(JObject(Sample["age" := JString("25")]))
  {
    SampleAccepted();
    AgeRule(JObject(Sample), JInt(0));
    AgeRule(JObject(Sample), JInt(150));
    AgeRule(JObject(Sample), JInt(255));
    AgeRule(JObject(Sample), JInt(-1));
    AgeRule(JObject(Sample), JInt(256));
    AgeRule(JObject(Sample), JFraction);
    AgeRule(JObject(Sample), JString("25"));
  }

  /** Omitting any required member invalidates the instance. */
  lemma MissingRequiredRejected(v: Json, k: string)
    requires v.JObject? && k in RequiredKeys
    ensures !ValidateUser(JObject(v.members - {k}))
  {
    ValidateUserMeansValidUser(JObject(v.members - {k}));
  }

  /** `_id` and `avatar` may be left out ... */
  lemma OptionalMayBeAbsent(v: Json, k: string)
    requires ValidateUser(v) && k in OptionalKeys
    ensures ValidateUser(JObject(v.members - {k}))
  {
    ValidateUserMeansValidUser(v);
    var w := JObject(v.members - {k});
    ValidateUserMeansValidUser(w);
    assert ValidUser(w);
  }

  /** ... and when present must be strings. */
  lemma OptionalMustBeString(v: Json, k: string, x: Json)
    requires ValidateUser(v) && k in OptionalKeys
    ensures ValidateUser(JObject(v.members[k := x])) <==> x.JString?
  {
    ValidateUserMeansValidUser(v);
    ValidateUserMeansValidUser(JObject(v.members[k := x]));
    ReplacedMember(v, k, x);
  }

  /** RFC 8927 sections 3.1 and 3.3.6: without additionalProperties, any other key is refused. */
  lemma ExtraKeyRejected(v: Json, k: string, x: Json)
    requires v.JObject? && k !in RequiredKeys + OptionalKeys
    ensures !ValidateUser(JObject(v.members[k := x]))
  {
    ValidateUserMeansValidUser(JObject(v.members[k := x]));
  }

  /** RFC 8927 section 3.3: no member is nullable, so null company fails while "" passes. */
  lemma CompanyNullAndEmpty()
    ensures !ValidateUser(JObject(Sample["company" := JNull]))
    ensures ValidateUser(JObject(Sample["company" := JString("")]))
  {
    SampleAccepted();
    ValidateUserMeansValidUser(JObject(Sample));
    ValidateUserMeansValidUser(JObject(Sample["company" := JNull]));
    ValidateUserMeansValidUser(JObject(Sample["company" := JString("")]));
    ReplacedMember(JObject(Sample), "company", JNull);
    ReplacedMember(JObject(Sample), "company", JString(""));
  }

  /** RFC 8927 section 3.3.6: an instance that is not an object is refused. */
  lemma NonObjectRejected(v: Json)
    requires !v.JObject?
    ensures !ValidateUser(v)
  {
    ValidateUserMeansValidUser(v);
  }
}

# User records of the 3601 iteration template, modelled in Dafny

This project models the user-handling core of the template application, in three parts:

* **The client's validator.** `validateUser` is the JSON Type Definition `userSchema` compiled by Ajv. The model gives the RFC 8927 meaning of that schema and of the enum `userRoleSchema` (`jtd.dfy`, `user_role.dfy`, `user_schema.dfy`). JSON values are modelled without floating point: a number is either an integer (`JInt`) or a number with a fractional part (`JFraction`).
* **The server's `User` class.** `equals` and `hashCode` look only at `_id`, and `toString` returns the name (`server_user.dfy`). `String.hashCode` is modelled with Java's 32-bit wrap-around.
* **The server's user controller, as its unit tests pin it down.** This covers:
  * reading and checking the `age` query parameter;
  * filtering users by age, role and company;
  * checking the body of a new user, with every failing check reported in a fixed order;
  * grouping users by company, sorted by company name or by count;
  * the Gravatar link of a new user (`user_controller.dfy`, `company_groups.dfy`);
  * the users collection, modelled as the class `Store.UserStore`. Its map from ObjectId text to user is updated in place by `AddNewUser` and `DeleteUser` (`user_store.dfy`). Keys are lower-case ObjectId texts, and a requested id is looked up by its lower-case form, because ObjectId reads hexadecimal digits of either case.

The tests fix the server's age limits, its email rule and its role rules (for a query and for a new user) only at a few sample points. So the model takes them as parameters (`UserController.Rules`), and `UserController.FitsTests` lists the sample points:

* the age query parameter: 37 is served, while -1 and 151 are refused;
* the role query parameter: "viewer" is served;
* the age of a new user: 25 is accepted, while -17 and 150 are rejected;
* the email of a new user: "test@example.com" is legal and "invalidemail" is not;
* the role of a new user: "viewer" is legal and "invalidrole" is not.

Every lemma about a tested request holds for every choice of rules that fits these points.

The client and the server judge a new user separately, and they disagree. Module `ClientServer` (`validators.dfy`) proves both sides of this:

* The client accepts age 150 and an empty company; the server rejects both.
* When the server's lower age bound is not negative and every role text it takes is one of the client's three role literals, every user the server accepts is one the client accepts too. Both conditions are needed: rules that fit every test may also take the role "Viewer", which the client refuses.

`md5` is a parameter that may fail (`Option`). ObjectIds are minted outside the store and passed to `AddNewUser`.

## Model

| member | source | states |
|---|---|---|
| Jtd.RequiredHoldMeans | client/src/app/users/user.ts:15-21 | checking the "properties" members one after another equals requiring each member to be present and valid |
| Jtd.OptionalHoldMeans | client/src/app/users/user.ts:22-25 | checking the "optionalProperties" members one after another equals requiring each member that is present to be valid |
| Jtd.PropertiesValid | client/src/app/users/user.ts:14-26 | a non-nullable properties schema accepts exactly the objects whose required members hold, whose optional members hold, and which have no other key unless additional properties are allowed |
| Jtd.Valid | client/src/app/users/user.ts:28-29 | the RFC 8927 meaning of a schema for the type, enum and properties forms; a null instance is accepted exactly when the schema is nullable |
| UserRoles.ParseRole | client/src/app/users/user-role.ts:3 | a string names a member of the union exactly when some role's literal is that string, and the result is that role |
| UserRoles.ValidRole | client/src/app/users/user-role.ts:5-7 | the role schema applied to an instance (its meaning is stated by ValidRoleExactly) |
| UserRoles.RoleSchemaWellFormed | client/src/app/users/user-role.ts:5-7 | the enum is non-empty and has no repeated value |
| UserRoles.ValidRoleExactly | client/src/app/users/user-role.ts:5-7 | the role schema accepts v iff v is one of the strings "admin", "editor", "viewer" |
| UserRoles.UnionMatchesEnum | client/src/app/users/user-role.ts:3-7 | a string validates against the enum iff it is a literal of the UserRole union |
| UserRoles.EveryRoleValidates | client/src/app/users/user-role.ts:3-7 | every role's literal validates and parses back to that role |
| UserRoles.RoleSamplePoints | client/src/app/users/user-role.ts:6 | "editor" passes while "Editor", "invalidrole" and "" fail, because matching is exact |
| UserRoles.NonStringRoleRejected | client/src/app/users/user-role.ts:5-7 | no instance that is not a string passes the enum |
| UserSchema.UserSchemaWellFormed | client/src/app/users/user.ts:14-26 | userSchema names each of its seven keys once |
| UserSchema.UserSchemaKeys | client/src/app/users/user.ts:15-25 | the required keys are name, age, company, email and role; the optional keys are _id and avatar |
| UserSchema.RequiredMembers | client/src/app/users/user.ts:15-21 | the required members hold iff name, company and email are strings, age is an integer in 0..255 and role is one of the three literals |
| UserSchema.LastThreeMembers | client/src/app/users/user.ts:18-20 | the company, email and role members hold iff company and email are strings and role is a role literal |
| UserSchema.OptionalMembersHold | client/src/app/users/user.ts:22-25 | the optional members hold iff _id and avatar are each absent or a string |
| UserSchema.ValidateUser | client/src/app/users/user.ts:28-29 | validateUser: userSchema run through the RFC 8927 semantics (its meaning is stated by ValidateUserMeansValidUser) |
| UserSchema.ValidUser | client/src/app/users/user.ts:14-26 | the independent member-by-member description: string name, company and email, an integer age in 0..255, a role literal, _id and avatar absent or strings, no other key |
| UserSchema.ValidateUserMeansValidUser | client/src/app/users/user.ts:14-29 | the compiled schema accepts exactly the instances of the member-by-member description ValidUser, which forbids extra keys |
| UserSchema.FromJson | client/src/app/users/user.ts:4-12 | used as a type guard, validateUser yields a User exactly when it accepts the instance |
| UserSchema.ToJson | client/src/app/users/user.ts:4-12 | the JSON form of a User: the five required members, and _id and avatar only when set (its partner is Read, see ReadIsInverse and ToJsonReadsBack) |
| UserSchema.Read | client/src/app/users/user.ts:4-12 | the User a described instance stands for (its partner is ToJson) |
| UserSchema.ToJsonRoundTrip | client/src/app/users/user.ts:4-17 | the JSON form of a User validates iff its age fits uint8 |
| UserSchema.ToJsonReadsBack | client/src/app/users/user.ts:4-29 | a User whose age fits uint8 is read back unchanged from its JSON form |
| UserSchema.FromJsonRoundTrip | client/src/app/users/user.ts:4-29 | every accepted instance is the JSON form of the User it reads as |
| UserSchema.ReadIsInverse | client/src/app/users/user.ts:4-25 | an instance of the description reads as a User whose JSON form is that instance |
| UserSchema.ReplacedMember | client/src/app/users/user.ts:15-25 | replacing one member of a valid instance keeps it valid iff the new value has that member's type: an integer in 0..255 for age, a role literal for role, a string for the others |
| UserSchema.SampleAccepted | client/src/app/users/user.ts:14-26 | a complete sample user with role "viewer" validates |
| UserSchema.AgeRule | client/src/app/users/user.ts:17 | with every other member valid, an instance validates iff age is an integer in 0..255 |
| UserSchema.AgeSamplePoints | client/src/app/users/user.ts:17 | ages 0, 150 and 255 pass; -1, 256, a fractional number and the string "25" fail |
| UserSchema.MissingRequiredRejected | client/src/app/users/user.ts:15-21 | removing any required member from any object makes it invalid |
| UserSchema.OptionalMayBeAbsent | client/src/app/users/user.ts:22-25 | removing _id or avatar from a valid instance keeps it valid |
| UserSchema.OptionalMustBeString | client/src/app/users/user.ts:22-25 | setting _id or avatar in a valid instance keeps it valid iff the value is a string |
| UserSchema.ExtraKeyRejected | client/src/app/users/user.ts:14-26 | adding any key outside the seven makes an object invalid |
| UserSchema.CompanyNullAndEmpty | client/src/app/users/user.ts:18 | company null fails and company "" passes, since nothing is nullable |
| UserSchema.NonObjectRejected | client/src/app/users/user.ts:15 | an instance that is not an object fails |
| ServerUser.Equals | server/src/main/java/umm3601/user/User.java:38-45 | equals can only be true for another User; null and other objects need no _id, a comparison with a User needs the receiver's _id set |
| ServerUser.Int32 | server/src/main/java/umm3601/user/User.java:47-51 | the wrapped value is a Java int congruent to its input modulo 2^32 |
| ServerUser.StringHash | server/src/main/java/umm3601/user/User.java:47-51 | String.hashCode of the id is always a Java int |
| ServerUser.StringHashIsPolynomial | server/src/main/java/umm3601/user/User.java:47-51 | the hash computed with wrap-around at every step equals the hash computed without overflow (Horner's form h = 31*h + c) and reduced to a Java int once |
| ServerUser.HashCode | server/src/main/java/umm3601/user/User.java:47-51 | hashCode is a Java int and needs a non-null _id |
| ServerUser.EqualsOnlyUsers | server/src/main/java/umm3601/user/User.java:40-42 | equals is false for null and for objects that are not Users, whether or not the receiver has an _id |
| ServerUser.UnsavedUserUnequalToNonUsers | server/src/main/java/umm3601/user/User.java:40-42 | a user without an _id is unequal to null and to an object of another class |
| ServerUser.EqualsIffSameId | server/src/main/java/umm3601/user/User.java:43-44 | two users are equal iff their _ids are equal; no other field matters |
| ServerUser.EqualsReflexive | server/src/main/java/umm3601/user/User.java:44 | a user with an _id equals itself |
| ServerUser.EqualsSymmetric | server/src/main/java/umm3601/user/User.java:44 | on users with _ids, a equals b iff b equals a |
| ServerUser.EqualsTransitive | server/src/main/java/umm3601/user/User.java:44 | on users with _ids, equals is transitive |
| ServerUser.HashConsistentWithEquals | server/src/main/java/umm3601/user/User.java:47-51 | equal users both have an _id and the same hashCode |
| ServerUser.ToStringIsName | server/src/main/java/umm3601/user/User.java:62-65 | toString is the name field and depends on nothing else |
| ServerUser.ToString | server/src/main/java/umm3601/user/User.java:62-65 | toString returns the name field, which may be null (its property is stated by ToStringIsName) |
| UserController.ParseInt | server/src/test/java/umm3601/user/UserControllerSpec.java:380-418 | Integer.parseInt yields a Java int or fails |
| UserController.ParseIntRoundTrip | server/src/test/java/umm3601/user/UserControllerSpec.java:259-269 | every Java int written with toString parses back to itself |
| UserController.ParseIntSamplePoints | server/src/test/java/umm3601/user/UserControllerSpec.java:380-494 | "37", "-1" and "151" parse as numbers; "bad integer string" does not |
| UserController.QueryErrorMessage | server/src/test/java/umm3601/user/UserControllerSpec.java:380-494 | the message for a refused age or role contains the offending text |
| UserController.ParseFilter | server/src/test/java/umm3601/user/UserControllerSpec.java:380-552 | the query is refused iff an age is given that does not parse or is not admitted, or a role is given that the query-role rule does not take; a bad age is reported first, with its text and which way it is bad, otherwise a bad role is reported with its text; on success role and company pass through and the age is the parsed, admitted number |
| UserController.QueryRoleSamplePoint | server/src/test/java/umm3601/user/UserControllerSpec.java:534-552 | under every admissible rules, the role query "viewer" is served and kept as the filter's role |
| UserController.QueryAgeSamplePoints | server/src/test/java/umm3601/user/UserControllerSpec.java:259-494 | under every admissible rules, age "37" is served, while "bad integer string" is refused as not a number and "-1" and "151" as out of range |
| UserController.QueryErrorSamplePoints | server/src/test/java/umm3601/user/UserControllerSpec.java:380-494 | under every admissible rules, "bad integer string", "-1" and "151" are refused with a message containing that text |
| UserController.Matches | server/src/test/java/umm3601/user/UserControllerSpec.java:191-582 | a user satisfies a query: exactly its age, exactly its role, and a company containing the query text regardless of case |
| UserController.FilterUsers | server/src/test/java/umm3601/user/UserControllerSpec.java:191-582 | the filtered list is no longer than the stored list |
| UserController.FilterUsersMembers | server/src/test/java/umm3601/user/UserControllerSpec.java:191-582 | a user is returned iff it is stored and matches the age, the role and the company (case-insensitive containment) |
| UserController.FilterWithoutParams | server/src/test/java/umm3601/user/UserControllerSpec.java:192-223 | without parameters every user is returned, in order |
| UserController.FilterIdempotent | server/src/test/java/umm3601/user/UserControllerSpec.java:191-582 | filtering twice with the same parameters equals filtering once |
| UserController.FilterComposes | server/src/test/java/umm3601/user/UserControllerSpec.java:555-582 | filtering by f and then by g equals filtering by any h that asks for both |
| UserController.FilterCombines | server/src/test/java/umm3601/user/UserControllerSpec.java:555-582 | combined parameters are the intersection of age, then role, then company |
| UserController.FilterDistinct | server/src/test/java/umm3601/user/UserControllerSpec.java:191-582 | filtering a list without repeats gives a list without repeats |
| UserController.CompanySamplePoints | server/src/test/java/umm3601/user/UserControllerSpec.java:497-532 | "ohm" and "OHMNET" are found in OHMNET, not in UMM or IBM |
| UserController.CompanyQueryIgnoresCase | server/src/test/java/umm3601/user/UserControllerSpec.java:497-532 | two company queries that agree once case is folded select the same users |
| UserController.StoredCompanyIgnoresCase | server/src/test/java/umm3601/user/UserControllerSpec.java:497-532 | two stored companies that agree once case is folded are selected by the same queries |
| UserController.LowerCaseQuerySelectsTheSame | server/src/test/java/umm3601/user/UserControllerSpec.java:517-532 | a company query selects the same users as its lower-case form |
| UserController.FilterCons | server/src/test/java/umm3601/user/UserControllerSpec.java:191-582 | filtering a list whose head is u gives u's own outcome, then the filtered rest |
| UserController.FilterOfFour | server/src/test/java/umm3601/user/UserControllerSpec.java:132-180 | the filter of the four stored users is their outcomes, one after another |
| UserController.FilterSamplePoints | server/src/test/java/umm3601/user/UserControllerSpec.java:259-582 | on the four test users: age 37 gives Pat and Jamie; role viewer gives Jamie and Sam; company "ohm" gives Jamie and Sam; age 37 with OHMNET gives Jamie |
| UserController.UpperCaseIdSamplePoint | server/src/main/java/umm3601/user/User.java:24-29 | "588935F5C668650DC77DF581" is a legal id whose lower-case form is "588935f5c668650dc77df581" |
| UserController.IdSamplePoints | server/src/test/java/umm3601/user/UserControllerSpec.java:598-618 | "bad" is not an ObjectId; "588935f5c668650dc77df581" is one, already in lower-case form, and is the lower-case form of its upper-case spelling |
| UserController.LowerIsCanonical | server/src/main/java/umm3601/user/User.java:24-29 | the lower-case form of a legal id is again a legal id, in canonical lower-case form |
| UserController.Passes | server/src/test/java/umm3601/user/UserControllerSpec.java:785-1088 | what each check demands of a new user: a non-empty name and company, a legal email, an admitted age, a legal role |
| UserController.FailedFromSound | server/src/test/java/umm3601/user/UserControllerSpec.java:1054-1088 | every error reported from position k on names a failing check at or after k, with the request body |
| UserController.FailedFromComplete | server/src/test/java/umm3601/user/UserControllerSpec.java:1054-1088 | every failing check at or after position k is reported |
| UserController.FailedFromOrdered | server/src/test/java/umm3601/user/UserControllerSpec.java:1054-1088 | the reported checks come in rank order |
| UserController.FailedFromReports | server/src/test/java/umm3601/user/UserControllerSpec.java:1054-1088 | the checks from position k on report each failing check once, in rank order, and nothing else |
| UserController.ValidateNewUser | server/src/test/java/umm3601/user/UserControllerSpec.java:785-1088 | an unbindable body gives one error; otherwise a check is reported iff it fails, every error quotes the body, and the errors are in the fixed check order |
| UserController.FiveChecks | server/src/test/java/umm3601/user/UserControllerSpec.java:1054-1088 | the error list is the outcomes of name, email, age, role and company, in that order |
| UserController.ErrorMessage | server/src/test/java/umm3601/user/UserControllerSpec.java:785-855 | every message contains the request body and, for a failed check, the requirement it names |
| UserController.MessagesQuoteTheBody | server/src/test/java/umm3601/user/UserControllerSpec.java:815-854 | any text found in the body is found in the message about it |
| UserController.RequirementPhrases | server/src/test/java/umm3601/user/UserControllerSpec.java:924-1051 | the name and company requirements mention "non-empty user name" and "non-empty company name" |
| UserController.OnlyFailure | server/src/test/java/umm3601/user/UserControllerSpec.java:785-1051 | when exactly one check fails, exactly that one error is reported |
| UserController.AcceptsTestUser | server/src/test/java/umm3601/user/UserControllerSpec.java:727-782 | the successful test body passes every check under every admissible rules |
| UserController.RejectsIllegalEmail | server/src/test/java/umm3601/user/UserControllerSpec.java:785-820 | the email "invalidemail" gives only the email error |
| UserController.RejectsIllegalAges | server/src/test/java/umm3601/user/UserControllerSpec.java:858-921 | ages -17 and 150 give only the age error |
| UserController.RejectsIllegalRole | server/src/test/java/umm3601/user/UserControllerSpec.java:989-1019 | role "invalidrole" gives only the role error |
| UserController.RejectsMissingName | server/src/test/java/umm3601/user/UserControllerSpec.java:924-986 | a missing or empty name gives only the name error |
| UserController.RejectsMissingCompany | server/src/test/java/umm3601/user/UserControllerSpec.java:1022-1051 | a missing company gives only the company error |
| UserController.NameBeforeCompany | server/src/test/java/umm3601/user/UserControllerSpec.java:1054-1088 | an empty name plus an empty company gives exactly two errors, the name's first |
| UserController.NameBeforeCompanyMessages | server/src/test/java/umm3601/user/UserControllerSpec.java:1054-1088 | those two messages mention "non-empty user name" and "non-empty company name", in that order |
| UserController.GenerateAvatar | server/src/test/java/umm3601/user/UserControllerSpec.java:1142-1185 | the link starts with the Gravatar prefix and carries md5(email) before "?d=identicon"; when md5 fails it is the mystery-person image |
| UserController.AvatarSamplePoints | server/src/test/java/umm3601/user/UserControllerSpec.java:1142-1185 | with md5 giving "md5hash" the link is ".../avatar/md5hash?d=identicon"; with md5 failing it is ".../avatar/?d=mp" |
| CompanyGroups.StringLeTotal | server/src/test/java/umm3601/user/UserControllerSpec.java:624-687 | any two company names are ordered one way or the other |
| CompanyGroups.StringLeTransitive | server/src/test/java/umm3601/user/UserControllerSpec.java:624-687 | the order on company names is transitive |
| CompanyGroups.InOrderTotal | server/src/test/java/umm3601/user/UserControllerSpec.java:624-724 | under every sort key and order, any two entries are comparable |
| CompanyGroups.InOrderTransitive | server/src/test/java/umm3601/user/UserControllerSpec.java:624-724 | under every sort key and order, the entry order is transitive |
| CompanyGroups.UsersOf | server/src/test/java/umm3601/user/UserControllerSpec.java:644-656 | a company's entry holds exactly the users of that company |
| CompanyGroups.UsersOfDistinct | server/src/test/java/umm3601/user/UserControllerSpec.java:644-656 | a company's users are listed once each |
| CompanyGroups.CompaniesOf | server/src/test/java/umm3601/user/UserControllerSpec.java:624-724 | every user's company is listed once, and each listed company has a user |
| CompanyGroups.Insert | server/src/test/java/umm3601/user/UserControllerSpec.java:624-724 | inserting adds exactly the one entry |
| CompanyGroups.Sort | server/src/test/java/umm3601/user/UserControllerSpec.java:624-724 | sorting permutes the entries |
| CompanyGroups.InsertSorted | server/src/test/java/umm3601/user/UserControllerSpec.java:624-724 | inserting into a sorted list keeps it sorted |
| CompanyGroups.SortSorted | server/src/test/java/umm3601/user/UserControllerSpec.java:624-724 | the sorted entries are in the requested order |
| CompanyGroups.InsertKeepsKeysDistinct | server/src/test/java/umm3601/user/UserControllerSpec.java:624-724 | inserting an entry for a new company keeps one entry per company |
| CompanyGroups.SortKeepsKeysDistinct | server/src/test/java/umm3601/user/UserControllerSpec.java:624-724 | sorting keeps one entry per company |
| CompanyGroups.Groups | server/src/test/java/umm3601/user/UserControllerSpec.java:637-656 | one entry per company, holding that company's users and their count, and no entry is empty |
| CompanyGroups.GroupByCompany | server/src/test/java/umm3601/user/UserControllerSpec.java:623-724 | the groups sorted by the requested key and order (their meaning is stated by GroupByCompanyCorrect) |
| CompanyGroups.GroupByCompanyCorrect | server/src/test/java/umm3601/user/UserControllerSpec.java:623-724 | grouping gives one entry per distinct company, each holding exactly its users and their count, sorted by the requested key and order |
| CompanyGroups.ByCompanyStrict | server/src/test/java/umm3601/user/UserControllerSpec.java:624-687 | sorted by company, names strictly ascend (or descend) |
| Store.ParseSortBy | server/src/test/java/umm3601/user/UserControllerSpec.java:623-724 | a sortBy text gives the key whose query text it is, and None when it is the text of no key |
| Store.ParseSortOrder | server/src/test/java/umm3601/user/UserControllerSpec.java:623-724 | a sortOrder text gives the order whose query text it is, and None when it is the text of no order |
| Store.SortQueriesReadBack | server/src/test/java/umm3601/user/UserControllerSpec.java:623-724 | "company", "count", "asc" and "desc" are read back as the key and order they name |
| Store.LookupMessage | server/src/test/java/umm3601/user/UserControllerSpec.java:598-618 | the two lookup failures and their exact messages (stated by GetUserSamplePoints) |
| Store.UserStore.constructor | server/src/test/java/umm3601/user/UserControllerSpec.java:132-180 | a new store is empty and keeps the given rules and md5 |
| Store.UserStore.Listing | server/src/test/java/umm3601/user/UserControllerSpec.java:192-223 | lists every stored user exactly once |
| Store.UserStore.GetUsers | server/src/test/java/umm3601/user/UserControllerSpec.java:191-582 | a bad age gives the query's error; otherwise the result has no repeats and holds exactly the stored users that match the query; without parameters it holds every stored user, as many as are stored |
| Store.UserStore.GetUser | server/src/test/java/umm3601/user/UserControllerSpec.java:585-618 | an illegal id gives IllegalId; a legal id whose lower-case form is not stored gives UserNotFound, and one whose lower-case form is stored gives that user |
| Store.UserStore.AddNewUser | server/src/test/java/umm3601/user/UserControllerSpec.java:727-1088 | a failing body is refused with all its errors and nothing changes; otherwise only the new canonical id is added, holding the submitted user with that id and its generated avatar |
| Store.UserStore.DeleteUser | server/src/test/java/umm3601/user/UserControllerSpec.java:1091-1123 | removes exactly the lower-case form of that id and reports whether it was stored; the store stays canonical |
| Store.UserStore.GetUsersGroupedByCompany | server/src/test/java/umm3601/user/UserControllerSpec.java:623-724 | given the sortBy and sortOrder texts: a result exactly when both are known texts, and then one entry per company, exactly its stored users, no repeats, count equal to size, sorted by the key and order the texts name |
| Store.DeleteTwice | server/src/test/java/umm3601/user/UserControllerSpec.java:1091-1123 | the first delete of a stored id succeeds, the second finds nothing, and the user stays absent |
| Store.GetIgnoresIdCase | server/src/main/java/umm3601/user/User.java:24-29 | a legal id and its lower-case form give the same lookup result, which succeeds exactly when some stored key has the same lower-case form |
| Store.AddThenGet | server/src/test/java/umm3601/user/UserControllerSpec.java:727-782 | a stored new user is found under its new id with an avatar, its other fields unchanged |
| Store.GetUserSamplePoints | server/src/test/java/umm3601/user/UserControllerSpec.java:598-618 | "bad" gives "The requested user id wasn't a legal Mongo Object ID." and an unstored legal id gives "The requested user was not found" |
| ClientServer.ToServer | client/src/app/users/user.ts:4-12 | binding keeps every field; the role text parses back to the role |
| ClientServer.FromServer | server/src/main/java/umm3601/user/User.java:29-36 | the client view of a complete server user binds back to that same user |
| ClientServer.Age150Disagrees | server/src/test/java/umm3601/user/UserControllerSpec.java:891-921 | age 150 passes the client schema (user.ts line 17) and fails only the server's age check |
| ClientServer.EmptyCompanyDisagrees | client/src/app/users/user.ts:18 | an empty company passes the client schema but is always refused by the server's company check |
| ClientServer.NoCompanyDisagrees | client/src/app/users/user.ts:18 | derived from the client schema and the server's company check (refusing "" at UserControllerSpec.java 1054-1088): the test user with company "" passes the client and fails only the server's company check |
| ClientServer.ServerAcceptedIsClientValid | server/src/test/java/umm3601/user/UserControllerSpec.java:727-1088 | with a non-negative lower age bound and a role rule that takes only role literals, every user the server accepts is accepted by the client |
| ClientServer.LooseRolesFitTests | server/src/test/java/umm3601/user/UserControllerSpec.java:380-1019 | the rules LooseRoles meet every sample point of FitsTests |
| ClientServer.LooseRolesAcceptWhatClientRefuses | server/src/test/java/umm3601/user/UserControllerSpec.java:989-1019 | rules can fit every test and still take the role "Viewer", which the client refuses, so the role condition above is needed |

## Left out

- UserController.java is not part of this model. The controller is modelled only as far as UserControllerSpec.java asserts it.
- UserController.FitsTests: the exact age limits, the email rule and the role rules are not modelled. They are parameters constrained only at the tested points, so the model does not say whether, say, age 120 is accepted.
- Requirement, ErrorMessage and QueryErrorMessage: the wording of the messages is not modelled beyond the fragments the tests look for. These are the offending text, "non-empty user name" and "non-empty company name". The rest of each text, including the whole out-of-range age message, is the model's own.
- The MongoDB collection, its queries and aggregation pipelines, Javalin's `Context`, HTTP status codes and Mockito. The store is a map, errors are values, and Javalin's BadRequest and NotFound are `IllegalId` and `UserNotFound`.
- Jackson's binding of a request body is not modelled. The body carries the user it binds to, or `None` when it cannot be bound, as for an age of "notanumber".
- Store.UserStore.AddNewUser: ObjectId minting is not modelled. The new id comes in as a parameter, required to be an unused ObjectId in lower-case form, the form ObjectId.toHexString writes.
- Store.UserStore.Listing: the users are listed in no particular order. The database's natural order, and any sorting of `getUsers` by a `sortby` parameter, are not modelled.
- Store.UserStore.DeleteUser: no separate check of a malformed id. Every stored key is a legal id (`Valid`), so such a delete finds nothing, like an absent id.
- UserController.ParseFilter: which role texts a query may ask for is a parameter (`Rules.queryRole`), pinned only at "viewer"; no refused role query is tested. When both the age and the role are bad, the age is reported; that order is the model's choice.
- UserController.Matches: the role query is an exact match, like the age. Case folding of the company query covers ASCII letters only; other Unicode case folding is not modelled.
- UserController.ValidateNewUser: the tests pin the check order only as name before company. The order name, email, age, role, company is the model's choice.
- ServerUser.StringHash: a Dafny `char` stands for one Java UTF-16 code unit, so characters outside the Basic Multilingual Plane are not split into surrogate pairs.
- md5 is not modelled. It is a parameter that may fail, as the test mocks it.
- Store.UserStore.GetUsersGroupedByCompany: for sortBy and sortOrder texts other than "company", "count", "asc" and "desc" it returns `None`. What the controller does with other texts, or with a missing parameter, is not modelled.
- UserController.ParseInt: it accepts ASCII digits only. Java's `Integer.parseInt` also accepts the other Unicode decimal digits through `Character.digit`, so for example Arabic-Indic digits parse there and do not parse here.
- UserController.Passes: the role rule is a parameter, like the email rule. The server's exact set of legal roles is not modelled; `ServerAcceptedIsClientValid` states the condition it needs as a hypothesis.
- UserSchema.User: the age is an integer, while the interface declares `age: number`. A fractional age cannot be represented, so `ToJsonRoundTrip` and `ToJsonReadsBack` speak of integer ages only. The schema itself still refuses fractional ages (`JFraction`).
- ServerUser.User: the age is an unbounded integer, while the Java field is an `int`. Nothing in the model relies on its range.
- CompanyGroups.GroupByCompanyCorrect: ties under sorting by count are left in an unspecified order, as the test allows. The three-company example of the grouping tests is covered only through this general lemma; it is not computed on the fixture.
- The test fixtures' avatars are left empty, because filtering does not read them.
- UserSchema.ToJsonRoundTrip: it states only when a User's JSON form validates. Reading the form back is the separate lemma ToJsonReadsBack.
- Jtd: of RFC 8927, only the type, enum and properties forms are modelled, with the nullable flag. The timestamp type, the other forms (elements, values, discriminator, ref) and the error indicators of section 3.2 are not modelled, because userSchema does not use them.
- The client's Angular components, services and browser tests are not modelled. They are asynchronous plumbing and display.

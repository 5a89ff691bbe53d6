/**
 * The server's User record and its identity: equals and hashCode look only
 * at `_id`, toString gives the name.
 */
module ServerUser {
  import opened Wrappers

  /** The User class's fields. Every String field may be null (None); `_id`
      is null until the record is stored. `age` is a Java int. */
  datatype User = User(id: Option<string>, name: Option<string>, age: int, company: Option<string>,
                       email: Option<string>, avatar: Option<string>, role: Option<string>)

  /** What can be passed to equals(Object): null, a User, or an object of another class. */
  datatype Object = Null | UserObject(user: User) | OtherObject

  /** String.equals(Object) applied to a String or to null. */
  predicate StringEquals(s: string, other: Option<string>) {
    other.Some? && other.value == s
  }

  /** User.equals. Null and objects of other classes are unequal before `_id`
      is read; only a comparison with another User dereferences its own `_id`,
      so that case needs a user whose `_id` is set (otherwise Java throws
      NullPointerException). */
  function Equals(self: User, obj: Object): (r: bool)
    requires obj.UserObject? ==> self.id.Some?
    ensures r ==> obj.UserObject?
  {
    match obj
    case UserObject(other) => StringEquals(self.id.value, other.id)
    case _ => false
  }

  // ---------------------------------------------------------------------
  // Java's String.hashCode, with 32-bit wrap-around

  const TwoTo32: int := 0x1_0000_0000
  const TwoTo31: int := 0x8000_0000

  predicate IsInt32(x: int) {
    -TwoTo31 <= x < TwoTo31
  }

  /** The Java int that the integer x wraps to. */
  function Int32(x: int): (r: int)
    ensures IsInt32(r)
    ensures (x - r) % TwoTo32 == 0
  {
    (x + TwoTo31) % TwoTo32 - TwoTo31
  }

  /** String.hashCode: h = 31 * h + c over the characters, in int arithmetic. */
  function StringHash(s: string): (h: int)
    ensures IsInt32(h)
    decreases |s|
  {
    if s == [] then 0 else Int32(31 * StringHash(s[..|s| - 1]) + s[|s| - 1] as int)
  }

  /** The same recurrence on unbounded integers, without overflow. */
  function PolynomialHash(s: string): int
    decreases |s|
  {
    if s == [] then 0 else 31 * PolynomialHash(s[..|s| - 1]) + s[|s| - 1] as int
  }

  lemma Int32Shift(x: int, k: int)
    ensures Int32(x + k * TwoTo32) == Int32(x)
  {
    var a := x + TwoTo31;
    assert (a + k * TwoTo32) % TwoTo32 == a % TwoTo32;
  }

  /** The wrapping loop computes the polynomial reduced to a Java int. */
  lemma {:induction false} StringHashIsPolynomial(s: string)
    ensures StringHash(s) == Int32(PolynomialHash(s))
    decreases |s|
  {
    if s != [] {
      var init, c := s[..|s| - 1], s[|s| - 1] as int;
      StringHashIsPolynomial(init);
      var p := PolynomialHash(init);
      var k := (p - Int32(p)) / TwoTo32;
      assert Int32(p) == p - k * TwoTo32;
      Int32Shift(31 * p + c, -31 * k);
      assert 31 * Int32(p) + c == 31 * p + c + (-31 * k) * TwoTo32;
    }
  }

  /** User.hashCode: the hash of `_id` (again only defined once `_id` is set). */
  function HashCode(u: User): (h: int)
    requires u.id.Some?
    ensures IsInt32(h)
  {
    StringHash(u.id.value)
  }

  /** User.toString: the name, available even before `_id` is set. */
  function ToString(u: User): Option<string> {
    u.name
  }

  // ---------------------------------------------------------------------
  // Properties of the identity

  /** equals is false on null and on objects that are not Users, whether or
      not the receiver's `_id` is set. */
  lemma EqualsOnlyUsers(self: User, obj: Object)
    requires !obj.UserObject?
    ensures !Equals(self, obj)
  {
  }

  /** A user not yet stored (no `_id`) can be compared with null or another
      class's object without failing, and is unequal to both. */
  lemma UnsavedUserUnequalToNonUsers(self: User)
    requires self.id.None?
    ensures !Equals(self, Null) && !Equals(self, OtherObject)
  {
  }

  /** Two users are equal exactly when their ids are; no other field matters. */
  lemma EqualsIffSameId(a: User, b: User)
    requires a.id.Some?
    ensures Equals(a, UserObject(b)) <==> a.id == b.id
  {
  }

  lemma EqualsReflexive(a: User)
    requires a.id.Some?
    ensures Equals(a, UserObject(a))
  {
  }

  lemma EqualsSymmetric(a: User, b: User)
    requires a.id.Some? && b.id.Some?
    ensures Equals(a, UserObject(b)) <==> Equals(b, UserObject(a))
  {
  }

  lemma EqualsTransitive(a: User, b: User, c: User)
    requires a.id.Some? && b.id.Some?
    requires Equals(a, UserObject(b)) && Equals(b, UserObject(c))
    ensures Equals(a, UserObject(c))
  {
  }

  /** Equal users hash the same. */
  lemma HashConsistentWithEquals(a: User, b: User)
    requires a.id.Some? && Equals(a, UserObject(b))
    ensures b.id.Some? && HashCode(a) == HashCode(b)
  {
  }

  /** toString shows the name and nothing else. */
  lemma ToStringIsName(a: User, b: User)
    ensures ToString(a) == a.name
    ensures a.name == b.name ==> ToString(a) == ToString(b)
  {
  }
}

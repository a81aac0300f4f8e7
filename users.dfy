/** User accounts as the user store holds them, and the password hashing the
    account operations rely on. */
module Users {
  import opened Text

  /** A bcrypt hash, kept abstract: it records the salt it was made with and
      what it verifies. Only `HashPassword` builds one and only `VerifyPassword`
      looks inside it. */
  datatype PasswordHash = Bcrypt(salt: nat, secret: string)

  /** `hash_password`: the salt is the random input `bcrypt.gensalt()` would draw. */
  function HashPassword(plain: string, salt: nat): PasswordHash
  {
    Bcrypt(salt, plain)
  }

  /** `verify_password` (bcrypt.checkpw). */
  predicate VerifyPassword(plain: string, hash: PasswordHash)
  {
    hash.secret == plain
  }

  /** The one property of bcrypt the core relies on: a hash verifies the
      password it was made from and no other, whatever the salt. */
  lemma VerifyHashed(candidate: string, plain: string, salt: nat)
    ensures VerifyPassword(candidate, HashPassword(plain, salt)) <==> candidate == plain
  {
  }

  /** A user record in its frontend form (`_to_frontend_format` of a `users` row):
      `uuid` is the `user_id` column (`_user_uuid`), `userId` the `user_code`
      column (`User_ID`). `role` is None for a record without a role. */
  datatype User = User(
    uuid: string,
    userId: string,
    username: string,
    email: string,
    passwordHash: PasswordHash,
    role: Option<string>,
    createdDate: string,
    lastLogin: string,
    status: string,
    createdBy: string,
    notes: string)

  function UserIds(users: seq<User>): (ids: seq<string>)
    ensures |ids| == |users| && forall i :: 0 <= i < |users| ==> ids[i] == users[i].userId
  {
    seq(|users|, i requires 0 <= i < |users| => users[i].userId)
  }
}

/** What the two-factor code imports or draws: the functions are arbitrary, within the laws stated here. */
module World {
  import opened Prelude
  import opened Password
  import opened Json

  datatype World = World(
    pw: Primitives,
    hotp: (string, string, nat) -> bool,      // secret, code, counter: the code validates, without error
    bcryptHash: (string, seq<Byte>) -> string, // code, salt
    bcryptMatches: (string, string) -> bool,   // hash, code
    passwords: set<string>,                    // every password typed or set during the run
    accessIssuer: string,                      // of an access token
    refreshLifetime: nat)                      // of a refresh token, in seconds

  ghost predicate LawfulWorld(w: World) {
    && Lawful(w.pw) && ReadsBack(w.pw)
    && (forall code, salt :: w.bcryptMatches(w.bcryptHash(code, salt), code))
    && (forall code, salt :: HashText(w.bcryptHash(code, salt)))
    && w.accessIssuer != "refresh"
    // hashes are idealised as free of collisions among the passwords of the run
    && (forall stored, p, q | p in w.passwords && q in w.passwords
          :: VerifyPassword(w.pw, stored, p) && VerifyPassword(w.pw, stored, q) ==> p == q)
  }
}

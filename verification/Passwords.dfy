/** Stored password hashes as ideal values: an argon2id string accepts exactly the password it was
    derived from, an imported bcrypt string accepts every password sharing its first 72 bytes. */
module Passwords {
  import opened Prelude

  datatype Cost = Cost(memory: nat, time: nat, keyLen: nat)

  datatype Encoded =
    | Argon2id(cost: Cost, salt: nat, password: string)
    | Bcrypt(tag: nat, stem: string)
    | Unreadable(text: string)   // neither $2… nor a PHC string parsePHC accepts

  const BCRYPT_LIMIT := 72

  function Truncate(password: string): string {
    if |password| <= BCRYPT_LIMIT then password else password[..BCRYPT_LIMIT]
  }

  predicate Accepts(e: Encoded, password: string) {
    match e
    case Argon2id(_, _, p) => p == password
    case Bcrypt(_, stem) => Truncate(password) == stem
    case Unreadable(_) => false
  }

  /** An import accepts whatever shares the first 72 characters of the password it was made from. */
  lemma ImportsReadSeventyTwo(tag: nat, password: string, guess: string)
    ensures Accepts(Bcrypt(tag, Truncate(password)), guess) <==>
              guess == password || (|password| >= 72 && password[..72] <= guess)
  {
    assert password[..|password|] == password && guess[..|guess|] == guess;
    if |password| == 72 {
      assert password[..72] == password;
    }
    if |password| >= 72 && |guess| == 72 {
      assert guess[..72] == guess;
    }
  }

  predicate Weaker(stored: Cost, configured: Cost) {
    stored.memory < configured.memory || stored.time < configured.time || stored.keyLen < configured.keyLen
  }

  datatype Verdict = Verdict(ok: bool, rehash: bool)

  /** Hasher.Verify, with `busy` standing for the hashing bound turning the caller away. */
  function Verify(configured: Cost, busy: bool, password: string, e: Encoded): Result<Verdict> {
    if busy then Err(HasherBusy)
    else match e
      case Argon2id(cost, _, p) => Ok(Verdict(p == password, p == password && Weaker(cost, configured)))
      case Bcrypt(_, _) => Ok(Verdict(Accepts(e, password), Accepts(e, password)))
      case Unreadable(_) => Err(Internal)
  }
}

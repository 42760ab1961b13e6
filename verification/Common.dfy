/** Vocabulary shared by every component of the model. */
module Common {

  datatype Option<+T> = None | Some(value: T)

  datatype Result<+T, +E> = Ok(value: T) | Err(error: E)

  type HostId = string
  type CommandId = string
  type MessageId = string

  /** A text column that is meant to hold a hex SHA-256 digest.

      `Sha256(x)` is the digest of `x`.  SHA-256 is taken to be collision free, which is
      exactly the injectivity of the constructor.  `Text(t)` is any other text a caller
      may put in the same column. */
  datatype Digest = Sha256(preimage: string) | Text(text: string)
  {
    /** The length test `len(digest) == 64` of the source. */
    predicate Has64Characters() {
      Sha256? || |text| == 64
    }
  }

  /** Decimal rendering of a natural number, the `%d` verb. */
  function Decimal(n: nat): string {
    var digit := [('0' as int + n % 10) as char];
    if n < 10 then digit else Decimal(n / 10) + digit
  }
}

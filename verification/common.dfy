/** Shared vocabulary: identifiers, optional values, the failures the
    repositories and services raise, and identifier generation. */
module Common {

  /** Identifiers are opaque strings: UUIDs for relational rows,
      document ids for the session log collections. */
  type Id = string

  datatype Option<+T> = None | Some(value: T) {
    function GetOr(default: T): T {
      if Some? then value else default
    }
  }

  /** What a repository or service call can throw.
      - NotFound: a `NotFoundError`, which is an `AppError` and so reaches
        the client with its own status code and message;
      - Plain: a plain `Error` thrown by a domain guard;
      - StoreFailure: an error raised by the database client itself
        (a failed document validation, a delete of a missing row). */
  datatype Failure =
    | NotFound(message: string)
    | Plain(message: string)
    | StoreFailure(message: string)

  datatype Result<+T> = Ok(value: T) | Err(failure: Failure)

  /** A JavaScript string is truthy when it is present and non-empty. */
  predicate Truthy(s: Option<string>) {
    s.Some? && s.value != ""
  }

  /** The message of every `NotFoundError`: "<entity> with ID <id> not found". */
  function NotFoundMessage(entity: string, id: Id): string {
    entity + " with ID " + id + " not found"
  }

  /** The n-th identifier the store generates. Only distinctness matters,
      so the n-th identifier is simply n + 1 characters long. */
  function Mint(n: nat): (id: Id)
    ensures |id| == n + 1
  {
    seq(n + 1, _ => '0')
  }

  predicate IsHexDigit(c: char) {
    '0' <= c <= '9' || 'a' <= c <= 'f' || 'A' <= c <= 'F'
  }

  /** The textual UUID shape `z.string().uuid()` accepts: 36 characters,
      hyphens at positions 8, 13, 18 and 23, hexadecimal digits elsewhere. */
  predicate IsUuid(s: string) {
    |s| == 36 &&
    forall i :: 0 <= i < |s| ==>
      if i == 8 || i == 13 || i == 18 || i == 23 then s[i] == '-' else IsHexDigit(s[i])
  }

  /** Workout and exercise names need at least this many characters. */
  const MinNameLength := 3

  /** A string's length as JavaScript measures it, in UTF-16 code units: a
      character beyond the Basic Multilingual Plane takes two. */
  function Utf16Length(s: string): (n: nat)
    ensures |s| <= n <= 2 * |s|
  {
    if |s| == 0 then 0
    else (if s[0] as int > 0xFFFF then 2 else 1) + Utf16Length(s[1..])
  }

  /** `z.string().min(3)`, which counts UTF-16 code units. */
  predicate ValidName(name: string) {
    Utf16Length(name) >= MinNameLength
  }

  /** Two characters can make a valid name when one of them lies beyond the
      Basic Multilingual Plane. */
  lemma ShortNameWithWideCharacter()
    ensures ValidName("a\U{1F600}") && |"a\U{1F600}"| == 2
  {
    assert "a\U{1F600}"[1..] == "\U{1F600}";
  }

  /** A JavaScript number that is a whole number (`z.number().int()`). */
  predicate IsWhole(x: real) {
    x.Floor as real == x
  }
}

/** Shared vocabulary of the job-board server: identifiers, optional values,
    HTTP-style replies and the authenticated caller. */
module Common {

  /** Document identifiers (the hex form of an ObjectId). */
  type Id = string

  datatype Option<+T> = None | Some(value: T) {
    function GetOr(default: T): T {
      match this
      case Some(v) => v
      case None => default
    }
  }

  /** A handler either answers with a success status and a body, or with an
      error status and the message string it sends. */
  datatype Reply<+T> = Ok(code: int, value: T) | Fail(code: int, message: string)

  /** JavaScript truthiness of an optional request string: a missing value
      and the empty string are both falsy. */
  predicate Present(s: Option<string>) {
    s.Some? && s.value != ""
  }

  datatype UserType = Candidate | Recruiter | Admin

  /** A stored file reference (a resume or an uploaded document). */
  datatype FileRef = FileRef(filename: string, originalName: string, path: string, uploadedAt: int)

  /** The user the authentication middleware attaches to a request. */
  datatype User = User(id: Id, userType: UserType, profileResume: Option<FileRef>)

  /** JavaScript's `.length` of a string, which the store's `maxlength`
      checks: UTF-16 code units, two for a character outside the Basic
      Multilingual Plane. */
  function Utf16Length(s: string): (n: nat)
    ensures |s| <= n <= 2 * |s|
  {
    if s == [] then 0
    else (if s[0] as int > 0xFFFF then 2 else 1) + Utf16Length(s[1..])
  }

  /** A string made only of characters outside the Basic Multilingual
      Plane (emoji, say) is twice as long for the store as it has
      characters. */
  lemma {:induction false} Utf16LengthAllAstral(s: string)
    requires forall i :: 0 <= i < |s| ==> s[i] as int > 0xFFFF
    ensures Utf16Length(s) == 2 * |s|
  {
    if s != [] {
      Utf16LengthAllAstral(s[1..]);
    }
  }

  /** The reply every handler sends from its catch block. */
  function ServerError<T>(): Reply<T> {
    Fail(500, "Server error")
  }
}

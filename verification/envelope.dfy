/**
 The uniform response envelope `{ isSuccess, data?, error?: { code } }` every
 handler returns with HTTP 200, and the error codes it carries.
 */
module Envelope {

  import opened Base

  datatype ErrorCode =
    | WeakPassword
    | DuplicateEmail
    | InvalidEmail
    | StytchError
    | StripeError
    | DatabaseError
    | InvalidCredentials
    | DbError

  /** The code as it appears on the wire in `error.code`. */
  function CodeString(c: ErrorCode): string
  {
    match c
    case WeakPassword => "WEAK_PASSWORD"
    case DuplicateEmail => "DUPLICATE_EMAIL"
    case InvalidEmail => "INVALID_EMAIL"
    case StytchError => "STYTCH_ERROR"
    case StripeError => "STRIPE_ERROR"
    case DatabaseError => "DATABASE_ERROR"
    case InvalidCredentials => "INVALID_CREDENTIALS"
    case DbError => "DB_ERROR"
  }

  /** Distinct codes are distinct on the wire, so a client can tell every failure apart. */
  lemma CodeStringInjective(a: ErrorCode, b: ErrorCode)
    ensures CodeString(a) == CodeString(b) <==> a == b
  {
    if a != b {
      var sa, sb := CodeString(a), CodeString(b);
      assert sa != sb by {
        match a
        case WeakPassword => assert sa[0] == 'W';
        case DuplicateEmail => assert sa[0] == 'D' && sa[1] == 'U';
        case InvalidEmail => assert sa[0] == 'I' && sa[2] == 'V';
        case StytchError => assert sa[0] == 'S' && sa[1] == 'T' && sa[2] == 'Y';
        case StripeError => assert sa[0] == 'S' && sa[2] == 'R';
        case DatabaseError => assert sa[0] == 'D' && sa[1] == 'A';
        case InvalidCredentials => assert sa[0] == 'I' && sa[2] == 'V' && sa[8] == 'C';
        case DbError => assert sa[0] == 'D' && sa[1] == 'B';
      }
    }
  }

  /** An error a collaborator (a query, an external provider) returned; handlers only log its content. */
  datatype Fault = Fault

  /** A response envelope whose success branch carries optional data of type `D`. */
  datatype ApiResult<+D> = Success(data: Option<D>) | Failure(code: ErrorCode) {
    /** The `isSuccess` field. */
    predicate IsSuccess() { Success? }
  }
}

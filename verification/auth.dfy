/**
 Account sign-up and password login. Every call to a collaborator (identity
 provider, billing provider, user insert, metadata update, welcome mail) is
 recorded in a trace, and its answer is an input: the answer that collaborator
 gives if the handler gets as far as calling it.
 */
module Auth {

  import opened Base
  import opened Rows
  import opened Envelope

  /** The shortest password accepted, counted in bytes as Go's `len` counts a string. */
  const MinPasswordBytes: nat := 8

  /** The session lifetime requested at login. */
  const SessionDurationMinutes: nat := 60

  const WelcomeFrom: string := "no-reply@gameplan.com"
  const WelcomeSubject: string := "Welcome to Gameplan"
  const LoginMessage: string := "Login successful"

  /** Why the identity provider refused to create the identity. */
  datatype IdentityFailure =
    | ProviderError(errorType: string)   // a typed provider error, with its `error_type`
    | OtherError                         // any other error (transport, decoding, ...)

  datatype SignUpRequest = SignUpRequest(name: string, email: string, password: seq<byte>, birthday: Option<int>)

  /** The answer each collaborator gives if it is called. */
  datatype SignUpOutcomes = SignUpOutcomes(
    identity: Result<string, IdentityFailure>,  // the new identity's user id
    billing: Result<string, Fault>,             // the new billing customer's id
    store: Result<int, Fault>,                  // the new users row's id
    metadata: Result<(), Fault>,
    email: Result<(), Fault>)

  datatype Call =
    | CreateIdentity(email: string, password: seq<byte>)
    | CreateCustomer(email: string, name: string, stytchId: string)
    | InsertUser(params: CreateUserParams)
    | UpdateTrustedMetadata(stytchUserId: string, userId: int)
    | SendEmail(from: string, subject: string, body: string, to: string)

  /** A handler's response together with the calls it made, in order. */
  datatype Handled<+D> = Handled(result: ApiResult<D>, calls: seq<Call>)

  /** The position of each call in the workflow. */
  function StepOf(c: Call): nat
  {
    match c
    case CreateIdentity(_, _) => 0
    case CreateCustomer(_, _, _) => 1
    case InsertUser(_) => 2
    case UpdateTrustedMetadata(_, _) => 3
    case SendEmail(_, _, _, _) => 4
  }

  /** The error code for an identity-creation failure. */
  function ClassifyIdentityError(e: IdentityFailure): ErrorCode
  {
    match e
    case ProviderError("duplicate_email") => DuplicateEmail
    case ProviderError("invalid_email") => InvalidEmail
    case _ => StytchError
  }

  /** Only the two named provider error types get their own code; everything else is STYTCH_ERROR. */
  lemma ClassifyIdentityErrorTable(e: IdentityFailure)
    ensures ClassifyIdentityError(e) == DuplicateEmail <==> e == ProviderError("duplicate_email")
    ensures ClassifyIdentityError(e) == InvalidEmail <==> e == ProviderError("invalid_email")
    ensures ClassifyIdentityError(e) == StytchError <==>
              e != ProviderError("duplicate_email") && e != ProviderError("invalid_email")
    ensures ClassifyIdentityError(e) in {DuplicateEmail, InvalidEmail, StytchError}
  {
  }

  /** The users row the workflow inserts once both external records exist. */
  function NewUserParams(req: SignUpRequest, stytchId: string, customerId: string): (p: CreateUserParams)
    ensures p.stytchId == stytchId && p.stripeId == customerId
    ensures p.name == req.name && p.email == req.email
    ensures p.lang == "en" && !p.isVerified
    ensures p.phone.None? && p.country.None?
    ensures p.birthday.Some? <==> req.birthday.Some?
  {
    CreateUserParams(stytchId, customerId, req.name, req.email, None, None, req.birthday, "en", false)
  }

  /**
   PostUsersSignUpUser: validates the password, then creates the identity,
   the billing customer and the users row, stopping at the first failure;
   the metadata update and the welcome mail are best effort.
   */
  function SignUp(req: SignUpRequest, o: SignUpOutcomes): (r: Handled<()>)
    ensures r.result.IsSuccess() <==>
              |req.password| >= MinPasswordBytes && o.identity.Ok? && o.billing.Ok? && o.store.Ok?
    ensures r.result.Success? ==> r.result.data.None?
    ensures forall i :: 0 <= i < |r.calls| ==> StepOf(r.calls[i]) == i
    ensures |r.calls| == if |req.password| < MinPasswordBytes then 0
                         else if o.identity.Err? then 1
                         else if o.billing.Err? then 2
                         else if o.store.Err? then 3
                         else 5
    ensures |req.password| < MinPasswordBytes ==> r.result == Failure(WeakPassword)
    ensures |req.password| >= MinPasswordBytes && o.identity.Err? ==>
              r.result == Failure(ClassifyIdentityError(o.identity.error))
    ensures |req.password| >= MinPasswordBytes && o.identity.Ok? && o.billing.Err? ==>
              r.result == Failure(StripeError)
    ensures |req.password| >= MinPasswordBytes && o.identity.Ok? && o.billing.Ok? && o.store.Err? ==>
              r.result == Failure(DatabaseError)
  {
    if |req.password| < MinPasswordBytes then Handled(Failure(WeakPassword), [])
    else
      var identityCall := CreateIdentity(req.email, req.password);
      match o.identity
      case Err(e) => Handled(Failure(ClassifyIdentityError(e)), [identityCall])
      case Ok(stytchId) =>
        var billingCall := CreateCustomer(req.email, req.name, stytchId);
        match o.billing
        case Err(_) => Handled(Failure(StripeError), [identityCall, billingCall])
        case Ok(customerId) =>
          var storeCall := InsertUser(NewUserParams(req, stytchId, customerId));
          match o.store
          case Err(_) => Handled(Failure(DatabaseError), [identityCall, billingCall, storeCall])
          case Ok(userId) =>
            // The outcomes of the two best-effort calls are only logged.
            Handled(Success(None),
                    [identityCall, billingCall, storeCall,
                     UpdateTrustedMetadata(stytchId, userId),
                     SendEmail(WelcomeFrom, WelcomeSubject, "", req.email)])
  }

  /** Whatever the metadata update and the welcome mail answer, the response and the calls are the same. */
  lemma SignUpBestEffortSteps(req: SignUpRequest, o: SignUpOutcomes, metadata: Result<(), Fault>, email: Result<(), Fault>)
    ensures SignUp(req, o.(metadata := metadata, email := email)) == SignUp(req, o)
  {
  }

  /**
   The calls carry the right arguments: the billing customer is tagged with the
   new identity's id, the inserted row links both external ids, and the
   metadata update and the mail go to the new identity and the new address.
   */
  lemma SignUpCallArguments(req: SignUpRequest, o: SignUpOutcomes)
    ensures var calls := SignUp(req, o).calls;
            && (|calls| > 0 ==> calls[0] == CreateIdentity(req.email, req.password))
            && (|calls| > 1 ==> calls[1] == CreateCustomer(req.email, req.name, o.identity.value))
            && (|calls| > 2 ==> calls[2].params == NewUserParams(req, o.identity.value, o.billing.value))
            && (|calls| > 3 ==> calls[3] == UpdateTrustedMetadata(o.identity.value, o.store.value))
            && (|calls| > 4 ==> calls[4] == SendEmail(WelcomeFrom, WelcomeSubject, "", req.email))
  {
  }

  /**
   Failure before the billing step leaves no billing customer and no users row;
   failure at the billing step leaves no users row.
   */
  lemma SignUpNoOrphanWrites(req: SignUpRequest, o: SignUpOutcomes)
    ensures var calls := SignUp(req, o).calls;
            && (o.identity.Err? ==> forall c :: c in calls ==> !c.CreateCustomer? && !c.InsertUser?)
            && (o.billing.Err? ==> forall c :: c in calls ==> !c.InsertUser?)
            && (o.store.Err? ==> forall c :: c in calls ==> !c.UpdateTrustedMetadata? && !c.SendEmail?)
  {
  }

  // ---------------------------------------------------------------------------
  // Login

  datatype LoginRequest = LoginRequest(email: string, password: string)

  datatype AuthenticateCall = AuthenticateCall(email: string, password: string, sessionDurationMinutes: nat)

  datatype LoginData = LoginData(message: string, token: string)

  /**
   PostSessions: one password authentication with a 60-minute session; any
   provider error is reported as INVALID_CREDENTIALS.
   */
  function Login(req: LoginRequest, authenticated: Result<string, Fault>)
    : (r: (AuthenticateCall, ApiResult<LoginData>))
    ensures r.0 == AuthenticateCall(req.email, req.password, 60)
    ensures r.1.IsSuccess() <==> authenticated.Ok?
    ensures authenticated.Err? ==> r.1 == Failure(InvalidCredentials)
    ensures authenticated.Ok? ==> r.1.data == Some(LoginData("Login successful", authenticated.value))
  {
    var call := AuthenticateCall(req.email, req.password, SessionDurationMinutes);
    match authenticated
    case Err(_) => (call, Failure(InvalidCredentials))
    case Ok(token) => (call, Success(Some(LoginData(LoginMessage, token))))
  }
}

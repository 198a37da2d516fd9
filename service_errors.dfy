/** The service's translation of repository errors into business errors:
    the first sentinel the error is, in a fixed order, picks the result; an
    error that is none of them passes through. */
module ServiceErrors {
  import opened Errs
  import opened Domain
  import RepositoryErrors

  /** The five cases of the service's switch, in order. */
  const ServiceTable: seq<(Kind, Error)> := [
    (UserNotFound, Sentinel(InvalidCredentials)),
    (AccountNotFound, Sentinel(AccessDenied)),
    (UserAlreadyExists, Sentinel(UserAlreadyRegistered)),
    (CardAlreadyExists, Sentinel(InvalidOperation)),
    (DatabaseError, Sentinel(DatabaseError))
  ]

  /** translateError on a non-nil error. */
  function Translate(e: Error): (r: Error)
    ensures r == e || r in {Sentinel(InvalidCredentials), Sentinel(AccessDenied), Sentinel(UserAlreadyRegistered),
                            Sentinel(InvalidOperation), Sentinel(DatabaseError)}
    ensures (!Is(e, UserNotFound) && !Is(e, AccountNotFound) && !Is(e, UserAlreadyExists)
             && !Is(e, CardAlreadyExists) && !Is(e, DatabaseError)) ==> r == e
    ensures Is(e, DatabaseError) ==> Is(r, DatabaseError) || Is(e, UserNotFound) || Is(e, AccountNotFound)
                                     || Is(e, UserAlreadyExists) || Is(e, CardAlreadyExists)
  {
    if Is(e, UserNotFound) then Sentinel(InvalidCredentials)
    else if Is(e, AccountNotFound) then Sentinel(AccessDenied)
    else if Is(e, UserAlreadyExists) then Sentinel(UserAlreadyRegistered)
    else if Is(e, CardAlreadyExists) then Sentinel(InvalidOperation)
    else if Is(e, DatabaseError) then Sentinel(DatabaseError)
    else e
  }

  /** translateError, nil included. */
  function TranslateError(err: Option<Error>): Option<Error> {
    MapError(err, Translate)
  }

  /** The switch is the first match in the table, with the error itself as
      the default. */
  lemma TranslateIsFirstMatch(e: Error)
    ensures Translate(e) == FirstMatch(ServiceTable, e, e)
  {
    var t := ServiceTable;
    assert t[1..][1..][1..][1..][1..] == [];
  }

  /** Translating twice is translating once: every result is a fixed point. */
  lemma TranslateIdempotent(e: Error)
    ensures Translate(Translate(e)) == Translate(e)
  {
  }

  /** A database error the repository could not classify stays a database
      error through the service. */
  lemma UnclassifiedDatabaseErrorSurvives(e: Error)
    requires !e.Postgres? && Text(e) != NoRowsText
    ensures Translate(RepositoryErrors.Translate(e)) == Sentinel(DatabaseError)
  {
    var r := RepositoryErrors.Translate(e);
    assert r == Wrapped(KindText(DatabaseError) + ": " + Text(e), [Sentinel(DatabaseError)]);
    forall k: Kind
      ensures Is(r, k) <==> k == DatabaseError
    {
      IsThroughOneWrap(r.msg, Sentinel(DatabaseError), k);
    }
  }

  /** "No rows" becomes invalid credentials, so a missing user is not told
      apart from a wrong password. */
  lemma MissingUserIsInvalidCredentials(e: Error)
    requires Text(e) == NoRowsText
    ensures Translate(RepositoryErrors.Translate(e)) == Sentinel(InvalidCredentials)
  {
  }
}

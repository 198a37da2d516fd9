/** The repository's translation of database errors into the bank's
    errors: "no rows" becomes "user not found", PostgreSQL constraint
    violations become readable messages or sentinels by SQLSTATE code, and
    anything else is wrapped so that it still is a database error. */
module RepositoryErrors {
  import opened Errs
  import opened Domain

  /** SQLSTATE codes of the integrity-constraint violations. */
  const UniqueViolation: string := "23505"
  const ForeignKeyViolation: string := "23503"
  const NotNullViolation: string := "23502"
  const CheckViolation: string := "23514"

  const EmailTakenText: string := "user with this email already exists"
  const PhoneTakenText: string := "user with this phone already exists"
  const RelatedMissingText: string := "related record does not exist"
  const FieldMissingPrefix: string := "required field is missing: "
  const InvalidDataPrefix: string := "invalid data: "
  const DatabaseErrorPrefix: string := "database error: "

  /** ASCII lower-casing of one character. */
  function LowerChar(c: char): char {
    if 'A' <= c <= 'Z' then (c as int + 32) as char else c
  }

  function ToLower(s: string): (r: string)
    ensures |r| == |s|
    ensures forall i | 0 <= i < |s| :: r[i] == LowerChar(s[i])
  {
    seq(|s|, i requires 0 <= i < |s| => LowerChar(s[i]))
  }

  lemma ToLowerIdempotent(s: string)
    ensures ToLower(ToLower(s)) == ToLower(s)
  {
    assert forall i | 0 <= i < |s| :: LowerChar(LowerChar(s[i])) == LowerChar(s[i]);
  }

  /** `sub` occurs in `s` at position `i`. */
  predicate OccursAt(s: string, sub: string, i: int) {
    0 <= i <= |s| - |sub| && s[i..i + |sub|] == sub
  }

  /** strings.Contains. */
  predicate Contains(s: string, sub: string) {
    exists i | 0 <= i <= |s| :: OccursAt(s, sub, i)
  }

  /** A driver error's text starts with "pq: ", so it is never the text of
      "no rows". */
  lemma DriverTextIsNotNoRows(e: Error)
    ensures e.Postgres? ==> Text(e) != NoRowsText
  {
    if e.Postgres? {
      assert Text(e)[0] == 'p' != NoRowsText[0];
    }
  }

  /** The error a unique-constraint violation becomes: the first field the
      lower-cased detail mentions, in the order email, phone, card number. */
  function UniqueViolationError(detail: string): Error {
    var d := ToLower(detail);
    if Contains(d, "email") then Plain(EmailTakenText)
    else if Contains(d, "phone") then Plain(PhoneTakenText)
    else if Contains(d, "card_number") then Sentinel(CardAlreadyExists)
    else Sentinel(UserAlreadyExists)
  }

  /** translateError on a non-nil error. */
  function Translate(e: Error): (r: Error)
    ensures !r.Postgres?
    ensures Text(e) == NoRowsText ==> r == Sentinel(UserNotFound)
    ensures Is(r, DatabaseError) <==> Text(e) != NoRowsText && !e.Postgres?
    ensures Is(r, DatabaseError) ==> Text(r) == KindText(DatabaseError) + ": " + Text(e)
    ensures e.Postgres? && e.code == UniqueViolation ==>
      r == Plain(EmailTakenText) || r == Plain(PhoneTakenText)
      || r == Sentinel(CardAlreadyExists) || r == Sentinel(UserAlreadyExists)
  {
    DriverTextIsNotNoRows(e);
    if Text(e) == NoRowsText then Sentinel(UserNotFound)
    else match e
      case Postgres(code, message, detail, column) =>
        if code == UniqueViolation then UniqueViolationError(detail)
        else if code == ForeignKeyViolation then Plain(RelatedMissingText)
        else if code == NotNullViolation then Plain(FieldMissingPrefix + column)
        else if code == CheckViolation then Plain(InvalidDataPrefix + message)
        else Plain(DatabaseErrorPrefix + message)
      case _ =>
        var w := Wrapped(KindText(DatabaseError) + ": " + Text(e), [Sentinel(DatabaseError)]);
        IsThroughOneWrap(w.msg, Sentinel(DatabaseError), DatabaseError);
        w
  }

  /** translateError, nil included. */
  function TranslateError(err: Option<Error>): Option<Error> {
    MapError(err, Translate)
  }

  /** Only the detail's letters, not their case, decide the outcome of a
      unique-constraint violation. */
  lemma UniqueViolationIgnoresCase(message: string, detail: string, column: string)
    ensures Translate(Postgres(UniqueViolation, message, detail, column))
         == Translate(Postgres(UniqueViolation, message, ToLower(detail), column))
  {
    DriverTextIsNotNoRows(Postgres(UniqueViolation, message, detail, column));
    DriverTextIsNotNoRows(Postgres(UniqueViolation, message, ToLower(detail), column));
    ToLowerIdempotent(detail);
  }

  /** A detail that mentions the email reports the email, whatever else it
      mentions: the email is checked before the phone and the card number. */
  lemma EmailMentionWins(message: string, detail: string, column: string)
    requires Contains(ToLower(detail), "email")
    ensures Translate(Postgres(UniqueViolation, message, detail, column)) == Plain(EmailTakenText)
  {
    DriverTextIsNotNoRows(Postgres(UniqueViolation, message, detail, column));
  }

  /** A detail that spells the column in capitals, such as
      "Key (EMAIL)=(a@b.tj) already exists.", still reports the email. */
  lemma CapitalEmailIsReported(message: string, before: string, after: string, column: string)
    ensures Translate(Postgres(UniqueViolation, message, before + "EMAIL" + after, column)) == Plain(EmailTakenText)
  {
    ToLowerConcat(before + "EMAIL", after);
    ToLowerConcat(before, "EMAIL");
    var upper := "EMAIL";
    assert ToLower(upper) == "email" by {
      assert ToLower(upper)[0] == LowerChar(upper[0]) == 'e';
      assert ToLower(upper)[1] == LowerChar(upper[1]) == 'm';
      assert ToLower(upper)[2] == LowerChar(upper[2]) == 'a';
      assert ToLower(upper)[3] == LowerChar(upper[3]) == 'i';
      assert ToLower(upper)[4] == LowerChar(upper[4]) == 'l';
    }
    ContainsMiddle(ToLower(before), "email", ToLower(after));
    EmailMentionWins(message, before + "EMAIL" + after, column);
  }

  /** Lower-casing works character by character, so it distributes over
      concatenation. */
  lemma ToLowerConcat(a: string, b: string)
    ensures ToLower(a + b) == ToLower(a) + ToLower(b)
  {
    assert forall i | 0 <= i < |a + b| :: ToLower(a + b)[i] == (ToLower(a) + ToLower(b))[i];
  }

  lemma ContainsMiddle(a: string, b: string, c: string)
    ensures Contains(a + b + c, b)
  {
    assert (a + b + c)[|a|..|a| + |b|] == b;
    assert OccursAt(a + b + c, b, |a|);
  }

  /** The remaining constraint codes. */
  lemma ConstraintMessages(message: string, detail: string, column: string)
    ensures Translate(Postgres(ForeignKeyViolation, message, detail, column)) == Plain("related record does not exist")
    ensures Translate(Postgres(NotNullViolation, message, detail, column)) == Plain("required field is missing: " + column)
    ensures Translate(Postgres(CheckViolation, message, detail, column)) == Plain("invalid data: " + message)
  {
    DriverTextIsNotNoRows(Postgres(ForeignKeyViolation, message, detail, column));
    DriverTextIsNotNoRows(Postgres(NotNullViolation, message, detail, column));
    DriverTextIsNotNoRows(Postgres(CheckViolation, message, detail, column));
  }

  /** Any other PostgreSQL code falls to the default case: a database error
      carrying the server's message. */
  lemma OtherCodesAreDatabaseErrors(code: string, message: string, detail: string, column: string)
    requires code != UniqueViolation && code != ForeignKeyViolation && code != NotNullViolation && code != CheckViolation
    ensures Translate(Postgres(code, message, detail, column)) == Plain("database error: " + message)
  {
    DriverTextIsNotNoRows(Postgres(code, message, detail, column));
  }
}

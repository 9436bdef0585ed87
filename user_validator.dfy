/**
  UserValidator: a user's id must be positive, and the email, name, surname
  and password, when present, non-empty and at most 100 long; the email
  must also match ^[A-Za-z0-9+_.-]+@(.+)$ as a whole.
 */
module UserValidation {
  import opened Wrappers
  import opened Strings
  import opened Entities
  import opened ValidationErrors

  const MAX_LENGTH: nat := 100

  predicate Supports(clazz: EntityClass) {
    clazz == UserClass
  }

  // ---------------------------------------------------------------------
  // The email pattern
  // ---------------------------------------------------------------------

  /** The character class [A-Za-z0-9+_.-]. */
  predicate IsLocalChar(c: char) {
    ('A' <= c <= 'Z') || ('a' <= c <= 'z') || ('0' <= c <= '9') || c == '+' || c == '_' || c == '.' || c == '-'
  }

  /** The characters '.' does not match without DOTALL: the line terminators. */
  predicate IsLineTerminator(c: char) {
    c == '\n' || c == '\r' || c == '\U{85}' || c == '\U{2028}' || c == '\U{2029}'
  }

  /** The strings the whole pattern matches: a local part, "@", and a non-empty line. */
  predicate MatchesEmailPattern(email: string) {
    exists i :: 0 < i < |email| - 1 && email[i] == '@' &&
      (forall k :: 0 <= k < i ==> IsLocalChar(email[k])) &&
      (forall k :: i < k < |email| ==> !IsLineTerminator(email[k]))
  }

  /** The length of the longest prefix drawn from the local-part class. */
  function LocalRun(s: string): (n: nat)
    ensures n <= |s|
    ensures forall k :: 0 <= k < n ==> IsLocalChar(s[k])
    ensures n < |s| ==> !IsLocalChar(s[n])
  {
    if s == [] || !IsLocalChar(s[0]) then 0 else 1 + LocalRun(s[1..])
  }

  /** String.matches for the email pattern: the greedy class run must stop at "@" with a line after it. */
  function EmailMatches(email: string): bool {
    var n := LocalRun(email);
    0 < n && n + 1 < |email| && email[n] == '@' &&
    forall k :: n < k < |email| ==> !IsLineTerminator(email[k])
  }

  /** The matcher accepts exactly the pattern's strings. */
  lemma EmailMatchesIff(email: string)
    ensures EmailMatches(email) <==> MatchesEmailPattern(email)
  {
    var n := LocalRun(email);
    if MatchesEmailPattern(email) {
      var i :| 0 < i < |email| - 1 && email[i] == '@' &&
        (forall k :: 0 <= k < i ==> IsLocalChar(email[k])) &&
        (forall k :: i < k < |email| ==> !IsLineTerminator(email[k]));
      assert !IsLocalChar(email[i]);
      assert n == i;
    }
    if EmailMatches(email) {
      assert 0 < n < |email| - 1 && email[n] == '@';
    }
  }

  /** An address with a dotted, plus-tagged local part is accepted. */
  lemma EmailAccepted()
    ensures EmailMatches("a.b+c@d")
  {
    assert LocalRun("@d") == 0;
    assert LocalRun("c@d") == 1;
    assert LocalRun("+c@d") == 2;
    assert LocalRun("b+c@d") == 3;
    assert LocalRun(".b+c@d") == 4;
    assert LocalRun("a.b+c@d") == 5;
  }

  /** No local part, no domain, a space in the local part, a line break in the domain: all rejected. */
  lemma EmailRejected()
    ensures !EmailMatches("") && !EmailMatches("@d") && !EmailMatches("a@")
    ensures !EmailMatches("a b@d") && !EmailMatches("a@d\n")
  {
    assert LocalRun("@d") == 0;
    assert LocalRun("a@") == 1;
    assert LocalRun(" b@d") == 0;
    assert LocalRun("a b@d") == 1;
    assert LocalRun("@d\n") == 0;
    assert LocalRun("a@d\n") == 1;
    assert "a@d\n"[3] == '\n';
  }

  // ---------------------------------------------------------------------
  // The rules
  // ---------------------------------------------------------------------

  function IdErrors(id: Option<int>, path: string): seq<FieldError> {
    RejectionIf(id.Some? && id.value < 1, path, "id", "id.not_positive")
  }

  function EmailErrors(email: Option<string>, path: string): seq<FieldError> {
    if email.None? then []
    else
      TextErrors(email, path, "email", "user.email.empty", "user.email.too_long", MAX_LENGTH) +
      RejectionIf(!EmailMatches(email.value), path, "email", "user.email.invalid")
  }

  /** The errors validate records for a user, in order, under the nested path. */
  function UserErrors(user: User, path: string): seq<FieldError> {
    IdErrors(user.id, path) +
    EmailErrors(user.email, path) +
    PersonalErrors(user, path)
  }

  /** The rules for name, surname and password. */
  function PersonalErrors(user: User, path: string): seq<FieldError> {
    TextErrors(user.name, path, "name", "user.name.empty", "user.name.too_long", MAX_LENGTH) +
    TextErrors(user.surname, path, "surname", "user.surname.empty", "user.surname.too_long", MAX_LENGTH) +
    TextErrors(user.password, path, "password", "user.password.empty", "user.password.too_long", MAX_LENGTH)
  }

  /** What the rules demand of a user; null fields are not checked. */
  predicate IsValidUser(user: User) {
    (user.id.None? || user.id.value >= 1) &&
    IsValidText(user.email, MAX_LENGTH) && (user.email.None? || MatchesEmailPattern(user.email.value)) &&
    IsValidText(user.name, MAX_LENGTH) && IsValidText(user.surname, MAX_LENGTH) && IsValidText(user.password, MAX_LENGTH)
  }

  method Validate(user: User, errors: Errors)
    modifies errors`fieldErrors
    ensures errors.fieldErrors == old(errors.fieldErrors) + UserErrors(user, errors.nestedPath)
  {
    ghost var path := errors.nestedPath;
    ghost var before := errors.fieldErrors;
    ValidateId(user.id, errors);
    ghost var afterId := errors.fieldErrors;
    ValidateEmail(user.email, errors);
    ghost var afterEmail := errors.fieldErrors;
    ValidatePersonal(user, errors);
    AppendThree(before, IdErrors(user.id, path), EmailErrors(user.email, path), PersonalErrors(user, path));
  }

  /** The id rule: a present id must be positive. */
  method ValidateId(id: Option<int>, errors: Errors)
    modifies errors`fieldErrors
    ensures errors.fieldErrors == old(errors.fieldErrors) + IdErrors(id, errors.nestedPath)
  {
    if id.Some? {
      if id.value < 1 {
        errors.RejectValue("id", "id.not_positive");
      }
    }
  }

  method ValidatePersonal(user: User, errors: Errors)
    modifies errors`fieldErrors
    ensures errors.fieldErrors == old(errors.fieldErrors) + PersonalErrors(user, errors.nestedPath)
  {
    ValidateText(errors, user.name, "name", "user.name.empty", "user.name.too_long", MAX_LENGTH);
    ValidateText(errors, user.surname, "surname", "user.surname.empty", "user.surname.too_long", MAX_LENGTH);
    ValidateText(errors, user.password, "password", "user.password.empty", "user.password.too_long", MAX_LENGTH);
  }

  /** The checks on the email: the text rules, then the pattern. */
  method ValidateEmail(email: Option<string>, errors: Errors)
    modifies errors`fieldErrors
    ensures errors.fieldErrors == old(errors.fieldErrors) + EmailErrors(email, errors.nestedPath)
  {
    if email.Some? {
      ValidateText(errors, email, "email", "user.email.empty", "user.email.too_long", MAX_LENGTH);
      if !EmailMatches(email.value) {
        errors.RejectValue("email", "user.email.invalid");
      }
    }
  }

  /** A user passes exactly when it meets every rule. */
  lemma UserErrorsEmptyIff(user: User, path: string)
    ensures UserErrors(user, path) == [] <==> IsValidUser(user)
  {
    TextErrorsEmptyIff(user.email, path, "email", "user.email.empty", "user.email.too_long", MAX_LENGTH);
    TextErrorsEmptyIff(user.name, path, "name", "user.name.empty", "user.name.too_long", MAX_LENGTH);
    TextErrorsEmptyIff(user.surname, path, "surname", "user.surname.empty", "user.surname.too_long", MAX_LENGTH);
    TextErrorsEmptyIff(user.password, path, "password", "user.password.empty", "user.password.too_long", MAX_LENGTH);
    if user.email.Some? {
      EmailMatchesIff(user.email.value);
    }
  }

  /** An empty email is reported both as empty and as not matching the pattern. */
  lemma EmptyEmailErrors(user: User, path: string)
    requires user.email == Some("")
    ensures EmailErrors(user.email, path) ==
      [FieldError(path + "email", "user.email.empty"), FieldError(path + "email", "user.email.invalid")]
  {
    assert !EmailMatches("");
    assert Utf16Length("") == 0;
  }

  /** A user with every field null passes. */
  lemma NullUserPasses(path: string)
    ensures UserErrors(User(None, None, None, None, None, None, None, None), path) == []
  {
  }
}

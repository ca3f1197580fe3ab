/**
 * The rules a sign-up request body must meet, in its two variants: the
 * service-side `CreateUserDto` and the controller-side
 * `CreateUserControllerDto`. A body is a JSON object; each field is read as a
 * dynamic value and checked by its field's validation rules, which all have to
 * hold.
 *
 * Whether a string is an e-mail address is decided by the validation library
 * and is a parameter here. The rules of the nested skill objects are not
 * modelled (see the README).
 */
module UserDto {
  import opened Wrappers

  /** A field of a JSON body as the validator sees it. */
  datatype FieldValue =
    | Absent
    | Null
    | Str(s: string)
    | Bool(b: bool)
    | Num(n: int)
    | Arr(items: seq<FieldValue>)
    | Obj

  /** The sign-up request body, field by field. */
  datatype Body = Body(
    email: FieldValue,
    role: FieldValue,
    password: FieldValue,
    skillImageUrls: FieldValue,
    username: FieldValue,
    isAdmin: FieldValue,
    avatarUrl: FieldValue,
    skills: FieldValue)

  /** The roles a user can have. */
  datatype Role = Freelancer | Employer

  function RoleName(r: Role): string {
    match r
    case Freelancer => "freelancer"
    case Employer => "employer"
  }

  /** `IsEnum(UserRole)`: the value is one of the role names. */
  function RoleOf(v: FieldValue): (r: Option<Role>)
    ensures r.Some? <==> v == Str("freelancer") || v == Str("employer")
    ensures r.Some? ==> v == Str(RoleName(r.value))
  {
    if v == Str("freelancer") then Some(Freelancer)
    else if v == Str("employer") then Some(Employer)
    else None
  }

  // The password pattern, character class by character class.

  predicate IsAsciiLetter(c: char) {
    'A' <= c <= 'Z' || 'a' <= c <= 'z'
  }

  /** `\d`: an ASCII digit. */
  predicate IsDigit(c: char) {
    '0' <= c <= '9'
  }

  /** The special characters the pattern lists. */
  predicate IsSpecial(c: char) {
    c in SpecialCharacters
  }

  const SpecialCharacters: set<char> := {
    '!', '@', '#', '$', '%', '^', '&', '*', '(', ')', '_', '+', '[', ']', '{', '}',
    ';', '\'', ':', '"', '\\', '|', ',', '.', '<', '>', '/', '?', '`', '~'}

  /** `[A-Za-z\d<specials>]`: the characters a password may contain. */
  predicate IsAllowed(c: char) {
    IsAsciiLetter(c) || IsDigit(c) || IsSpecial(c)
  }

  /** The characters `.` does not match: the ECMAScript line terminators. */
  predicate IsLineTerminator(c: char) {
    c == '\n' || c == '\r' || c as int == 0x2028 || c as int == 0x2029
  }

  /** `(?=.*[class])` at the start: a character of the class comes before any line terminator. */
  predicate LookaheadFinds(s: string, inClass: char -> bool) {
    exists i :: 0 <= i < |s| && inClass(s[i]) && forall j :: 0 <= j < i ==> !IsLineTerminator(s[j])
  }

  /**
   * The whole pattern `^(?=.*[A-Za-z])(?=.*\d)(?=.*[specials])[allowed]{8,}$`,
   * read operator by operator.
   */
  predicate MatchesPasswordPattern(s: string) {
    LookaheadFinds(s, IsAsciiLetter)
    && LookaheadFinds(s, IsDigit)
    && LookaheadFinds(s, IsSpecial)
    && |s| >= 8
    && forall k :: 0 <= k < |s| ==> IsAllowed(s[k])
  }

  /**
   * The password policy in plain words: at least eight characters, every one
   * a letter, a digit or a listed special character, with at least one of
   * each kind.
   */
  predicate PasswordPolicy(s: string) {
    |s| >= 8
    && (forall k :: 0 <= k < |s| ==> IsAllowed(s[k]))
    && (exists k :: 0 <= k < |s| && IsAsciiLetter(s[k]))
    && (exists k :: 0 <= k < |s| && IsDigit(s[k]))
    && (exists k :: 0 <= k < |s| && IsSpecial(s[k]))
  }

  /** No allowed character is a line terminator. */
  lemma AllowedIsNotLineTerminator(c: char)
    requires IsAllowed(c)
    ensures !IsLineTerminator(c)
  {
  }

  lemma LookaheadOfAllowed(s: string, inClass: char -> bool)
    requires forall k :: 0 <= k < |s| ==> IsAllowed(s[k])
    ensures LookaheadFinds(s, inClass) <==> exists k :: 0 <= k < |s| && inClass(s[k])
  {
    if k :| 0 <= k < |s| && inClass(s[k]) {
      forall j | 0 <= j < k ensures !IsLineTerminator(s[j]) {
        AllowedIsNotLineTerminator(s[j]);
      }
    }
  }

  /** The pattern accepts exactly the passwords of the policy. */
  lemma PatternIsPolicy(s: string)
    ensures MatchesPasswordPattern(s) <==> PasswordPolicy(s)
  {
    if forall k :: 0 <= k < |s| ==> IsAllowed(s[k]) {
      LookaheadOfAllowed(s, IsAsciiLetter);
      LookaheadOfAllowed(s, IsDigit);
      LookaheadOfAllowed(s, IsSpecial);
    }
  }

  /** A space, a `-` or a `=` anywhere makes a password invalid. */
  lemma RejectedCharacters(s: string)
    requires ' ' in s || '-' in s || '=' in s
    ensures !MatchesPasswordPattern(s)
  {
    var k :| 0 <= k < |s| && (s[k] == ' ' || s[k] == '-' || s[k] == '=');
    NotAllowed(s[k]);
  }

  lemma NotAllowed(c: char)
    requires c == ' ' || c == '-' || c == '='
    ensures !IsAllowed(c)
  {
  }

  /** The example password of the API documentation is valid. */
  lemma ExamplePasswordAccepted()
    ensures MatchesPasswordPattern("StrongPassword123!")
  {
    var s := "StrongPassword123!";
    ExampleCharacters(s);
    assert IsAsciiLetter(s[0]) && IsDigit(s[14]) && IsSpecial(s[17]);
    assert PasswordPolicy(s);
    PatternIsPolicy(s);
  }

  lemma ExampleCharacters(s: string)
    requires s == "StrongPassword123!"
    ensures |s| == 18
    ensures forall k :: 0 <= k < 14 ==> IsAsciiLetter(s[k])
    ensures forall k :: 14 <= k < 17 ==> IsDigit(s[k])
    ensures s[17] == '!' && IsSpecial(s[17])
    ensures forall k :: 0 <= k < |s| ==> IsAllowed(s[k])
  {
  }

  /** `IsString` + `MinLength(8)` + `Matches(pattern)`. */
  predicate PasswordValid(v: FieldValue) {
    v.Str? && |v.s| >= 8 && MatchesPasswordPattern(v.s)
  }

  /** `IsOptional`: a missing or null field skips the field's other rules. */
  predicate Missing(v: FieldValue) {
    v.Absent? || v.Null?
  }

  /** `IsBoolean` with `IsOptional`. */
  predicate OptionalBool(v: FieldValue) {
    Missing(v) || v.Bool?
  }

  /** `IsArray` with `IsOptional`. */
  predicate OptionalArray(v: FieldValue) {
    Missing(v) || v.Arr?
  }

  /** `IsArray` + `IsString({each: true})` with `IsOptional`. */
  predicate OptionalStringArray(v: FieldValue) {
    Missing(v) || (v.Arr? && forall k :: 0 <= k < |v.items| ==> v.items[k].Str?)
  }

  /** `IsArray` + `ValidateNested({each: true})` with `IsOptional`: an array of objects. */
  predicate OptionalObjectArray(v: FieldValue) {
    Missing(v) || (v.Arr? && forall k :: 0 <= k < |v.items| ==> v.items[k].Obj?)
  }

  predicate EmailValid(v: FieldValue, isEmail: string -> bool) {
    v.Str? && isEmail(v.s)
  }

  /** The rules of `CreateUserDto`. */
  predicate ServiceValid(body: Body, isEmail: string -> bool) {
    EmailValid(body.email, isEmail)
    && RoleOf(body.role).Some?
    && PasswordValid(body.password)
    && OptionalStringArray(body.skillImageUrls)
    && body.username.Str?
    && OptionalBool(body.isAdmin)
    && OptionalObjectArray(body.skills)
  }

  /** The rules of `CreateUserControllerDto`: image URLs only have to form an array. */
  predicate ControllerValid(body: Body, isEmail: string -> bool) {
    EmailValid(body.email, isEmail)
    && RoleOf(body.role).Some?
    && PasswordValid(body.password)
    && OptionalArray(body.skillImageUrls)
    && body.username.Str?
    && OptionalBool(body.isAdmin)
    && OptionalObjectArray(body.skills)
  }

  /**
   * What a valid body guarantees: a role among the two, a password of the
   * policy, and image URLs, when given, that are all strings.
   */
  lemma ServiceValidMeans(body: Body, isEmail: string -> bool)
    requires ServiceValid(body, isEmail)
    ensures RoleOf(body.role).Some?
    ensures body.password.Str? && PasswordPolicy(body.password.s)
    ensures body.skillImageUrls.Arr? ==> forall k :: 0 <= k < |body.skillImageUrls.items| ==> body.skillImageUrls.items[k].Str?
    ensures body.isAdmin.Absent? || body.isAdmin.Null? || body.isAdmin.Bool?
  {
    PatternIsPolicy(body.password.s);
  }

  /** Both variants accept exactly the same passwords: their patterns and length rules are the same. */
  lemma SamePasswordRules(body: Body, isEmail: string -> bool)
    ensures ServiceValid(body, isEmail) ==> PasswordValid(body.password)
    ensures ControllerValid(body, isEmail) ==> PasswordValid(body.password)
    ensures PasswordValid(body.password) <==> body.password.Str? && PasswordPolicy(body.password.s)
  {
    if body.password.Str? {
      PatternIsPolicy(body.password.s);
    }
  }

  /** Every body the service variant accepts, the controller variant accepts too. */
  lemma ServiceValidIsControllerValid(body: Body, isEmail: string -> bool)
    requires ServiceValid(body, isEmail)
    ensures ControllerValid(body, isEmail)
  {
  }

  /** The converse fails: an image-URL array holding a non-string passes only the controller variant. */
  lemma ControllerAcceptsMore(isEmail: string -> bool)
    requires isEmail("user@example.com")
    ensures
      var body := Body(Str("user@example.com"), Str("freelancer"), Str("StrongPassword123!"),
                       Arr([Bool(true)]), Str("JohnDoe"), Absent, Absent, Absent);
      ControllerValid(body, isEmail) && !ServiceValid(body, isEmail)
  {
    ExamplePasswordAccepted();
    var items := [Bool(true)];
    assert !items[0].Str?;
  }

  /**
   * The `isAdmin` of the validated object: false when the field is missing
   * (the class default), the given value otherwise; `None` for an explicit
   * null.
   */
  function EffectiveIsAdmin(v: FieldValue): (r: Option<bool>)
    requires OptionalBool(v)
    ensures v.Absent? ==> r == Some(false)
    ensures v.Null? <==> r.None?
    ensures v.Bool? ==> r == Some(v.b)
  {
    match v
    case Absent => Some(false)
    case Null => None
    case Bool(b) => Some(b)
  }
}

/**
 * The form validation schemas. Each schema checks a form's string fields
 * with a list of checks (minimum and maximum length, e-mail and URL format,
 * the password-strength pattern), every failing check giving an issue with
 * the field's path and the check's fixed message; the register and reset
 * schemas then add a mismatch issue on the confirmation field, and the admin
 * schemas check the role against the three role names. A form shows, per
 * field, the first issue's message.
 *
 * Lengths count UTF-16 code units, as JavaScript strings do. The e-mail and
 * URL formats are the validation library's own and are given as parameters.
 */
module Validations {
  import opened Wrappers
  import AuthContext

  // Messages, one per rule.
  const EmailRequired := "メールアドレスを入力してください"
  const EmailInvalid := "有効なメールアドレスを入力してください"
  const PasswordRequired := "パスワードを入力してください"
  const UsernameRequired := "ユーザー名を入力してください"
  const UsernameTooLong := "ユーザー名は100文字以内で入力してください"
  const PasswordTooShort := "パスワードは8文字以上で入力してください"
  const PasswordWeak := "パスワードは英字と数字を含めてください"
  const ConfirmRequired := "パスワード（確認）を入力してください"
  const PasswordMismatch := "パスワードが一致しません"
  const TitleRequired := "タイトルを入力してください"
  const TitleTooLong := "タイトルは200文字以内で入力してください"
  const DescriptionRequired := "説明を入力してください"
  const DescriptionTooLong := "説明は2000文字以内で入力してください"
  const ContentPathRequired := "コンテンツパスを入力してください"
  const ContentPathTooLong := "コンテンツパスは500文字以内で入力してください"
  const RoleRequired := "ロールを選択してください"
  const GithubUrlRequired := "GitHub URLを入力してください"
  const UrlInvalid := "有効なURLを入力してください"
  const UrlTooLong := "URLは500文字以内で入力してください"
  const CommentRequired := "コメントを入力してください"
  const CommentTooLong := "コメントは5000文字以内で入力してください"

  /** The length of s in UTF-16 code units: a character outside the Basic Multilingual Plane takes two. */
  function Utf16Length(s: string): (n: nat)
    ensures |s| <= n <= 2 * |s|
  {
    if s == [] then 0 else (if s[0] as int > 0xFFFF then 2 else 1) + Utf16Length(s[1..])
  }

  /** Text inside the Basic Multilingual Plane is as long in code units as in characters. */
  lemma {:induction false} Utf16LengthInBmp(s: string)
    requires forall k :: 0 <= k < |s| ==> s[k] as int <= 0xFFFF
    ensures Utf16Length(s) == |s|
  {
    if s != [] {
      assert forall k :: 0 <= k < |s| - 1 ==> s[1..][k] == s[k + 1];
      Utf16LengthInBmp(s[1..]);
    }
  }

  /** The characters a regular expression's `.` does not match. */
  predicate IsLineTerminator(c: char) {
    c == '\n' || c == '\r' || c == '\U{2028}' || c == '\U{2029}'
  }

  predicate IsAsciiLetter(c: char) {
    'a' <= c <= 'z' || 'A' <= c <= 'Z'
  }

  predicate IsAsciiDigit(c: char) {
    '0' <= c <= '9'
  }

  /**
   * Whether a lookahead `(?=.*[class])` at the start of s succeeds: some
   * character of the class is preceded only by characters `.` matches.
   */
  predicate LookaheadFinds(s: string, inClass: char -> bool) {
    exists k :: 0 <= k < |s| && inClass(s[k]) && forall m :: 0 <= m < k ==> !IsLineTerminator(s[m])
  }

  /** The password pattern /^(?=.*[a-zA-Z])(?=.*\d)/: both lookaheads succeed at the start. */
  predicate LetterAndDigitPattern(s: string) {
    LookaheadFinds(s, IsAsciiLetter) && LookaheadFinds(s, IsAsciiDigit)
  }

  /** The text of s before its first line terminator. */
  function FirstLine(s: string): (r: string)
    ensures |r| <= |s| && r == s[..|r|]
    ensures forall m :: 0 <= m < |r| ==> !IsLineTerminator(r[m])
    ensures |r| < |s| ==> IsLineTerminator(s[|r|])
  {
    if s == [] || IsLineTerminator(s[0]) then [] else [s[0]] + FirstLine(s[1..])
  }

  /** A lookahead succeeds exactly when its class occurs in the first line. */
  lemma LookaheadFindsInFirstLine(s: string, inClass: char -> bool)
    requires forall c :: inClass(c) ==> !IsLineTerminator(c)
    ensures LookaheadFinds(s, inClass) <==> exists k :: 0 <= k < |FirstLine(s)| && inClass(FirstLine(s)[k])
  {
    var line := FirstLine(s);
    if LookaheadFinds(s, inClass) {
      var k :| 0 <= k < |s| && inClass(s[k]) && forall m :: 0 <= m < k ==> !IsLineTerminator(s[m]);
      assert k < |line|;
      assert line[k] == s[k];
      assert inClass(line[k]);
    }
    if exists k :: 0 <= k < |line| && inClass(line[k]) {
      var k :| 0 <= k < |line| && inClass(line[k]);
      LookaheadWitness(s, inClass, k);
    }
  }

  /** A character of the class inside the first line makes the lookahead succeed. */
  lemma LookaheadWitness(s: string, inClass: char -> bool, k: nat)
    requires k < |FirstLine(s)| && inClass(FirstLine(s)[k])
    ensures LookaheadFinds(s, inClass)
  {
    var line := FirstLine(s);
    assert s[k] == line[k];
    assert forall m :: 0 <= m < k ==> s[m] == line[m];
  }

  /** The password pattern holds exactly when the first line has an ASCII letter and an ASCII digit. */
  lemma LetterAndDigitInFirstLine(s: string)
    ensures LetterAndDigitPattern(s) <==>
      (exists i :: 0 <= i < |FirstLine(s)| && IsAsciiLetter(FirstLine(s)[i])) &&
      (exists j :: 0 <= j < |FirstLine(s)| && IsAsciiDigit(FirstLine(s)[j]))
  {
    LookaheadFindsInFirstLine(s, IsAsciiLetter);
    LookaheadFindsInFirstLine(s, IsAsciiDigit);
  }

  /** One check of a string field, with the message it reports when it fails. */
  datatype Check =
    | MinLength(bound: nat, message: string)
    | MaxLength(bound: nat, message: string)
    | EmailFormat(message: string)
    | UrlFormat(message: string)
    | LetterAndDigit(message: string)

  /** The validation library's e-mail and URL formats. */
  datatype Formats = Formats(isEmail: string -> bool, isUrl: string -> bool)

  predicate Passes(check: Check, s: string, formats: Formats) {
    match check
    case MinLength(n, _) => Utf16Length(s) >= n
    case MaxLength(n, _) => Utf16Length(s) <= n
    case EmailFormat(_) => formats.isEmail(s)
    case UrlFormat(_) => formats.isUrl(s)
    case LetterAndDigit(_) => LetterAndDigitPattern(s)
  }

  /** A validation failure: the field it belongs to and its message. */
  datatype Issue = Issue(path: string, message: string)

  /**
   * The issues of one string field: every check runs, and each failing one
   * reports its message, in the order of the checks.
   */
  function StringIssues(path: string, s: string, checks: seq<Check>, formats: Formats): (issues: seq<Issue>)
    ensures |issues| <= |checks|
    ensures forall i :: 0 <= i < |issues| ==> issues[i].path == path
    ensures issues == [] <==> forall k :: 0 <= k < |checks| ==> Passes(checks[k], s, formats)
    ensures checks != [] && !Passes(checks[0], s, formats) ==> issues != [] && issues[0].message == checks[0].message
  {
    if checks == [] then []
    else
      var rest := StringIssues(path, s, checks[1..], formats);
      assert forall k :: 1 <= k < |checks| ==> checks[k] == checks[1..][k - 1];
      (if Passes(checks[0], s, formats) then [] else [Issue(path, checks[0].message)]) + rest
  }

  /**
   * The positions, from `from` on, of the checks that fail: each is a failing
   * check's position, they increase, and none is missed.
   */
  function FailingFrom(s: string, checks: seq<Check>, formats: Formats, from: nat): (r: seq<nat>)
    requires from <= |checks|
    ensures forall k :: 0 <= k < |r| ==> from <= r[k] < |checks| && !Passes(checks[r[k]], s, formats)
    ensures forall k, l :: 0 <= k < l < |r| ==> r[k] < r[l]
    ensures forall i :: from <= i < |checks| && !Passes(checks[i], s, formats) ==> i in r
    decreases |checks| - from
  {
    if from == |checks| then []
    else (if Passes(checks[from], s, formats) then [] else [from]) + FailingFrom(s, checks, formats, from + 1)
  }

  /** One step of the checks. */
  lemma StringIssuesStep(path: string, s: string, checks: seq<Check>, formats: Formats, j: nat)
    requires j < |checks|
    ensures StringIssues(path, s, checks[j..], formats) ==
      (if Passes(checks[j], s, formats) then [] else [Issue(path, checks[j].message)]) + StringIssues(path, s, checks[j + 1..], formats)
  {
    assert checks[j..][0] == checks[j] && checks[j..][1..] == checks[j + 1..];
  }

  /** The issues of the checks from `from` on are those of the failing checks, one each, in order. */
  lemma {:induction false} StringIssuesFrom(path: string, s: string, checks: seq<Check>, formats: Formats, from: nat)
    requires from <= |checks|
    ensures |FailingFrom(s, checks, formats, from)| == |StringIssues(path, s, checks[from..], formats)|
    ensures forall k :: 0 <= k < |FailingFrom(s, checks, formats, from)| ==>
      StringIssues(path, s, checks[from..], formats)[k] == Issue(path, checks[FailingFrom(s, checks, formats, from)[k]].message)
    decreases |checks| - from
  {
    if from < |checks| {
      StringIssuesFrom(path, s, checks, formats, from + 1);
      StringIssuesStep(path, s, checks, formats, from);
      var fails := !Passes(checks[from], s, formats);
      var head: seq<nat> := if fails then [from] else [];
      var rest := FailingFrom(s, checks, formats, from + 1);
      var failing := head + rest;
      var later := StringIssues(path, s, checks[from + 1..], formats);
      var issues := (if fails then [Issue(path, checks[from].message)] else []) + later;
      forall k | 0 <= k < |failing|
        ensures issues[k] == Issue(path, checks[failing[k]].message)
      {
        if k >= |head| {
          assert failing[k] == rest[k - |head|];
          assert issues[k] == later[k - |head|];
        }
      }
    }
  }

  /**
   * Every failing check reports exactly one issue and a passing one none:
   * the issues are the failing checks' messages, in the order of the checks.
   */
  lemma StringIssuesPerFailingCheck(path: string, s: string, checks: seq<Check>, formats: Formats) returns (failing: seq<nat>)
    ensures |failing| == |StringIssues(path, s, checks, formats)|
    ensures forall k :: 0 <= k < |failing| ==>
      failing[k] < |checks| && StringIssues(path, s, checks, formats)[k] == Issue(path, checks[failing[k]].message)
    ensures forall k, l :: 0 <= k < l < |failing| ==> failing[k] < failing[l]
    ensures forall i :: 0 <= i < |checks| ==> (i in failing <==> !Passes(checks[i], s, formats))
  {
    failing := FailingFrom(s, checks, formats, 0);
    StringIssuesFrom(path, s, checks, formats, 0);
    assert checks[0..] == checks;
  }


  /** The message a form shows under a field: the first issue for that path. */
  function FirstMessage(issues: seq<Issue>, path: string): (message: Option<string>)
    ensures message.None? <==> forall i :: 0 <= i < |issues| ==> issues[i].path != path
    ensures message.Some? ==> exists i :: 0 <= i < |issues| && issues[i] == Issue(path, message.value)
  {
    if issues == [] then None
    else if issues[0].path == path then Some(issues[0].message)
    else
      var rest := FirstMessage(issues[1..], path);
      assert forall i :: 1 <= i < |issues| ==> issues[i] == issues[1..][i - 1];
      rest
  }

  /** The first message for a path in two lists of issues, one after the other. */
  lemma {:induction false} FirstMessageAppend(a: seq<Issue>, b: seq<Issue>, path: string)
    ensures FirstMessage(a + b, path) == if FirstMessage(a, path).Some? then FirstMessage(a, path) else FirstMessage(b, path)
  {
    if a != [] {
      assert (a + b)[0] == a[0];
      assert (a + b)[1..] == a[1..] + b;
      FirstMessageAppend(a[1..], b, path);
    } else {
      assert a + b == b;
    }
  }

  /** The message of the first failing check, if any. */
  function FirstFailure(s: string, checks: seq<Check>, formats: Formats): Option<string>
  {
    if checks == [] then None
    else if !Passes(checks[0], s, formats) then Some(checks[0].message)
    else FirstFailure(s, checks[1..], formats)
  }

  /** A field shows the message of its first failing check. */
  lemma {:induction false} StringIssuesFirstMessage(path: string, s: string, checks: seq<Check>, formats: Formats)
    ensures FirstMessage(StringIssues(path, s, checks, formats), path) == FirstFailure(s, checks, formats)
  {
    if checks != [] {
      var head := if Passes(checks[0], s, formats) then [] else [Issue(path, checks[0].message)];
      FirstMessageAppend(head, StringIssues(path, s, checks[1..], formats), path);
      StringIssuesFirstMessage(path, s, checks[1..], formats);
      if head != [] {
        assert head[1..] == [];
      }
    }
  }

  /** A field's issues do not affect what another field shows. */
  lemma OtherFieldUnaffected(path: string, other: string, s: string, checks: seq<Check>, formats: Formats, rest: seq<Issue>)
    requires path != other
    ensures FirstMessage(StringIssues(path, s, checks, formats) + rest, other) == FirstMessage(rest, other)
  {
    FirstMessageAppend(StringIssues(path, s, checks, formats), rest, other);
  }

  // The checks of each field, in the order the schemas list them.
  const EmailChecks := [MinLength(1, EmailRequired), EmailFormat(EmailInvalid)]
  const LoginPasswordChecks := [MinLength(1, PasswordRequired)]
  const UsernameChecks := [MinLength(1, UsernameRequired), MaxLength(100, UsernameTooLong)]
  const StrongPasswordChecks := [MinLength(8, PasswordTooShort), LetterAndDigit(PasswordWeak)]
  const ConfirmChecks := [MinLength(1, ConfirmRequired)]
  const TitleChecks := [MinLength(1, TitleRequired), MaxLength(200, TitleTooLong)]
  const DescriptionChecks := [MinLength(1, DescriptionRequired), MaxLength(2000, DescriptionTooLong)]
  const ContentPathChecks := [MinLength(1, ContentPathRequired), MaxLength(500, ContentPathTooLong)]
  const AdminPasswordChecks := [MinLength(8, PasswordTooShort)]
  const GithubUrlChecks := [MinLength(1, GithubUrlRequired), UrlFormat(UrlInvalid), MaxLength(500, UrlTooLong)]
  const CommentChecks := [MinLength(1, CommentRequired), MaxLength(5000, CommentTooLong)]

  /** The role names the admin forms accept. */
  const RoleNames := ["ADMIN", "INSTRUCTOR", "LEARNER"]

  datatype LoginForm = LoginForm(email: string, password: string)
  datatype RegisterForm = RegisterForm(username: string, email: string, password: string, confirmPassword: string)
  datatype ForgotPasswordForm = ForgotPasswordForm(email: string)
  datatype ResetPasswordForm = ResetPasswordForm(newPassword: string, confirmPassword: string)
  datatype CourseForm = CourseForm(title: string, description: string)
  datatype LessonForm = LessonForm(title: string, contentPath: string, published: Option<bool>)
  datatype AdminCreateUserForm = AdminCreateUserForm(email: string, password: string, name: string, role: string)
  datatype AdminUpdateUserForm = AdminUpdateUserForm(name: string, role: string)
  datatype SubmissionForm = SubmissionForm(githubUrl: string)
  datatype FeedbackForm = FeedbackForm(comment: string)

  /** The confirmation refinement: a mismatch is reported on the confirmation field. */
  function MismatchIssues(password: string, confirmPassword: string): (issues: seq<Issue>)
    ensures issues == [] <==> password == confirmPassword
    ensures issues != [] ==> issues == [Issue("confirmPassword", PasswordMismatch)]
  {
    if password == confirmPassword then [] else [Issue("confirmPassword", PasswordMismatch)]
  }

  /** The role check: anything but the three role names is reported on the role field. */
  function RoleIssues(role: string): (issues: seq<Issue>)
    ensures issues == [] <==> role in RoleNames
    ensures issues != [] ==> issues == [Issue("role", RoleRequired)]
  {
    if role in RoleNames then [] else [Issue("role", RoleRequired)]
  }

  function LoginIssues(form: LoginForm, formats: Formats): seq<Issue> {
    StringIssues("email", form.email, EmailChecks, formats) +
    StringIssues("password", form.password, LoginPasswordChecks, formats)
  }

  function RegisterIssues(form: RegisterForm, formats: Formats): seq<Issue> {
    StringIssues("username", form.username, UsernameChecks, formats) +
    StringIssues("email", form.email, EmailChecks, formats) +
    StringIssues("password", form.password, StrongPasswordChecks, formats) +
    StringIssues("confirmPassword", form.confirmPassword, ConfirmChecks, formats) +
    MismatchIssues(form.password, form.confirmPassword)
  }

  function ForgotPasswordIssues(form: ForgotPasswordForm, formats: Formats): seq<Issue> {
    StringIssues("email", form.email, EmailChecks, formats)
  }

  function ResetPasswordIssues(form: ResetPasswordForm, formats: Formats): seq<Issue> {
    StringIssues("newPassword", form.newPassword, StrongPasswordChecks, formats) +
    StringIssues("confirmPassword", form.confirmPassword, ConfirmChecks, formats) +
    MismatchIssues(form.newPassword, form.confirmPassword)
  }

  function CourseIssues(form: CourseForm, formats: Formats): seq<Issue> {
    StringIssues("title", form.title, TitleChecks, formats) +
    StringIssues("description", form.description, DescriptionChecks, formats)
  }

  /** `published` is an optional boolean; a typed form cannot get it wrong. */
  function LessonIssues(form: LessonForm, formats: Formats): seq<Issue> {
    StringIssues("title", form.title, TitleChecks, formats) +
    StringIssues("contentPath", form.contentPath, ContentPathChecks, formats)
  }

  function AdminCreateUserIssues(form: AdminCreateUserForm, formats: Formats): seq<Issue> {
    StringIssues("email", form.email, EmailChecks, formats) +
    StringIssues("password", form.password, AdminPasswordChecks, formats) +
    StringIssues("name", form.name, UsernameChecks, formats) +
    RoleIssues(form.role)
  }

  function AdminUpdateUserIssues(form: AdminUpdateUserForm, formats: Formats): seq<Issue> {
    StringIssues("name", form.name, UsernameChecks, formats) +
    RoleIssues(form.role)
  }

  function SubmissionIssues(form: SubmissionForm, formats: Formats): seq<Issue> {
    StringIssues("githubUrl", form.githubUrl, GithubUrlChecks, formats)
  }

  function FeedbackIssues(form: FeedbackForm, formats: Formats): seq<Issue> {
    StringIssues("comment", form.comment, CommentChecks, formats)
  }

  // What each schema accepts, stated field by field.

  /** Between lo and hi UTF-16 code units, inclusive. */
  predicate LengthWithin(s: string, lo: nat, hi: nat) {
    lo <= Utf16Length(s) <= hi
  }

  /** Present (non-empty) and in e-mail format. */
  predicate ValidEmail(s: string, formats: Formats) {
    s != "" && formats.isEmail(s)
  }

  /** At least 8 code units, with a letter and a digit in its first line. */
  predicate StrongPassword(s: string) {
    Utf16Length(s) >= 8 && LetterAndDigitPattern(s)
  }

  predicate LoginValid(form: LoginForm, formats: Formats) {
    ValidEmail(form.email, formats) && form.password != ""
  }

  predicate RegisterValid(form: RegisterForm, formats: Formats) {
    LengthWithin(form.username, 1, 100) && ValidEmail(form.email, formats) &&
    StrongPassword(form.password) && form.confirmPassword != "" && form.password == form.confirmPassword
  }

  predicate ResetPasswordValid(form: ResetPasswordForm) {
    StrongPassword(form.newPassword) && form.confirmPassword != "" && form.newPassword == form.confirmPassword
  }

  predicate CourseValid(form: CourseForm) {
    LengthWithin(form.title, 1, 200) && LengthWithin(form.description, 1, 2000)
  }

  predicate LessonValid(form: LessonForm) {
    LengthWithin(form.title, 1, 200) && LengthWithin(form.contentPath, 1, 500)
  }

  predicate AdminCreateUserValid(form: AdminCreateUserForm, formats: Formats) {
    ValidEmail(form.email, formats) && Utf16Length(form.password) >= 8 &&
    LengthWithin(form.name, 1, 100) && form.role in RoleNames
  }

  predicate AdminUpdateUserValid(form: AdminUpdateUserForm) {
    LengthWithin(form.name, 1, 100) && form.role in RoleNames
  }

  predicate SubmissionValid(form: SubmissionForm, formats: Formats) {
    form.githubUrl != "" && formats.isUrl(form.githubUrl) && Utf16Length(form.githubUrl) <= 500
  }

  predicate FeedbackValid(form: FeedbackForm) {
    LengthWithin(form.comment, 1, 5000)
  }

  /** Only the empty string has no code units. */
  lemma Utf16LengthZero(s: string)
    ensures Utf16Length(s) >= 1 <==> s != ""
  {
  }

  /** Two checks: both pass exactly when no issue is reported. */
  lemma TwoChecks(path: string, s: string, a: Check, b: Check, formats: Formats)
    ensures StringIssues(path, s, [a, b], formats) == [] <==> Passes(a, s, formats) && Passes(b, s, formats)
  {
    assert [a, b][1..] == [b];
  }

  lemma LoginValidIff(form: LoginForm, formats: Formats)
    ensures LoginIssues(form, formats) == [] <==> LoginValid(form, formats)
  {
    TwoChecks("email", form.email, EmailChecks[0], EmailChecks[1], formats);
    Utf16LengthZero(form.email);
    Utf16LengthZero(form.password);
  }

  lemma RegisterValidIff(form: RegisterForm, formats: Formats)
    ensures RegisterIssues(form, formats) == [] <==> RegisterValid(form, formats)
  {
    TwoChecks("username", form.username, UsernameChecks[0], UsernameChecks[1], formats);
    TwoChecks("email", form.email, EmailChecks[0], EmailChecks[1], formats);
    TwoChecks("password", form.password, StrongPasswordChecks[0], StrongPasswordChecks[1], formats);
    Utf16LengthZero(form.email);
    Utf16LengthZero(form.confirmPassword);
  }

  lemma ForgotPasswordValidIff(form: ForgotPasswordForm, formats: Formats)
    ensures ForgotPasswordIssues(form, formats) == [] <==> ValidEmail(form.email, formats)
  {
    TwoChecks("email", form.email, EmailChecks[0], EmailChecks[1], formats);
    Utf16LengthZero(form.email);
  }

  lemma ResetPasswordValidIff(form: ResetPasswordForm, formats: Formats)
    ensures ResetPasswordIssues(form, formats) == [] <==> ResetPasswordValid(form)
  {
    TwoChecks("newPassword", form.newPassword, StrongPasswordChecks[0], StrongPasswordChecks[1], formats);
    Utf16LengthZero(form.confirmPassword);
  }

  lemma CourseValidIff(form: CourseForm, formats: Formats)
    ensures CourseIssues(form, formats) == [] <==> CourseValid(form)
  {
    TwoChecks("title", form.title, TitleChecks[0], TitleChecks[1], formats);
    TwoChecks("description", form.description, DescriptionChecks[0], DescriptionChecks[1], formats);
  }

  lemma LessonValidIff(form: LessonForm, formats: Formats)
    ensures LessonIssues(form, formats) == [] <==> LessonValid(form)
  {
    TwoChecks("title", form.title, TitleChecks[0], TitleChecks[1], formats);
    TwoChecks("contentPath", form.contentPath, ContentPathChecks[0], ContentPathChecks[1], formats);
  }

  lemma AdminCreateUserValidIff(form: AdminCreateUserForm, formats: Formats)
    ensures AdminCreateUserIssues(form, formats) == [] <==> AdminCreateUserValid(form, formats)
  {
    TwoChecks("email", form.email, EmailChecks[0], EmailChecks[1], formats);
    TwoChecks("name", form.name, UsernameChecks[0], UsernameChecks[1], formats);
    Utf16LengthZero(form.email);
  }

  lemma AdminUpdateUserValidIff(form: AdminUpdateUserForm, formats: Formats)
    ensures AdminUpdateUserIssues(form, formats) == [] <==> AdminUpdateUserValid(form)
  {
    TwoChecks("name", form.name, UsernameChecks[0], UsernameChecks[1], formats);
  }

  lemma SubmissionValidIff(form: SubmissionForm, formats: Formats)
    ensures SubmissionIssues(form, formats) == [] <==> SubmissionValid(form, formats)
  {
    var s := form.githubUrl;
    assert GithubUrlChecks[1..] == [UrlFormat(UrlInvalid), MaxLength(500, UrlTooLong)];
    TwoChecks("githubUrl", s, GithubUrlChecks[1], GithubUrlChecks[2], formats);
    Utf16LengthZero(s);
  }

  lemma FeedbackValidIff(form: FeedbackForm, formats: Formats)
    ensures FeedbackIssues(form, formats) == [] <==> FeedbackValid(form)
  {
    TwoChecks("comment", form.comment, CommentChecks[0], CommentChecks[1], formats);
  }

  /** The role names accepted by the admin forms are exactly the names of the user roles. */
  function RoleName(role: AuthContext.Role): string {
    match role
    case LEARNER => "LEARNER"
    case ADMIN => "ADMIN"
    case INSTRUCTOR => "INSTRUCTOR"
  }

  lemma RoleNamesAreTheRoles(name: string)
    ensures name in RoleNames <==> exists role: AuthContext.Role :: RoleName(role) == name
  {
    if name in RoleNames {
      if name == "ADMIN" {
        assert RoleName(AuthContext.ADMIN) == name;
      } else if name == "INSTRUCTOR" {
        assert RoleName(AuthContext.INSTRUCTOR) == name;
      } else {
        assert RoleName(AuthContext.LEARNER) == name;
      }
    }
  }

  /** What a field shows in a form whose earlier issues are all about other fields. */
  lemma FieldFirstMessage(before: seq<Issue>, path: string, s: string, checks: seq<Check>, formats: Formats, after: seq<Issue>)
    requires forall i :: 0 <= i < |before| ==> before[i].path != path
    ensures FirstMessage(before + StringIssues(path, s, checks, formats) + after, path) ==
      if FirstFailure(s, checks, formats).Some? then FirstFailure(s, checks, formats) else FirstMessage(after, path)
  {
    var own := StringIssues(path, s, checks, formats);
    FirstMessageAppend(before + own, after, path);
    FirstMessageAppend(before, own, path);
    StringIssuesFirstMessage(path, s, checks, formats);
  }

  /** The confirmation field's own check: it asks to be filled in. */
  lemma ConfirmFailure(s: string, formats: Formats)
    ensures FirstFailure(s, ConfirmChecks, formats) == if s == "" then Some(ConfirmRequired) else None
  {
    Utf16LengthZero(s);
    assert ConfirmChecks[1..] == [];
  }

  /**
   * A filled-in confirmation that differs from the password shows the
   * mismatch message under the confirmation field; an empty one shows the
   * request to fill it in, which comes first.
   */
  lemma RegisterConfirmMessage(form: RegisterForm, formats: Formats)
    requires form.password != form.confirmPassword
    ensures FirstMessage(RegisterIssues(form, formats), "confirmPassword") ==
      if form.confirmPassword == "" then Some(ConfirmRequired) else Some(PasswordMismatch)
  {
    var before := StringIssues("username", form.username, UsernameChecks, formats) +
      StringIssues("email", form.email, EmailChecks, formats) +
      StringIssues("password", form.password, StrongPasswordChecks, formats);
    var m := MismatchIssues(form.password, form.confirmPassword);
    FieldFirstMessage(before, "confirmPassword", form.confirmPassword, ConfirmChecks, formats, m);
    ConfirmFailure(form.confirmPassword, formats);
    assert m == [Issue("confirmPassword", PasswordMismatch)];
  }

  /** The same for the reset form. */
  lemma ResetConfirmMessage(form: ResetPasswordForm, formats: Formats)
    requires form.newPassword != form.confirmPassword
    ensures FirstMessage(ResetPasswordIssues(form, formats), "confirmPassword") ==
      if form.confirmPassword == "" then Some(ConfirmRequired) else Some(PasswordMismatch)
  {
    var before := StringIssues("newPassword", form.newPassword, StrongPasswordChecks, formats);
    var m := MismatchIssues(form.newPassword, form.confirmPassword);
    FieldFirstMessage(before, "confirmPassword", form.confirmPassword, ConfirmChecks, formats, m);
    ConfirmFailure(form.confirmPassword, formats);
    assert m == [Issue("confirmPassword", PasswordMismatch)];
  }

  /** Submitting an empty lesson form shows both required-field messages at once. */
  lemma EmptyLessonFormMessages(formats: Formats)
    ensures LessonIssues(LessonForm("", "", Some(false)), formats) != []
    ensures FirstMessage(LessonIssues(LessonForm("", "", Some(false)), formats), "title") == Some(TitleRequired)
    ensures FirstMessage(LessonIssues(LessonForm("", "", Some(false)), formats), "contentPath") == Some(ContentPathRequired)
  {
    var t := StringIssues("title", "", TitleChecks, formats);
    var c := StringIssues("contentPath", "", ContentPathChecks, formats);
    assert LessonIssues(LessonForm("", "", Some(false)), formats) == [] + t + c;
    assert [] + t + c + [] == [] + t + c;
    FieldFirstMessage([], "title", "", TitleChecks, formats, c);
    FieldFirstMessage(t, "contentPath", "", ContentPathChecks, formats, []);
  }

  /** A title and a path are accepted. */
  lemma LessonFormAccepted(formats: Formats)
    ensures LessonIssues(LessonForm("Lesson Title", "/lesson.md", Some(false)), formats) == []
  {
    LessonValidIff(LessonForm("Lesson Title", "/lesson.md", Some(false)), formats);
    assert Utf16Length("Lesson Title") == 12;
    assert Utf16Length("/lesson.md") == 10;
  }

  /** A letter followed by a digit satisfies the password pattern. */
  lemma PatternAcceptsLetterAndDigit()
    ensures LetterAndDigitPattern("password1")
  {
    var s := "password1";
    assert IsAsciiLetter(s[0]) && IsAsciiDigit(s[8]);
    assert forall m :: 0 <= m < 8 ==> !IsLineTerminator(s[m]);
  }

  /** Letters alone do not satisfy the password pattern. */
  lemma PatternNeedsDigit()
    ensures !LetterAndDigitPattern("password")
  {
    var s := "password";
    assert forall k :: 0 <= k < |s| ==> !IsAsciiDigit(s[k]);
  }

  /** Digits alone do not satisfy the password pattern. */
  lemma PatternNeedsLetter()
    ensures !LetterAndDigitPattern("12345678")
  {
    var s := "12345678";
    assert forall k :: 0 <= k < |s| ==> !IsAsciiLetter(s[k]);
  }

  /** A digit after a line break does not count: the pattern looks at the first line only. */
  lemma PatternStopsAtLineBreak()
    ensures !LetterAndDigitPattern("abcd\n1234")
  {
    var s := "abcd\n1234";
    assert IsLineTerminator(s[4]);
    assert forall k :: 0 <= k <= 4 ==> !IsAsciiDigit(s[k]);
  }

  /** The admin form asks only for eight code units; registration also wants a digit. */
  lemma AdminPasswordNeedsOnlyLength(formats: Formats)
    ensures StringIssues("password", "password", AdminPasswordChecks, formats) == []
    ensures StringIssues("password", "password", StrongPasswordChecks, formats) != []
  {
    assert Utf16Length("password") == 8;
    PatternNeedsDigit();
  }

  /** A character outside the Basic Multilingual Plane counts twice towards a length bound. */
  lemma AstralCharacterCountsTwice()
    ensures Utf16Length("\U{1F600}") == 2
    ensures Utf16Length("a\U{1F600}") == 3
  {
  }
}

/** The sign-in side of the engine that is pure: the auth-error message table and
    the validity check of the sign-in form. */
module Auth {
  import opened Wrappers
  import opened Text

  /** An error raised by the authentication provider; `code` is absent when the error has none. */
  datatype AuthError = AuthError(code: Option<string>)

  const GenericFailure: string := "サインインに失敗しました。時間をおいて再度お試しください。"
  const InvalidEmail: string := "メールアドレスの形式が正しくありません。"
  const UserDisabled: string := "このアカウントは無効化されています。管理者にお問い合わせください。"
  const UserNotFound: string := "該当するユーザーが見つかりませんでした。新規登録をお試しください。"
  const WrongPassword: string := "パスワードが正しくありません。"
  const EmailInUse: string := "このメールアドレスはすでに登録されています。ログインをお試しください。"
  const WeakPassword: string := "パスワードは6文字以上で設定してください。"

  /** The message shown when a task operation needs a signed-in user. */
  const SignInRequired: string := "タスクを操作するにはサインインが必要です。"

  /** The provider codes that have a message of their own. */
  const KnownCodes: set<string> := {
    "auth/invalid-email", "auth/user-disabled", "auth/user-not-found",
    "auth/wrong-password", "auth/email-already-in-use", "auth/weak-password"
  }

  /** The shortest password the form accepts. */
  const MinPasswordLength: nat := 6

  /** The code of an error, when there is an error and it has a non-empty code. */
  function CodeOf(error: Option<AuthError>): Option<string> {
    if error.Some? && error.value.code.Some? && error.value.code.value != "" then error.value.code else None
  }

  /** `resolveAuthErrorMessage`: each known code has its own message, and an absent
      error, an absent or empty code and every other code give the generic one. */
  function ResolveAuthErrorMessage(error: Option<AuthError>): (m: string)
    ensures m != GenericFailure <==> CodeOf(error).Some? && CodeOf(error).value in KnownCodes
    ensures m in {GenericFailure, InvalidEmail, UserDisabled, UserNotFound, WrongPassword, EmailInUse, WeakPassword}
  {
    if error.None? || error.value.code.None? || error.value.code.value == "" then GenericFailure
    else
      var code := error.value.code.value;
      if code == "auth/invalid-email" then InvalidEmail
      else if code == "auth/user-disabled" then UserDisabled
      else if code == "auth/user-not-found" then UserNotFound
      else if code == "auth/wrong-password" then WrongPassword
      else if code == "auth/email-already-in-use" then EmailInUse
      else if code == "auth/weak-password" then WeakPassword
      else GenericFailure
  }

  /** Different known codes never share a message: the user can tell the causes apart. */
  lemma KnownCodesHaveDistinctMessages(code1: string, code2: string)
    requires code1 in KnownCodes && code2 in KnownCodes && code1 != code2
    ensures ResolveAuthErrorMessage(Some(AuthError(Some(code1)))) != ResolveAuthErrorMessage(Some(AuthError(Some(code2))))
  {
  }

  /** `isAuthFormValid`: the email has a non-whitespace character and the password
      has at least six characters. */
  function IsAuthFormValid(email: string, password: string): (valid: bool)
    ensures valid <==> (exists i :: 0 <= i < |email| && !IsWhitespace(email[i])) && |password| >= MinPasswordLength
  {
    |Trim(email)| > 0 && |password| >= MinPasswordLength
  }
}

/**
 * The sign-in card: the login and signup validation schemas and the loading
 * flag of the Google button. Whether a string is an email address is left
 * to a predicate passed in, since the validation library decides it.
 */
module AuthForm {
  import opened Text

  datatype Issue = Issue(path: string, message: string)

  const InvalidEmail := "Invalid email address"
  const ShortPassword := "Password must be at least 6 characters"
  const ShortName := "Name must be at least 2 characters"
  const PasswordsDiffer := "Passwords don't match"

  const MinPassword := 6
  const MinName := 2

  /** The issue a minimum-length rule raises for `s`, if any; lengths count UTF-16 code units. */
  function MinLength(path: string, s: string, n: nat, message: string): (r: seq<Issue>)
    ensures r == [] <==> Utf16Length(s) >= n
    ensures r != [] ==> r == [Issue(path, message)]
  {
    if Utf16Length(s) < n then [Issue(path, message)] else []
  }

  function EmailCheck(email: string, isEmail: string -> bool): (r: seq<Issue>)
    ensures r == [] <==> isEmail(email)
    ensures r != [] ==> r == [Issue("email", InvalidEmail)]
  {
    if isEmail(email) then [] else [Issue("email", InvalidEmail)]
  }

  /** The login schema: every field's issues, in field order. */
  function LoginIssues(email: string, password: string, isEmail: string -> bool): (r: seq<Issue>)
    ensures r == [] <==> isEmail(email) && Utf16Length(password) >= MinPassword
    ensures Issue("email", InvalidEmail) in r <==> !isEmail(email)
    ensures Issue("password", ShortPassword) in r <==> Utf16Length(password) < MinPassword
    ensures forall i :: 0 <= i < |r| ==> r[i] == Issue("email", InvalidEmail) || r[i] == Issue("password", ShortPassword)
    ensures forall i, j :: 0 <= i < j < |r| ==> r[i].path != r[j].path
  {
    EmailCheck(email, isEmail) + MinLength("password", password, MinPassword, ShortPassword)
  }

  /** Every issue the signup schema can raise: one per field. */
  const SignupCatalogue: seq<Issue> := [
    Issue("name", ShortName), Issue("email", InvalidEmail),
    Issue("password", ShortPassword), Issue("confirmPassword", PasswordsDiffer)]

  datatype Signup = Signup(name: string, email: string, password: string, confirmPassword: string)

  /**
   * The signup schema. The field checks only mark the result invalid without
   * stopping it, so the cross-field refinement runs as well and all issues
   * are reported together.
   */
  function SignupIssues(d: Signup, isEmail: string -> bool): (r: seq<Issue>)
    ensures r == [] <==>
      && Utf16Length(d.name) >= MinName && isEmail(d.email)
      && Utf16Length(d.password) >= MinPassword && d.password == d.confirmPassword
    ensures Issue("name", ShortName) in r <==> Utf16Length(d.name) < MinName
    ensures Issue("email", InvalidEmail) in r <==> !isEmail(d.email)
    ensures Issue("password", ShortPassword) in r <==> Utf16Length(d.password) < MinPassword
    ensures Issue("confirmPassword", PasswordsDiffer) in r <==> d.password != d.confirmPassword
    ensures forall i :: 0 <= i < |r| ==> r[i] in SignupCatalogue
    ensures PathsDistinct(r)
  {
    var name := MinLength("name", d.name, MinName, ShortName);
    var email := EmailCheck(d.email, isEmail);
    var password := MinLength("password", d.password, MinPassword, ShortPassword);
    var refined := if d.password == d.confirmPassword then [] else [Issue("confirmPassword", PasswordsDiffer)];
    CatalogueMembership(name, email, password, refined);
    CatalogueSelection(name, email, password, refined);
    name + email + password + refined
  }

  /** No two issues are about the same field. */
  ghost predicate PathsDistinct(r: seq<Issue>) {
    forall i, j :: 0 <= i < j < |r| ==> r[i].path != r[j].path
  }

  /** Pieces that each hold at most their own catalogue entry. */
  predicate Selected(name: seq<Issue>, email: seq<Issue>, password: seq<Issue>, refined: seq<Issue>) {
    && (name == [] || name == [SignupCatalogue[0]])
    && (email == [] || email == [SignupCatalogue[1]])
    && (password == [] || password == [SignupCatalogue[2]])
    && (refined == [] || refined == [SignupCatalogue[3]])
  }

  /** An entry is present in the joined pieces exactly when its own piece raised it. */
  lemma CatalogueMembership(name: seq<Issue>, email: seq<Issue>, password: seq<Issue>, refined: seq<Issue>)
    requires Selected(name, email, password, refined)
    ensures var r := name + email + password + refined;
      && (SignupCatalogue[0] in r <==> name != [])
      && (SignupCatalogue[1] in r <==> email != [])
      && (SignupCatalogue[2] in r <==> password != [])
      && (SignupCatalogue[3] in r <==> refined != [])
  {
    var r := name + email + password + refined;
    assert forall x :: x in r <==> x in name || x in email || x in password || x in refined;
  }

  /** The joined pieces are catalogue entries naming distinct fields. */
  lemma CatalogueSelection(name: seq<Issue>, email: seq<Issue>, password: seq<Issue>, refined: seq<Issue>)
    requires Selected(name, email, password, refined)
    ensures var r := name + email + password + refined;
      && (forall i :: 0 <= i < |r| ==> r[i] in SignupCatalogue)
      && PathsDistinct(r)
  {
    ExtendByCatalogueEntry([], name, 0);
    ExtendByCatalogueEntry(name, email, 1);
    ExtendByCatalogueEntry(name + email, password, 2);
    ExtendByCatalogueEntry(name + email + password, refined, 3);
    assert SignupCatalogue[..4] == SignupCatalogue;
  }

  /**
   * Issues drawn from the first `k` catalogue entries, followed by at most
   * the `k`-th entry, are drawn from the first `k + 1` and still name
   * distinct fields.
   */
  lemma ExtendByCatalogueEntry(x: seq<Issue>, y: seq<Issue>, k: nat)
    requires k < |SignupCatalogue|
    requires forall i :: 0 <= i < |x| ==> x[i] in SignupCatalogue[..k]
    requires PathsDistinct(x)
    requires y == [] || y == [SignupCatalogue[k]]
    ensures forall i :: 0 <= i < |x + y| ==> (x + y)[i] in SignupCatalogue[..k + 1]
    ensures PathsDistinct(x + y)
  {
  }

  /** A mismatch is reported even when every field check also fails. */
  lemma MismatchReportedAlongsideFieldIssues(isEmail: string -> bool)
    ensures var d := Signup("", "x", "", "y");
      !isEmail("x") ==> SignupIssues(d, isEmail) == [
        Issue("name", ShortName), Issue("email", InvalidEmail),
        Issue("password", ShortPassword), Issue("confirmPassword", PasswordsDiffer)]
  {
  }

  /** What the Google sign-in call did. */
  datatype SignInResult = SignedIn | Failed

  datatype Toast = Toast(title: string, description: string, destructive: bool)

  /**
   * `handleGoogleSignIn`: the button's loading flag and the toast shown once
   * the call settles. The flag is raised before the call and lowered only on
   * failure; on success the page is expected to navigate away.
   */
  function HandleGoogleSignIn(result: SignInResult): (out: (bool, Toast))
    ensures out.0 <==> result == SignedIn
    ensures out.1.destructive <==> result == Failed
  {
    match result
    case SignedIn => (true, Toast("Connecting...", "Redirecting to Google Secure Authentication.", false))
    case Failed => (false, Toast("Google Sign In Failed", "Could not complete authentication.", true))
  }
}

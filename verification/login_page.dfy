/** The login page (`src/pages/Login.jsx`): the form and its validation, the
    message for a failed sign-in, and where a signed-in visitor is sent. */
module LoginPage {
  import opened Optional
  import opened Patterns
  import opened Forms
  import opened Checks
  import CartPage

  // ---------------------------------------------------------------------
  // Where a signed-in visitor goes

  /** The position of the first `c` in `s`, or `|s|` when there is none. */
  function IndexOf(s: string, c: char): (i: nat)
    ensures i <= |s|
    ensures i < |s| ==> s[i] == c
    ensures forall j | 0 <= j < i :: s[j] != c
  {
    if |s| == 0 then 0
    else if s[0] == c then 0
    else 1 + IndexOf(s[1..], c)
  }

  /** The part of a path before its fragment: everything up to the first '#'. */
  function BeforeFragment(path: string): (u: string)
    ensures '#' !in u
    ensures |u| <= |path| && path[..|u|] == u
    ensures |u| < |path| ==> path[|u|] == '#'
  {
    path[..IndexOf(path, '#')]
  }

  /** `location.search`: the part of the path before its fragment that starts
      at the first '?', or "" when there is no '?' there or nothing follows it. */
  function SearchOf(path: string): (r: string)
    ensures r == "" <==> forall i | 0 <= i < |BeforeFragment(path)| - 1 :: BeforeFragment(path)[i] != '?'
    ensures r != "" ==> |r| >= 2 && r[0] == '?' && '#' !in r
    ensures r != "" ==> var u := BeforeFragment(path);
      |r| <= |u| && u[|u| - |r|..] == r && '?' !in u[..|u| - |r|]
  {
    var u := BeforeFragment(path);
    var q := IndexOf(u, '?');
    var s := u[q..];
    assert u[..|u| - |s|] == u[..q];
    if |s| <= 1 then "" else s
  }

  /** The query of a path that has one is what follows the path proper. */
  lemma SearchOfQuery(path: string, query: string)
    requires '?' !in path && '#' !in path && '#' !in query && |query| >= 2 && query[0] == '?'
    ensures SearchOf(path + query) == query
  {
    var url := path + query;
    assert BeforeFragment(url) == url by {
      assert forall j | 0 <= j < |url| :: url[j] != '#' by {
        forall j | 0 <= j < |url|
          ensures url[j] != '#'
        {
          if j < |path| { assert url[j] == path[j]; } else { assert url[j] == query[j - |path|]; }
        }
      }
      assert url[..|url|] == url;
    }
    assert url[|path|] == '?';
    assert forall j | 0 <= j < |path| :: url[j] == path[j];
    assert url[|path|..] == query;
  }

  /** A fragment never changes the query. */
  lemma FragmentIgnored(path: string, fragment: string)
    requires '#' !in path
    ensures SearchOf(path + "#" + fragment) == SearchOf(path)
  {
    var url := path + "#" + fragment;
    assert BeforeFragment(url) == BeforeFragment(path) by {
      NoMarkIndex(path, '#');
      assert forall j | 0 <= j < |path| :: url[j] == path[j];
      assert url[|path|] == '#';
      assert IndexOf(url, '#') == |path|;
      assert url[..|path|] == path == path[..|path|];
    }
  }

  lemma NoMarkIndex(s: string, c: char)
    requires c !in s
    ensures IndexOf(s, c) == |s|
  {
  }

  /** `new URLSearchParams(search).get(key)`: the value of the first
      `name=value` pair whose name is `key`. A leading '?' is dropped, pairs
      are separated by '&', empty pairs are skipped, the name ends at the
      first '=' and a pair without '=' has the value "". */
  function QueryParam(search: string, key: string): (r: Option<string>)
    ensures r.Some? ==> '&' !in r.value
  {
    var q := if |search| > 0 && search[0] == '?' then search[1..] else search;
    Lookup(q, key)
  }

  function Lookup(q: string, key: string): (r: Option<string>)
    ensures r.Some? ==> '&' !in r.value
    decreases |q|
  {
    var end := IndexOf(q, '&');
    var pair := q[..end];
    var eq := IndexOf(pair, '=');
    var name := pair[..eq];
    var value := if eq < |pair| then pair[eq + 1..] else "";
    assert forall j | 0 <= j < |value| :: value[j] == q[eq + 1 + j];
    if pair != "" && name == key then Some(value)
    else if end == |q| then None
    else Lookup(q[end + 1..], key)
  }

  /** The first pair with the name wins, whatever follows it. */
  lemma FirstPairWins(key: string, value: string, rest: string)
    requires key != "" && '&' !in key && '=' !in key && '&' !in value
    ensures Lookup(key + "=" + value + "&" + rest, key) == Some(value)
  {
    var q := key + "=" + value + "&" + rest;
    var p := key + "=" + value;
    PairShape(key, value, rest);
    assert q[..|p|] == p;
    assert p[..|key|] == key && p[|key| + 1..] == value;
  }

  /** A pair with another name is passed over. */
  lemma OtherPairSkipped(name: string, value: string, rest: string, key: string)
    requires name != key && '&' !in name && '=' !in name && '&' !in value
    ensures Lookup(name + "=" + value + "&" + rest, key) == Lookup(rest, key)
  {
    var q := name + "=" + value + "&" + rest;
    var p := name + "=" + value;
    PairShape(name, value, rest);
    assert q[..|p|] == p;
    assert p[..|name|] == name;
    assert q[|p| + 1..] == rest;
  }

  /** An empty pair, as in "&&", is passed over. */
  lemma EmptyPairSkipped(rest: string, key: string)
    ensures Lookup("&" + rest, key) == Lookup(rest, key)
  {
    assert ("&" + rest)[1..] == rest;
  }

  /** Where the first pair of `name=value&rest` ends, and where its name ends. */
  lemma PairShape(name: string, value: string, rest: string)
    requires '&' !in name && '=' !in name && '&' !in value
    ensures IndexOf(name + "=" + value + "&" + rest, '&') == |name| + 1 + |value|
    ensures IndexOf(name + "=" + value, '=') == |name|
  {
    var q := name + "=" + value + "&" + rest;
    var p := name + "=" + value;
    assert forall j | 0 <= j < |name| :: q[j] == name[j] && p[j] == name[j];
    assert forall j | |name| < j < |p| :: q[j] == value[j - |name| - 1];
    assert q[|p|] == '&' && p[|name|] == '=';
  }

  /** A query made of a single pair gives back its value under its name, as
      long as neither contains the separators. */
  lemma SinglePairRoundTrip(key: string, value: string)
    requires key != "" && '&' !in key && '=' !in key && '&' !in value
    ensures QueryParam("?" + key + "=" + value, key) == Some(value)
  {
    var q := key + "=" + value;
    assert ("?" + key + "=" + value)[1..] == q;
    assert IndexOf(q, '&') == |q| by {
      forall j | 0 <= j < |q|
        ensures q[j] != '&'
      {
        if j < |key| { assert q[j] == key[j]; }
        else if j > |key| { assert q[j] == value[j - |key| - 1]; }
      }
    }
    assert q[..|q|] == q;
    assert IndexOf(q, '=') == |key| by {
      assert q[|key|] == '=';
      forall j | 0 <= j < |key|
        ensures q[j] != '='
      {
        assert q[j] == key[j];
      }
    }
    assert q[..|key|] == key;
    assert q[|key| + 1..] == value;
  }

  /** `redirectUrl || '/'`: the page named by the query, or the home page
      when there is none or it is empty. */
  function RedirectTarget(redirect: Option<string>): (r: string)
    ensures r != ""
    ensures redirect.Some? && redirect.value != "" ==> r == redirect.value
    ensures redirect == None || redirect == Some("") ==> r == "/"
  {
    if redirect.Some? && redirect.value != "" then redirect.value else "/"
  }

  /** The name of the query parameter that carries the page to return to. */
  const RedirectKey: string := "redirect"

  /** Where the page sends a visitor once signed in, for the path it was opened at. */
  function AfterLogin(path: string): string {
    RedirectTarget(QueryParam(SearchOf(path), RedirectKey))
  }

  /** A login path that names a target page sends the visitor there. */
  lemma RedirectQueryReturns(path: string, target: string)
    requires '?' !in path && '#' !in path && target != "" && '&' !in target && '#' !in target
    ensures AfterLogin(path + "?" + RedirectKey + "=" + target) == target
  {
    var query := "?" + RedirectKey + "=" + target;
    assert path + "?" + RedirectKey + "=" + target == path + query;
    SearchOfQuery(path, query);
    RedirectKeyShape();
    SinglePairRoundTrip(RedirectKey, target);
  }

  /** A fragment after the target is not part of it. */
  lemma FragmentAfterTargetDropped(path: string, target: string, fragment: string)
    requires '?' !in path && '#' !in path && target != "" && '&' !in target && '#' !in target
    ensures AfterLogin(path + "?" + RedirectKey + "=" + target + "#" + fragment) == target
  {
    var url := path + "?" + RedirectKey + "=" + target;
    assert '#' !in url by {
      assert forall j | 0 <= j < |url| :: url[j] in path || url[j] in "?" + RedirectKey + "=" || url[j] in target by {
        forall j | 0 <= j < |url|
          ensures url[j] in path || url[j] in "?" + RedirectKey + "=" || url[j] in target
        {
          if j < |path| { assert url[j] == path[j]; }
          else if j < |path| + 1 + |RedirectKey| + 1 { assert url[j] == ("?" + RedirectKey + "=")[j - |path|]; }
          else { assert url[j] == target[j - |path| - |RedirectKey| - 2]; }
        }
      }
    }
    FragmentIgnored(url, fragment);
    RedirectQueryReturns(path, target);
  }

  lemma RedirectKeyShape()
    ensures RedirectKey != "" && '&' !in RedirectKey && '=' !in RedirectKey
  {
  }

  /** A visitor sent to log in by the checkout button comes back to checkout. */
  lemma CheckoutDetourReturns()
    ensures AfterLogin(CartPage.LoginThenCheckout) == "/checkout"
  {
    assert CartPage.LoginThenCheckout == "/login" + "?" + RedirectKey + "=" + "/checkout";
    RedirectQueryReturns("/login", "/checkout");
  }

  /** Opened without a query, as the account page does, the page sends the
      visitor home. */
  lemma PlainLoginGoesHome()
    ensures AfterLogin("/login") == "/"
  {
    assert SearchOf("/login") == "";
  }

  // ---------------------------------------------------------------------
  // The form

  datatype LoginField = Email | Password

  datatype Credentials = Credentials(email: string, password: string)

  function Get(form: Credentials, f: LoginField): string {
    match f
    case Email => form.email
    case Password => form.password
  }

  function With(form: Credentials, f: LoginField, value: string): (r: Credentials)
    ensures Get(r, f) == value
    ensures forall g | g != f :: Get(r, g) == Get(form, g)
  {
    match f
    case Email => form.(email := value)
    case Password => form.(password := value)
  }

  /** The page state the change handler touches: the form with its field
      messages, and the message of the last failed sign-in. */
  datatype LoginState = LoginState(form: FormState<Credentials, LoginField>, loginError: string)

  /** `handleChange`: store the value, blank the field's message if one
      shows, and hide any sign-in failure message. */
  function HandleChange(s: LoginState, f: LoginField, value: string): (r: LoginState)
    ensures Get(r.form.data, f) == value
    ensures forall g | g != f :: Get(r.form.data, g) == Get(s.form.data, g)
    ensures r.form.errors.Keys == s.form.errors.Keys
    ensures forall g :: Shows(r.form.errors, g) <==> Shows(s.form.errors, g) && g != f
    ensures r.loginError == ""
  {
    ClearingHidesOnlyThatField(s.form.errors, f, f);
    LoginState(FormState(With(s.form.data, f, value), ClearIfSet(s.form.errors, f)), "")
  }

  const EmailRequired := "Email is required"
  const EmailInvalid := "Please enter a valid email address"
  const PasswordRequired := "Password is required"
  const PasswordTooShort := "Password must be at least 6 characters"

  /** The password must have at least six characters; white space counts. */
  function PasswordError(password: string): (r: Option<string>)
    ensures r == None <==> |password| >= 6
    ensures password == "" ==> r == Some(PasswordRequired)
    ensures 0 < |password| < 6 ==> r == Some(PasswordTooShort)
  {
    if password == "" then Some(PasswordRequired)
    else if |password| < 6 then Some(PasswordTooShort)
    else None
  }

  function FieldError(form: Credentials, f: LoginField): Option<string> {
    match f
    case Email => RequireEmail(form.email, EmailRequired, EmailInvalid)
    case Password => PasswordError(form.password)
  }

  const Fields: seq<LoginField> := [Email, Password]

  lemma EveryFieldChecked()
    ensures forall f :: f in Fields
  {
    forall f
      ensures f in Fields
    {
      match f
      case Email => assert Fields[0] == f;
      case Password => assert Fields[1] == f;
    }
  }

  /** `validateForm`: a field appears in the error object exactly when its
      check fails, with that check's message, and sign-in is attempted
      exactly when the error object is empty. */
  function ValidateForm(form: Credentials): (v: Validation<LoginField>)
    ensures forall f :: f in v.errors <==> FieldError(form, f).Some?
    ensures forall f | f in v.errors :: v.errors[f] == FieldError(form, f).value
    ensures v.valid <==> forall f :: FieldError(form, f) == None
    ensures v.valid <==> v.errors == map[]
  {
    var e := CollectErrors(Fields, f => FieldError(form, f));
    EveryFieldChecked();
    assert |e| == 0 <==> e == map[] by {
      if |e| == 0 {
        assert e.Keys == {};
      }
    }
    Validation(e, |e| == 0)
  }

  /** Sign-in is attempted exactly for a well-formed email and a password of
      six or more characters. */
  lemma SignInAttempted(form: Credentials)
    ensures ValidateForm(form).valid <==> form.email != "" && EmailRegexTest(form.email) && |form.password| >= 6
  {
    assert FieldError(form, Email) == RequireEmail(form.email, EmailRequired, EmailInvalid);
    assert FieldError(form, Password) == PasswordError(form.password);
  }

  /** The two checks are independent: the email's message depends on the
      email only and the password's on the password only. */
  lemma ChecksAreIndependent(form: Credentials, password: string)
    ensures (Email in ValidateForm(form.(password := password)).errors) == (Email in ValidateForm(form).errors)
    ensures Email in ValidateForm(form).errors ==>
      ValidateForm(form.(password := password)).errors[Email] == ValidateForm(form).errors[Email]
  {
    assert FieldError(form.(password := password), Email) == FieldError(form, Email);
  }

  // ---------------------------------------------------------------------
  // A failed sign-in

  const InvalidCredential := "Invalid email or password. Please try again."
  const TooManyRequests := "Too many failed attempts. Please try again later."
  const WrongCredentials := "Wrong email or password. Please try again."

  /** The message shown for the error code of a failed sign-in. */
  function LoginErrorMessage(code: string): (m: string)
    ensures code == "auth/invalid-credential" <==> m == InvalidCredential
    ensures code == "auth/too-many-requests" <==> m == TooManyRequests
    ensures code !in {"auth/invalid-credential", "auth/too-many-requests"} <==> m == WrongCredentials
  {
    if code == "auth/invalid-credential" then InvalidCredential
    else if code == "auth/too-many-requests" then TooManyRequests
    else WrongCredentials
  }
}

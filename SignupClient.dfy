/** The signup page of public/js/signup.js: the intent tabs and the submit
    handler's checks and request body. The form fields are inputs; the
    alerts and the POST are returned as values. */
module SignupClient {
  import opened Text
  import opened Wrappers
  import Accounts

  const MinPasswordLength := 6

  /** What the submit handler does. */
  datatype SubmitOutcome =
    | AlertInvalidEmail
    | AlertShortPassword
    | PostSignup(body: Accounts.SignupRequest)

  /** The submit handler over the raw field values: the email (trimmed, then
      lowercased) is checked first, then the password length; only then is the
      request body built. */
  function Validate(fullName: string, emailRaw: string, password: string, intent: string,
                    year: string, branch: string, courses: seq<string>): (r: SubmitOutcome)
    ensures r.AlertInvalidEmail? <==> !Accounts.IsJiitEmail(Trim(emailRaw))
    ensures r.AlertShortPassword? <==> Accounts.IsJiitEmail(Trim(emailRaw)) && |password| < MinPasswordLength
    ensures r.PostSignup? ==>
      && r.body.name == Trim(fullName)
      && r.body.email == Lower(Trim(emailRaw))
      && r.body.password == password
      && r.body.intent == Some(intent)
      && r.body.year == Some(year) && r.body.branch == Some(branch)
      && r.body.courses == Some(courses)
  {
    var email := Lower(Trim(emailRaw));
    if !EndsWith(email, Accounts.JiitSuffix) && !EndsWith(email, Accounts.MailJiitSuffix) then
      LowerIdempotent(Trim(emailRaw));
      AlertInvalidEmail
    else if |password| < MinPasswordLength then
      LowerIdempotent(Trim(emailRaw));
      AlertShortPassword
    else
      PostSignup(Accounts.SignupRequest(Trim(fullName), email, password, Some(intent),
                                        Some(year), Some(branch), Some(courses)))
  }

  /** An email the page lets through also passes the server's domain rule,
      and the server stores it exactly as sent. */
  lemma ClientAcceptedEmailPassesServer(fullName: string, emailRaw: string, password: string,
                                        intent: string, year: string, branch: string, courses: seq<string>)
    requires Validate(fullName, emailRaw, password, intent, year, branch, courses).PostSignup?
    ensures var body := Validate(fullName, emailRaw, password, intent, year, branch, courses).body;
      && Accounts.IsJiitEmail(body.email)
      && Lower(body.email) == body.email
  {
    LowerIdempotent(Trim(emailRaw));
  }

  /** When the server accepts the page's request, the account holds the trimmed
      name, the email as sent, the password as typed, and the chosen intent
      (an empty one falls back to 'buy'). */
  lemma ClientSignupStoresChoices(users: seq<Accounts.User>, fullName: string, emailRaw: string,
                                  password: string, intent: string, year: string, branch: string,
                                  courses: seq<string>)
    requires Validate(fullName, emailRaw, password, intent, year, branch, courses).PostSignup?
    requires Accounts.Signup(users, Validate(fullName, emailRaw, password, intent, year, branch, courses).body).0.Ok?
    ensures var body := Validate(fullName, emailRaw, password, intent, year, branch, courses).body;
      var u := Accounts.Signup(users, body).1[|users|];
      && u.name == Trim(fullName) && u.email == Lower(Trim(emailRaw)) && u.password == password
      && u.intent == (if intent == "" then "buy" else intent)
      && u.year == year && u.branch == branch && u.courses == courses
      && |password| >= MinPasswordLength
  {
    LowerIdempotent(Trim(emailRaw));
  }

  /** The form state: the intent of the last clicked tab. */
  class SignupForm {
    var selectedIntent: string

    /** Page load: 'buy' is preselected. */
    constructor ()
      ensures selectedIntent == "buy"
    {
      selectedIntent := "buy";
    }

    /** A click on an intent tab with `data-intent` equal to `intent`. */
    method ClickIntentTab(intent: string)
      modifies this
      ensures selectedIntent == intent
    {
      selectedIntent := intent;
    }

    /** The submit handler: the body carries the current intent. */
    method Submit(fullName: string, emailRaw: string, password: string,
                  year: string, branch: string, courses: seq<string>) returns (r: SubmitOutcome)
      ensures r == Validate(fullName, emailRaw, password, selectedIntent, year, branch, courses)
      ensures r.PostSignup? ==> r.body.intent == Some(selectedIntent)
    {
      r := Validate(fullName, emailRaw, password, selectedIntent, year, branch, courses);
    }
  }
}

/**
  The search form of src/components/UserSearch.tsx: validating the typed name,
  looking the user up, and the message shown for each outcome. The lookup
  (`searchGithubUser`) is the parameter `lookup`: it yields the user data, `None`
  for an empty answer, or the HTTP status of the error it threw (`None` when the
  error carries no status).
 */
module UserSearch {
  import opened Wrappers

  datatype Severity = Error | Warning | Info

  datatype Message = Message(text: string, severity: Severity)

  const NotFound := Message("User not found. Please check the username and try again.", Warning)
  const RateLimited := Message("API rate limit exceeded. Please try again later.", Error)
  const Unauthenticated := Message("Authentication error. Please sign in again.", Error)
  const Unexpected := Message("An unexpected error occurred. Please try again later.", Error)
  const EmptyName := Message("Please enter a GitHub username", Info)
  const NoData := Message("No user data found", Warning)

  /** `handleError`, on the status of the thrown error. */
  function HandleError(status: Option<int>): (m: Message)
    ensures m.severity == Warning <==> status == Some(404)
    ensures m.severity == Error <==> status != Some(404)
    ensures status != Some(404) && status != Some(403) && status != Some(401) ==> m == Unexpected
    ensures status == Some(404) ==> m == NotFound
    ensures status == Some(403) ==> m == RateLimited
    ensures status == Some(401) ==> m == Unauthenticated
  {
    if status == Some(404) then NotFound
    else if status == Some(403) then RateLimited
    else if status == Some(401) then Unauthenticated
    else Unexpected
  }

  /** The characters `String.prototype.trim` removes that a typed name can contain. */
  predicate IsSpace(c: char) {
    c == ' ' || c == '\t' || c == '\n' || c == '\r' || c == '\U{000B}' || c == '\U{000C}'
    || c == '\U{00A0}' || c == '\U{2028}' || c == '\U{2029}' || c == '\U{FEFF}'
  }

  /** `!username.trim()`: nothing but white space. */
  predicate Blank(s: string) {
    forall i :: 0 <= i < |s| ==> IsSpace(s[i])
  }

  type Lookup<U> = string -> Result<Option<U>, Option<int>>

  /**
    What a submission leaves behind: the text in the field, the message shown, the
    user handed to `onUserFound` if any, and whether the lookup ran.
   */
  datatype Outcome<U> = Outcome(username: string, message: Option<Message>, found: Option<U>, searched: bool)

  /** `handleSearch`. */
  function HandleSearch<U>(username: string, lookup: Lookup<U>): (o: Outcome<U>)
    ensures Blank(username) ==> o == Outcome(username, Some(EmptyName), None, false)
    ensures o.found.Some? <==> !Blank(username) && lookup(username).Success? && lookup(username).value.Some?
    ensures o.found.Some? ==> o.username == "" && o.message.None? && o.found == lookup(username).value
    ensures o.found.None? ==> o.username == username
    ensures !Blank(username) && lookup(username) == Success(None) ==> o == Outcome(username, Some(NoData), None, true)
  {
    if Blank(username) then Outcome(username, Some(EmptyName), None, false)
    else
      match lookup(username)
      case Failure(status) => Outcome(username, Some(HandleError(status)), None, true)
      case Success(None) => Outcome(username, Some(NoData), None, true)
      case Success(Some(data)) => Outcome("", None, Some(data), true)
  }

  /** A blank name is answered without looking anything up: the lookup cannot matter. */
  lemma BlankDoesNotSearch<U>(username: string, a: Lookup<U>, b: Lookup<U>)
    requires Blank(username)
    ensures HandleSearch(username, a) == HandleSearch(username, b)
    ensures HandleSearch(username, a).message == Some(EmptyName)
  {
  }

  /** Every failed lookup shows a message; 404 a warning, 401 and 403 errors, anything else the generic error. */
  lemma FailureMessages<U>(username: string, lookup: Lookup<U>)
    requires !Blank(username) && lookup(username).Failure?
    ensures var o := HandleSearch(username, lookup);
      && o.searched && o.found.None?
      && o.message == Some(HandleError(lookup(username).error))
  {
  }
}

/** The pieces both reservation flows are built from: how links and form actions
    become absolute URLs, which hidden tokens each step carries forward, and the
    record of requests and side effects a run leaves behind. */
module ReservationSteps {
  import opened PyBuiltins
  import opened StudefiPage

  /** The site root every relative link is resolved against. */
  const SiteRoot: string := "https://www.studefi.fr/"
  /** The form endpoint, used when a form declares no action. */
  const MainPhp: string := "https://www.studefi.fr/main.php"

  /** Hidden inputs copied from the first form into the step-1 submission. */
  const Step1Tokens: seq<string> := ["tokenCSRF", "srv", "cdTemporaire", "cdEsi", "idDemandeLogement", "idLogement"]
  /** Hidden inputs copied from the second form into the step-2 submission. */
  const Step2Tokens: seq<string> := ["tokenCSRF", "srv", "cdTemporaire", "cdEsi", "etapePrecedente", "idDemandeLogement", "idLogement"]
  const Step1Op: string := "saveEtape1"
  const Step2Op: string := "saveEtape2"

  /** `f"https://www.studefi.fr/{link}"` unless `link` already starts with "http"; no slash is stripped. */
  function ResidenceUrl(link: string): (url: string)
    ensures StartsWith(url, "http")
    ensures StartsWith(link, "http") ==> url == link
    ensures !StartsWith(link, "http") ==> StartsWith(url, SiteRoot) && |url| == |SiteRoot| + |link| && url[|SiteRoot|..] == link
  {
    if StartsWith(link, "http") then link else SiteRoot + link
  }

  /** An `href` or form action made absolute: kept when it starts with "http",
      otherwise appended to the site root after `lstrip('/')`. */
  function AbsoluteLink(href: string): (url: string)
    ensures StartsWith(url, "http")
    ensures StartsWith(href, "http") ==> url == href
    ensures !StartsWith(href, "http") ==> StartsWith(url, SiteRoot) && url[|SiteRoot|..] == LStrip(href, '/')
  {
    if StartsWith(href, "http") then href else SiteRoot + LStrip(href, '/')
  }

  /** Resolving an already resolved link changes nothing. */
  lemma AbsoluteLinkIdempotent(href: string)
    ensures AbsoluteLink(AbsoluteLink(href)) == AbsoluteLink(href)
  {
  }

  /** Leading slashes of a relative link do not matter to the reservation link. */
  lemma AbsoluteLinkIgnoresLeadingSlash(href: string)
    requires !StartsWith(href, "http")
    ensures AbsoluteLink("/" + href) == AbsoluteLink(href)
  {
    assert ("/" + href)[1..] == href;
    assert !StartsWith("/" + href, "http") by {
      assert ("/" + href)[0] == '/';
    }
  }

  /** The residence link is not stripped: a leading slash survives after the site root. */
  lemma ResidenceUrlKeepsLeadingSlash(link: string)
    ensures ResidenceUrl("/" + link) == SiteRoot + "/" + link
  {
    assert ("/" + link)[0] == '/';
    assert !StartsWith("/" + link, "http");
  }

  /** `form.get("action")` resolved: a missing or empty action posts to main.php. */
  function ActionUrl(action: Option<string>): (url: string)
    ensures StartsWith(url, "http")
    ensures action.None? || action.value == "" ==> url == MainPhp
    ensures action.Some? && action.value != "" ==> url == AbsoluteLink(action.value)
  {
    if action.None? || action.value == "" then MainPhp else AbsoluteLink(action.value)
  }

  /** The submitted fields the model keeps: the operation, the tokens copied from the
      page's form, and the requester's e-mail when the step sends it. The synthetic
      applicant and guarantor fields are constants and are not represented. */
  datatype Payload = Payload(op: string, tokens: map<string, string>, email: Option<string>)

  /** `{name: get_hidden_val(form, name) for name in names}`. */
  function Tokens(form: Form, names: seq<string>): (m: map<string, string>)
    ensures m.Keys == set n | n in names
    ensures forall n :: n in names && (forall i :: 0 <= i < |form.inputs| ==> form.inputs[i].name != n) ==> m[n] == ""
    ensures forall n, i ::
              (n in names && 0 <= i < |form.inputs| && form.inputs[i].name == n &&
               forall j :: 0 <= j < i ==> form.inputs[j].name != n)
              ==> m[n] == form.inputs[i].value.GetOr("")
  {
    map n | n in names :: HiddenValue(form.inputs, n)
  }

  function Step1Payload(form: Form, email: string): Payload {
    Payload(Step1Op, Tokens(form, Step1Tokens), Some(email))
  }

  function Step2Payload(form: Form): Payload {
    Payload(Step2Op, Tokens(form, Step2Tokens), None)
  }

  /** A request of the session, with the names of the file parts it attaches. */
  datatype Request = Get(url: string) | Post(url: string, payload: Payload, attachments: seq<string>)

  /** An effect outside the HTTP session, in the order it happens. */
  datatype Effect = RemoveFromQueue(userId: int) | NotifySuccess(userId: int, residence: string) | CloseSession

  /** Where a run ends. */
  datatype Outcome =
    | NoCandidate        // nobody in the queue wants this residence
    | Aborted            // a request raised
    | PageNotLoaded      // the residence page did not answer 200
    | NoReservationLink  // no reservation anchor, or it has no href
    | Form1Missing       // the reservation entry page has no form1
    | Form2Missing       // the step-1 response has no form1
    | Incomplete         // the step-2 response does not pass the success test
    | Confirmed          // the step-2 response passes the success test

  /** One run of a reservation flow: its outcome, the requests sent and the other effects. */
  datatype Run = Run(outcome: Outcome, requests: seq<Request>, effects: seq<Effect>)

  /** The server's answers, in the order the flow asks: the residence page, the
      reservation entry page, the reply to step 1 and the reply to step 2. */
  datatype Site = Site(residencePage: Reply, entryPage: Reply, step1Reply: Reply, step2Reply: Reply)
}

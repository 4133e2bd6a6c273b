/** test_reservation.py: the standalone variant of the reservation flow. It lists
    the residences shown available, takes the first, and runs the two form steps
    posting to each form's own action; success is one exact marker in the reply. */
module ReservationDebug {
  import opened PyBuiltins
  import opened StudefiPage
  import opened ReservationSteps

  /** The reservation button's text as this file spells it. */
  const DebugMarker: string := "R\U{00E9}server en ligne"
  /** The final submit button of the confirmation page. */
  const SuccessMarker: string := "value=\"Valider ma demande\""
  /** The e-mail the script reserves with, as written in the script. */
  const TestEmail: string := "[email protected]"

  /** The step-2 reply shows the confirmation page. */
  predicate ReachedConfirmation(p: Page) {
    Contains(p.text, SuccessMarker)
  }

  /** What `get_available_residences` returns for the reply to GET main.php: the
      available residences, or [] when the request raised, the status is not 200,
      or reading a residence name raised. */
  function Listed(reply: Reply): seq<Residence> {
    if reply.Raised? || reply.page.status != 200 then []
    else AvailableResidences(reply.page.listing).GetOr([])
  }

  /** `get_available_residences`: the loop that appends `(name, link)` for every element shown available. */
  method GetAvailableResidences(reply: Reply) returns (available: seq<Residence>)
    ensures available == Listed(reply)
    ensures forall x :: x in available ==>
              && reply.Replied?
              && exists i :: 0 <= i < |reply.page.listing| && ShownAvailable(reply.page.listing[i]) &&
                               reply.page.listing[i].nameLink.Some? && ResidenceOf(reply.page.listing[i].nameLink.value) == x
  {
    if reply.Raised? || reply.page.status != 200 {
      return [];
    }
    var elems := reply.page.listing;
    available := [];
    var i := 0;
    while i < |elems|
      invariant 0 <= i <= |elems|
      invariant AvailableResidences(elems[..i]) == Some(available)
    {
      assert elems[..i + 1][..i] == elems[..i];
      var e := elems[i];
      if e.dispo.Some? {
        var src := e.dispo.value.src.GetOr("");
        if !Contains(src, UnavailableMarker) {
          if e.nameLink.None? {
            // AttributeError on the missing name anchor: the exception handler returns [].
            assert !(forall j :: 0 <= j < |elems| && ShownAvailable(elems[j]) ==> elems[j].nameLink.Some?);
            return [];
          }
          available := available + [ResidenceOf(e.nameLink.value)];
        }
      }
      i := i + 1;
    }
    assert elems[..i] == elems;
    forall x | x in available
      ensures exists j :: 0 <= j < |elems| && ShownAvailable(elems[j]) && elems[j].nameLink.Some? && ResidenceOf(elems[j].nameLink.value) == x
    {
      AvailableResidencesMembers(elems, x);
    }
  }

  /** What `test_reservation(name, link, email)` does, given the server's replies. */
  function DebugRun(name: string, link: string, email: string, site: Site): Run {
    var r0 := [Get(ResidenceUrl(link))];
    match site.residencePage
    case Raised => Run(Aborted, r0, [CloseSession])
    case Replied(p0) =>
      if p0.status != 200 then Run(PageNotLoaded, r0, [CloseSession])
      else
        var href := ReservationHref(p0.anchors, DebugMarker);
        if href.None? || href.value == "" then Run(NoReservationLink, r0, [CloseSession])
        else
          var r1 := r0 + [Get(AbsoluteLink(href.value))];
          match site.entryPage
          case Raised => Run(Aborted, r1, [CloseSession])
          case Replied(p1) =>
            match FindForm(p1.forms)
            case None => Run(Form1Missing, r1, [CloseSession])
            case Some(f1) =>
              var r2 := r1 + [Post(ActionUrl(f1.action), Step1Payload(f1, email), ["pieceIdentite", "pieceIdentiteColocataire"])];
              match site.step1Reply
              case Raised => Run(Aborted, r2, [CloseSession])
              case Replied(p2) =>
                match FindForm(p2.forms)
                case None => Run(Form2Missing, r2, [CloseSession])
                case Some(f2) =>
                  var r3 := r2 + [Post(ActionUrl(f2.action), Step2Payload(f2), ["pieceIdentiteGarant"])];
                  match site.step2Reply
                  case Raised => Run(Aborted, r3, [CloseSession])
                  case Replied(p3) =>
                    Run(if ReachedConfirmation(p3) then Confirmed else Incomplete, r3, [CloseSession])
  }

  /** `test_reservation`: the same steps with early exits; it changes no queue. */
  method TestReservation(name: string, link: string, email: string, site: Site) returns (run: Run)
    ensures run == DebugRun(name, link, email, site)
  {
    var requests := [Get(ResidenceUrl(link))];
    if site.residencePage.Raised? {
      return Run(Aborted, requests, [CloseSession]);
    }
    if site.residencePage.page.status != 200 {
      return Run(PageNotLoaded, requests, [CloseSession]);
    }
    var href := DiscoverReservationLink(site.residencePage.page.anchors, DebugMarker);
    if href.None? || href.value == "" {
      return Run(NoReservationLink, requests, [CloseSession]);
    }

    requests := requests + [Get(AbsoluteLink(href.value))];
    if site.entryPage.Raised? {
      return Run(Aborted, requests, [CloseSession]);
    }
    var form1 := FindForm(site.entryPage.page.forms);
    if form1.None? {
      return Run(Form1Missing, requests, [CloseSession]);
    }

    var action1 := ActionUrl(form1.value.action);
    requests := requests + [Post(action1, Step1Payload(form1.value, email), ["pieceIdentite", "pieceIdentiteColocataire"])];
    if site.step1Reply.Raised? {
      return Run(Aborted, requests, [CloseSession]);
    }
    var form2 := FindForm(site.step1Reply.page.forms);
    if form2.None? {
      return Run(Form2Missing, requests, [CloseSession]);
    }

    var action2 := ActionUrl(form2.value.action);
    requests := requests + [Post(action2, Step2Payload(form2.value), ["pieceIdentiteGarant"])];
    if site.step2Reply.Raised? {
      return Run(Aborted, requests, [CloseSession]);
    }
    var outcome := if ReachedConfirmation(site.step2Reply.page) then Confirmed else Incomplete;
    run := Run(outcome, requests, [CloseSession]);
  }

  /** The script's `main`: stop when nothing is available, otherwise try the first residence listed. */
  method StandaloneRun(listing: Reply, site: Site) returns (target: Option<Residence>, run: Option<Run>)
    ensures Listed(listing) == [] ==> target.None? && run.None?
    ensures Listed(listing) != [] ==>
      && target == Some(Listed(listing)[0])
      && run == Some(DebugRun(target.value.name, target.value.link, TestEmail, site))
  {
    var residences := GetAvailableResidences(listing);
    if residences == [] {
      return None, None;
    }
    target := Some(residences[0]);
    var r := TestReservation(residences[0].name, residences[0].link, TestEmail, site);
    run := Some(r);
  }

  /** A non-200 residence page stops the run before anything is posted. */
  lemma NonOkPageStops(name: string, link: string, email: string, site: Site)
    requires site.residencePage.Replied? && site.residencePage.page.status != 200
    ensures DebugRun(name, link, email, site) == Run(PageNotLoaded, [Get(ResidenceUrl(link))], [CloseSession])
  {
  }

  /** Without a reservation anchor on a loaded residence page the run stops before any form request. */
  lemma DebugMissingLinkStops(name: string, link: string, email: string, site: Site)
    requires site.residencePage.Replied? && site.residencePage.page.status == 200
    requires FirstReservationAnchor(site.residencePage.page.anchors, DebugMarker).None?
    ensures DebugRun(name, link, email, site) == Run(NoReservationLink, [Get(ResidenceUrl(link))], [CloseSession])
  {
  }

  /** Confirmed exactly when every page was there and the step-2 reply holds the exact marker. */
  lemma DebugConfirmedExactly(name: string, link: string, email: string, site: Site)
    ensures DebugRun(name, link, email, site).outcome == Confirmed <==>
      && site.residencePage.Replied? && site.residencePage.page.status == 200
      && ReservationHref(site.residencePage.page.anchors, DebugMarker).Some?
      && ReservationHref(site.residencePage.page.anchors, DebugMarker).value != ""
      && site.entryPage.Replied? && FindForm(site.entryPage.page.forms).Some?
      && site.step1Reply.Replied? && FindForm(site.step1Reply.page.forms).Some?
      && site.step2Reply.Replied? && Contains(site.step2Reply.page.text, SuccessMarker)
  {
  }

  /** Each post goes to its form's resolved action and carries that form's tokens; a
      post is only made after its form was found. */
  lemma PostsFollowForms(name: string, link: string, email: string, site: Site)
    ensures var run := DebugRun(name, link, email, site);
      |run.requests| >= 3 ==>
        && site.entryPage.Replied? && FindForm(site.entryPage.page.forms).Some?
        && var f1 := FindForm(site.entryPage.page.forms).value;
           run.requests[2] == Post(ActionUrl(f1.action), Step1Payload(f1, email), ["pieceIdentite", "pieceIdentiteColocataire"])
    ensures var run := DebugRun(name, link, email, site);
      |run.requests| >= 4 ==>
        && site.step1Reply.Replied? && FindForm(site.step1Reply.page.forms).Some?
        && var f2 := FindForm(site.step1Reply.page.forms).value;
           run.requests[3] == Post(ActionUrl(f2.action), Step2Payload(f2), ["pieceIdentiteGarant"])
    ensures DebugRun(name, link, email, site).effects == [CloseSession]
  {
  }
}

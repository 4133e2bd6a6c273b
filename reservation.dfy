/** reservation.py: pick the first queued request that wants a newly listed
    residence, then drive Studefi's two-step reservation form for it; on success
    the requester leaves the queue and is told. */
module Reservation {
  import opened PyBuiltins
  import opened StudefiPage
  import opened ReservationSteps
  import DbManager

  /** The fields of a queue entry the matcher reads: who, which residence, which e-mail. */
  datatype Candidate = Candidate(userId: int, residence: string, email: string)

  /** The reservation button's text as this file spells it (UTF-8 read as Latin-1). */
  const LiveMarker: string := "R\U{00C3}\U{00A9}server en ligne"
  /** The residence filter that accepts any residence. */
  const Wildcard: string := "first available"

  /** A queue entry's residence filter accepts a residence name: the wildcard, or one
      contains the other, all compared lower-cased. */
  predicate Matches(filter: string, name: string) {
    Lower(filter) == Wildcard || Contains(Lower(name), Lower(filter)) || Contains(Lower(filter), Lower(name))
  }

  /** The position of the first entry, in queue order, whose filter accepts `name`. */
  function FirstMatch(queue: seq<Candidate>, name: string): (r: Option<nat>)
    ensures r.None? <==> forall j :: 0 <= j < |queue| ==> !Matches(queue[j].residence, name)
    ensures r.Some? ==> r.value < |queue| && Matches(queue[r.value].residence, name) &&
                        forall j :: 0 <= j < r.value ==> !Matches(queue[j].residence, name)
  {
    if queue == [] then None
    else if Matches(queue[0].residence, name) then Some(0)
    else
      var r := FirstMatch(queue[1..], name);
      assert forall j :: 0 < j < |queue| ==> queue[j] == queue[1..][j - 1];
      match r
      case None => None
      case Some(k) => Some(k + 1)
  }

  /** `target_user`: `(user_id, email)` of the first accepting entry. */
  function Target(queue: seq<Candidate>, name: string): Option<(int, string)> {
    match FirstMatch(queue, name)
    case Some(k) => Some((queue[k].userId, queue[k].email))
    case None => None
  }

  /** The matching loop of `process_queue_for_residence`: scans in queue order and stops at the first match. */
  method FindTarget(name: string, queue: seq<Candidate>) returns (target: Option<(int, string)>)
    ensures target == Target(queue, name)
    ensures target.Some? ==> exists k :: 0 <= k < |queue| && Matches(queue[k].residence, name) && target.value == (queue[k].userId, queue[k].email)
  {
    target := None;
    var i := 0;
    while i < |queue|
      invariant 0 <= i <= |queue|
      invariant forall j :: 0 <= j < i ==> !Matches(queue[j].residence, name)
    {
      var q := Lower(queue[i].residence);
      var n := Lower(name);
      if q == Wildcard || Contains(n, q) || Contains(q, n) {
        target := Some((queue[i].userId, queue[i].email));
        return;
      }
      i := i + 1;
    }
  }

  /** An empty filter accepts every residence, since "" occurs in every string. */
  lemma EmptyFilterMatchesAny(name: string)
    ensures Matches("", name)
  {
    EmptyIsContained(Lower(name));
  }

  /** A filter equal to the name up to case accepts it. */
  lemma SameNameMatches(filter: string, name: string)
    requires Lower(filter) == Lower(name)
    ensures Matches(filter, name)
  {
    PrefixIsContained(Lower(name), Lower(filter));
  }

  /** Queue order decides, not how specific a filter is: a wildcard entry ahead of an
      entry naming the residence exactly is the one chosen. */
  lemma {:induction false} WildcardAheadWins(queue: seq<Candidate>, name: string, w: nat, k: nat)
    requires w < k < |queue|
    requires Lower(queue[w].residence) == Wildcard
    requires Lower(queue[k].residence) == Lower(name)
    requires forall j :: 0 <= j < w ==> !Matches(queue[j].residence, name)
    ensures Target(queue, name) == Some((queue[w].userId, queue[w].email))
  {
    var r := FirstMatch(queue, name);
    assert Matches(queue[w].residence, name);
    assert r.Some? && r.value <= w;
    assert r.value == w;
  }

  /** The step-2 reply counts as success for this flow: a confirmation word, step 3,
      or no trace of the step-2 operation left in the page. */
  predicate LooseSuccess(p: Page) {
    || Contains(p.text, "Confirmation")
    || Contains(Lower(p.url), "confirmation")
    || Contains(Lower(p.text), "etape 3")
    || Contains(Lower(p.text), "etape3")
    || !Contains(p.text, "saveEtape2")
  }

  /** Any step-2 reply that no longer mentions the step-2 operation passes, an empty error page included. */
  lemma EmptyStep2ReplyPasses(status: int, url: string)
    ensures LooseSuccess(Page(status, url, "", [], [], []))
  {
  }

  /** What `process_queue_for_residence` does for one listed residence, given the server's replies. */
  function LiveRun(name: string, link: string, queue: seq<Candidate>, site: Site): Run {
    match Target(queue, name)
    case None => Run(NoCandidate, [], [])
    case Some((userId, email)) =>
      var r0 := [Get(ResidenceUrl(link))];
      match site.residencePage
      case Raised => Run(Aborted, r0, [CloseSession])
      case Replied(p0) =>
        var href := ReservationHref(p0.anchors, LiveMarker);
        if href.None? || href.value == "" then Run(NoReservationLink, r0, [CloseSession])
        else
          var r1 := r0 + [Get(AbsoluteLink(href.value))];
          match site.entryPage
          case Raised => Run(Aborted, r1, [CloseSession])
          case Replied(p1) =>
            match FindForm(p1.forms)
            case None => Run(Form1Missing, r1, [CloseSession])
            case Some(f1) =>
              var r2 := r1 + [Post(MainPhp, Step1Payload(f1, email), ["pieceIdentite"])];
              match site.step1Reply
              case Raised => Run(Aborted, r2, [CloseSession])
              case Replied(p2) =>
                match FindForm(p2.forms)
                case None => Run(Form2Missing, r2, [CloseSession])
                case Some(f2) =>
                  var r3 := r2 + [Post(MainPhp, Step2Payload(f2), ["pieceIdentiteGarant"])];
                  match site.step2Reply
                  case Raised => Run(Aborted, r3, [CloseSession])
                  case Replied(p3) =>
                    if LooseSuccess(p3) then Run(Confirmed, r3, [RemoveFromQueue(userId), NotifySuccess(userId, name), CloseSession])
                    else Run(Incomplete, r3, [CloseSession])
  }

  /** `process_queue_for_residence`: the flow with its one change of state, the queue removal. */
  method ProcessQueueForResidence(name: string, link: string, queue: seq<Candidate>, site: Site, db: DbManager.Store)
    returns (run: Run)
    modifies db`queue
    ensures run == LiveRun(name, link, queue, site)
    ensures run.outcome == Confirmed ==> db.queue == DbManager.Without(old(db.queue), Target(queue, name).value.0)
    ensures run.outcome != Confirmed ==> db.queue == old(db.queue)
  {
    var target := FindTarget(name, queue);
    if target.None? {
      return Run(NoCandidate, [], []);
    }
    var (userId, email) := target.value;

    var requests := [Get(ResidenceUrl(link))];
    if site.residencePage.Raised? {
      return Run(Aborted, requests, [CloseSession]);
    }
    var href := DiscoverReservationLink(site.residencePage.page.anchors, LiveMarker);
    if href.None? || href.value == "" {
      return Run(NoReservationLink, requests, [CloseSession]);
    }

    requests := requests + [Get(AbsoluteLink(href.value))];
    if site.entryPage.Raised? {
      return Run(Aborted, requests, [CloseSession]);
    }
    var form1 := FindForm(site.entryPage.page.forms);
    if form1.None? {
      return Run(Form1Missing, requests, [CloseSession]);
    }

    requests := requests + [Post(MainPhp, Step1Payload(form1.value, email), ["pieceIdentite"])];
    if site.step1Reply.Raised? {
      return Run(Aborted, requests, [CloseSession]);
    }
    var form2 := FindForm(site.step1Reply.page.forms);
    if form2.None? {
      return Run(Form2Missing, requests, [CloseSession]);
    }

    requests := requests + [Post(MainPhp, Step2Payload(form2.value), ["pieceIdentiteGarant"])];
    if site.step2Reply.Raised? {
      return Run(Aborted, requests, [CloseSession]);
    }
    if LooseSuccess(site.step2Reply.page) {
      db.RemoveFromQueue(userId);
      run := Run(Confirmed, requests, [RemoveFromQueue(userId), NotifySuccess(userId, name), CloseSession]);
    } else {
      run := Run(Incomplete, requests, [CloseSession]);
    }
  }

  /** With no accepting entry nothing happens: no session, no request, no queue change, no message. */
  lemma NoCandidateDoesNothing(name: string, link: string, queue: seq<Candidate>, site: Site)
    requires forall j :: 0 <= j < |queue| ==> !Matches(queue[j].residence, name)
    ensures LiveRun(name, link, queue, site) == Run(NoCandidate, [], [])
  {
  }

  /** Whenever a session was opened it is closed last, whatever the outcome. */
  lemma SessionAlwaysClosed(name: string, link: string, queue: seq<Candidate>, site: Site)
    requires Target(queue, name).Some?
    ensures var run := LiveRun(name, link, queue, site);
      |run.effects| > 0 && run.effects[|run.effects| - 1] == CloseSession
  {
  }

  /** The success test is the only way to a removal: Confirmed exactly when every page
      was there and the step-2 reply passes, and then the requester is removed before
      being told; any other outcome removes nobody and tells nobody. */
  lemma ConfirmedExactly(name: string, link: string, queue: seq<Candidate>, site: Site)
    ensures var run := LiveRun(name, link, queue, site);
      run.outcome == Confirmed <==>
        && Target(queue, name).Some?
        && site.residencePage.Replied?
        && ReservationHref(site.residencePage.page.anchors, LiveMarker).Some?
        && ReservationHref(site.residencePage.page.anchors, LiveMarker).value != ""
        && site.entryPage.Replied? && FindForm(site.entryPage.page.forms).Some?
        && site.step1Reply.Replied? && FindForm(site.step1Reply.page.forms).Some?
        && site.step2Reply.Replied? && LooseSuccess(site.step2Reply.page)
    ensures var run := LiveRun(name, link, queue, site);
      run.outcome == Confirmed ==>
        var u := Target(queue, name).value.0;
        run.effects == [RemoveFromQueue(u), NotifySuccess(u, name), CloseSession]
    ensures var run := LiveRun(name, link, queue, site);
      run.outcome != Confirmed ==> forall e :: e in run.effects ==> e == CloseSession
  {
  }

  /** Without a reservation anchor the run stops after the residence page: nothing posted. */
  lemma MissingLinkStopsBeforePosting(name: string, link: string, queue: seq<Candidate>, site: Site)
    requires Target(queue, name).Some? && site.residencePage.Replied?
    requires FirstReservationAnchor(site.residencePage.page.anchors, LiveMarker).None?
    ensures LiveRun(name, link, queue, site) == Run(NoReservationLink, [Get(ResidenceUrl(link))], [CloseSession])
  {
  }

  /** Each post carries the tokens of the form on the page just before it and no other,
      and the step-1 post carries the requester's e-mail. */
  lemma TokensThreaded(name: string, link: string, queue: seq<Candidate>, site: Site)
    ensures var run := LiveRun(name, link, queue, site);
      |run.requests| >= 3 ==>
        && site.entryPage.Replied? && FindForm(site.entryPage.page.forms).Some?
        && run.requests[2] == Post(MainPhp, Step1Payload(FindForm(site.entryPage.page.forms).value, Target(queue, name).value.1), ["pieceIdentite"])
    ensures var run := LiveRun(name, link, queue, site);
      |run.requests| >= 4 ==>
        && site.step1Reply.Replied? && FindForm(site.step1Reply.page.forms).Some?
        && run.requests[3] == Post(MainPhp, Step2Payload(FindForm(site.step1Reply.page.forms).value), ["pieceIdentiteGarant"])
    ensures |LiveRun(name, link, queue, site).requests| <= 4
  {
  }
}

/** What the bot reads out of Studefi's HTML, as records instead of a parse tree:
    the residence list of main.php, the anchors of a residence page and the
    forms of the reservation pages. */
module StudefiPage {
  import opened PyBuiltins

  /** Substring of an availability image's `src` that marks a residence as full. */
  const UnavailableMarker: string := "non_disponibles"
  /** The `class` attribute, as written, of the anchors that may lead to a reservation. */
  const ButtonClass: string := "button mini-button"
  /** Substring of a reservation anchor's `href`. */
  const ReservationService: string := "srv=Reservation"
  /** The `id` of the reservation step forms. */
  const FormId: string := "form1"

  /** The `<img class="dispoRes">` of a listing element and its `src` attribute. */
  datatype DispoImg = DispoImg(src: Option<string>)
  /** The `<a>` inside `<div class="list-res-link">`: its stripped text and its `href`. */
  datatype NameLink = NameLink(text: string, href: Option<string>)
  /** One `<div class="col-sm-6 list-res-elem">`; `nameLink` is None when the div or its anchor is missing. */
  datatype ListingElem = ListingElem(dispo: Option<DispoImg>, nameLink: Option<NameLink>)
  /** One `<a>`: its `class` attribute, its text and its `href`. */
  datatype Anchor = Anchor(cls: string, text: string, href: Option<string>)
  /** One `<input>` with its `name` and `value` attributes. */
  datatype Input = Input(name: string, value: Option<string>)
  /** One `<form>` with its `id`, its `action` and its inputs in document order. */
  datatype Form = Form(id: Option<string>, action: Option<string>, inputs: seq<Input>)
  /** An HTTP response: status, final URL, body text and the elements the bot looks at. */
  datatype Page = Page(status: int, url: string, text: string, listing: seq<ListingElem>, anchors: seq<Anchor>, forms: seq<Form>)
  /** The outcome of one request: a response, or an exception raised by the transport. */
  datatype Reply = Raised | Replied(page: Page)
  /** A residence as the bot reports it: `(name, link)`. */
  datatype Residence = Residence(name: string, link: string)

  /** The element has an availability image whose `src` (default "") lacks the unavailable marker. */
  predicate ShownAvailable(e: ListingElem) {
    e.dispo.Some? && !Contains(e.dispo.value.src.GetOr(""), UnavailableMarker)
  }

  /** `(name_tag.get_text(strip=True), name_tag.get("href", ""))`. */
  function ResidenceOf(n: NameLink): Residence {
    Residence(n.text, n.href.GetOr(""))
  }

  /** The residences shown available, in page order; None when reading the name of one
      of them raises (its name anchor is missing), which aborts the whole scan. */
  function AvailableResidences(elems: seq<ListingElem>): (r: Option<seq<Residence>>)
    ensures r.Some? <==> forall i :: 0 <= i < |elems| && ShownAvailable(elems[i]) ==> elems[i].nameLink.Some?
    ensures r.Some? ==> |r.value| <= |elems|
  {
    if elems == [] then Some([])
    else
      var init, last := elems[..|elems| - 1], elems[|elems| - 1];
      assert forall i :: 0 <= i < |init| ==> init[i] == elems[i];
      match AvailableResidences(init)
      case None => None
      case Some(rs) =>
        if !ShownAvailable(last) then Some(rs)
        else if last.nameLink.None? then None
        else Some(rs + [ResidenceOf(last.nameLink.value)])
  }

  /** A residence is listed exactly when some available element names it. */
  lemma {:induction false} AvailableResidencesMembers(elems: seq<ListingElem>, x: Residence)
    requires AvailableResidences(elems).Some?
    ensures x in AvailableResidences(elems).value <==>
      exists i :: 0 <= i < |elems| && ShownAvailable(elems[i]) && ResidenceOf(elems[i].nameLink.value) == x
  {
    if elems != [] {
      var init := elems[..|elems| - 1];
      assert forall i :: 0 <= i < |init| ==> init[i] == elems[i];
      AvailableResidencesMembers(init, x);
    }
  }

  /** Scanning two pieces of a page one after the other gives the list in page order. */
  lemma {:induction false} AvailableResidencesAppend(a: seq<ListingElem>, b: seq<ListingElem>)
    requires AvailableResidences(a + b).Some?
    ensures AvailableResidences(a).Some? && AvailableResidences(b).Some?
    ensures AvailableResidences(a + b).value == AvailableResidences(a).value + AvailableResidences(b).value
    decreases |b|
  {
    assert forall i :: 0 <= i < |a| ==> (a + b)[i] == a[i];
    assert forall i :: 0 <= i < |b| ==> (a + b)[|a| + i] == b[i];
    if b == [] {
      assert a + b == a;
    } else {
      var init := b[..|b| - 1];
      assert (a + b)[..|a + b| - 1] == a + init;
      AvailableResidencesAppend(a, init);
    }
  }

  /** `soup.find("form", id="form1")`: the first form with that id. */
  function FindForm(forms: seq<Form>): (r: Option<Form>)
    ensures r.None? <==> forall i :: 0 <= i < |forms| ==> forms[i].id != Some(FormId)
    ensures r.Some? ==> exists i :: 0 <= i < |forms| && forms[i] == r.value && r.value.id == Some(FormId) &&
                          forall j :: 0 <= j < i ==> forms[j].id != Some(FormId)
  {
    if forms == [] then None
    else if forms[0].id == Some(FormId) then Some(forms[0])
    else
      var r := FindForm(forms[1..]);
      assert r.Some? ==> exists i :: 0 < i < |forms| && forms[i] == r.value && forall j :: 0 < j < i ==> forms[j].id != Some(FormId) by {
        if r.Some? {
          var k :| 0 <= k < |forms[1..]| && forms[1..][k] == r.value && r.value.id == Some(FormId) &&
                   forall j :: 0 <= j < k ==> forms[1..][j].id != Some(FormId);
          assert forms[k + 1] == r.value;
          assert forall j :: 0 < j < k + 1 ==> forms[j] == forms[1..][j - 1];
        }
      }
      r
  }

  /** `get_hidden_val`: the value of the first input named `name`, "" when it has none or there is no such input. */
  function HiddenValue(inputs: seq<Input>, name: string): (v: string)
    ensures (forall i :: 0 <= i < |inputs| ==> inputs[i].name != name) ==> v == ""
    ensures forall i :: 0 <= i < |inputs| && inputs[i].name == name && (forall j :: 0 <= j < i ==> inputs[j].name != name) ==>
              v == inputs[i].value.GetOr("")
  {
    if inputs == [] then ""
    else if inputs[0].name == name then inputs[0].value.GetOr("")
    else
      var v := HiddenValue(inputs[1..], name);
      assert forall i :: 0 < i < |inputs| ==> inputs[i] == inputs[1..][i - 1];
      v
  }

  /** An anchor of the button class whose text holds `marker` or whose `href` (default "") holds the reservation service. */
  predicate IsReservationAnchor(a: Anchor, marker: string) {
    a.cls == ButtonClass && (Contains(a.text, marker) || Contains(a.href.GetOr(""), ReservationService))
  }

  /** The position of the first reservation anchor, if any. */
  function FirstReservationAnchor(anchors: seq<Anchor>, marker: string): (r: Option<nat>)
    ensures r.None? <==> forall j :: 0 <= j < |anchors| ==> !IsReservationAnchor(anchors[j], marker)
    ensures r.Some? ==> r.value < |anchors| && IsReservationAnchor(anchors[r.value], marker) &&
                        forall j :: 0 <= j < r.value ==> !IsReservationAnchor(anchors[j], marker)
  {
    if anchors == [] then None
    else if IsReservationAnchor(anchors[0], marker) then Some(0)
    else
      var r := FirstReservationAnchor(anchors[1..], marker);
      assert forall j :: 0 < j < |anchors| ==> anchors[j] == anchors[1..][j - 1];
      match r
      case None => None
      case Some(k) => Some(k + 1)
  }

  /** `a.get("href")` of the first reservation anchor; None when there is no such anchor or it has no `href`. */
  function ReservationHref(anchors: seq<Anchor>, marker: string): Option<string> {
    match FirstReservationAnchor(anchors, marker)
    case Some(i) => anchors[i].href
    case None => None
  }

  /** The loop over `soup.find_all("a", class_="button mini-button")` that stops at the first
      anchor naming the reservation, shared by both reservation flows. */
  method DiscoverReservationLink(anchors: seq<Anchor>, marker: string) returns (link: Option<string>)
    ensures link == ReservationHref(anchors, marker)
    ensures link.Some? ==> exists i :: 0 <= i < |anchors| && IsReservationAnchor(anchors[i], marker) && anchors[i].href == link
  {
    link := None;
    var i := 0;
    while i < |anchors|
      invariant 0 <= i <= |anchors|
      invariant forall j :: 0 <= j < i ==> !IsReservationAnchor(anchors[j], marker)
    {
      var a := anchors[i];
      if a.cls == ButtonClass && (Contains(a.text, marker) || Contains(a.href.GetOr(""), ReservationService)) {
        link := a.href;
        return;
      }
      i := i + 1;
    }
  }
}

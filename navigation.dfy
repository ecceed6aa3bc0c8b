/** Section navigation of the console: every showX marks the sidebar links
    for its section active, hides the ten content sections, then displays
    its own. */
module Navigation {
  import opened Text

  /** The content sections hideAllContent hides, by element id. */
  const ContentSections: seq<string> := [
    "dashboard-content", "pending-reviews-content", "all-users-content",
    "all-technicians-content", "system-overview-content", "categories-content",
    "appointments-content", "settings-content", "services-content", "payments-content"
  ]

  /** The ten showX functions. */
  datatype Section =
    | Dashboard | PendingReviews | AllUsers | AllTechnicians | SystemOverview
    | Categories | Bookings | Settings | Services | Payments

  /** The element each showX displays: always one of the ten sections. */
  function ContentId(s: Section): (id: string)
    ensures id in ContentSections
  {
    match s
    case Dashboard => "dashboard-content"
    case PendingReviews => "pending-reviews-content"
    case AllUsers => "all-users-content"
    case AllTechnicians => "all-technicians-content"
    case SystemOverview => "system-overview-content"
    case Categories => "categories-content"
    case Bookings => "appointments-content"
    case Settings => "settings-content"
    case Services => "services-content"
    case Payments => "payments-content"
  }

  /** Two different showX never display the same element. */
  lemma ContentIdInjective(s: Section, t: Section)
    requires ContentId(s) == ContentId(t)
    ensures s == t
  {
  }

  /** The text each showX passes to updateActiveNav. */
  function NavLabel(s: Section): string {
    match s
    case Dashboard => "Dashboard"
    case PendingReviews => "KYC Reviews"
    case AllUsers => "All Users"
    case AllTechnicians => "All Technicians"
    case SystemOverview => "System Overview"
    case Categories => "Categories"
    case Bookings => "Appointments"
    case Settings => "Settings"
    case Services => "Services"
    case Payments => "Payments"
  }

  /** updateActiveNav's test on one link: its trimmed text contains the
      section's label. */
  predicate LinkMatches(text: string, section: string) {
    Includes(Trim(text), section)
  }

  /** Which links updateActiveNav marks active, link by link. */
  function ActiveLinks(texts: seq<string>, section: string): (r: seq<bool>)
    ensures |r| == |texts|
    ensures forall i :: 0 <= i < |texts| ==> r[i] == LinkMatches(texts[i], section)
  {
    if texts == [] then [] else [LinkMatches(texts[0], section)] + ActiveLinks(texts[1..], section)
  }

  /** The display of every element after each id of `ids` present in `d`
      is set to `none`. */
  function Hidden(d: map<string, string>, ids: seq<string>): map<string, string> {
    map id | id in d :: if id in ids then "none" else d[id]
  }

  /** Hiding one more id is one more update of the display. */
  lemma HiddenSnoc(d: map<string, string>, ids: seq<string>, x: string)
    ensures Hidden(d, ids + [x]) == if x in d then Hidden(d, ids)[x := "none"] else Hidden(d, ids)
  {
    var h, h' := Hidden(d, ids), Hidden(d, ids + [x]);
    assert forall id :: id in ids + [x] <==> id in ids || id == x;
    if x in d {
      assert h'.Keys == h[x := "none"].Keys;
    }
  }

  /** The display of every element after the sections `ids` are hidden
      and then `target`, when present, is displayed. */
  function DisplayOnly(d: map<string, string>, ids: seq<string>, target: string): map<string, string> {
    var h := Hidden(d, ids);
    if target in h then h[target := "block"] else h
  }

  /** Hiding a list of sections and displaying one of them adds and removes
      nothing, leaves every other element alone, and leaves exactly the
      target displayed among the sections present. */
  lemma DisplayOnlyShape(d: map<string, string>, ids: seq<string>, target: string)
    requires target in ids
    ensures DisplayOnly(d, ids, target).Keys == d.Keys
    ensures forall id :: id in d && id !in ids ==> DisplayOnly(d, ids, target)[id] == d[id]
    ensures forall id :: id in d && id in ids ==>
      DisplayOnly(d, ids, target)[id] == if id == target then "block" else "none"
  {
  }

  /** Displaying `b` after `a`, both among `ids`, is displaying `b`: the
      earlier target is hidden again. */
  lemma DisplayOnlyForgets(d: map<string, string>, ids: seq<string>, a: string, b: string)
    requires a in ids && b in ids
    ensures DisplayOnly(DisplayOnly(d, ids, a), ids, b) == DisplayOnly(d, ids, b)
  {
    var once := DisplayOnly(d, ids, a);
    var twice, direct := DisplayOnly(once, ids, b), DisplayOnly(d, ids, b);
    DisplayOnlyShape(d, ids, a);
    DisplayOnlyShape(once, ids, b);
    DisplayOnlyShape(d, ids, b);
    assert twice.Keys == direct.Keys;
    assert forall id :: id in twice ==> twice[id] == direct[id];
  }

  /** The display of every element after showX for `s`. */
  function Shown(d: map<string, string>, s: Section): map<string, string> {
    DisplayOnly(d, ContentSections, ContentId(s))
  }

  /** After showX no element is added or removed, no element outside the
      ten sections changes, and of the ten sections present exactly the one
      of `s` is displayed while the others are hidden. */
  lemma ShowDisplaysOneSection(d: map<string, string>, s: Section)
    ensures Shown(d, s).Keys == d.Keys
    ensures forall id :: id in d && id !in ContentSections ==> Shown(d, s)[id] == d[id]
    ensures forall id :: id in d && id in ContentSections ==>
      Shown(d, s)[id] == if id == ContentId(s) then "block" else "none"
  {
    DisplayOnlyShape(d, ContentSections, ContentId(s));
  }

  /** Whatever section was shown before, showing `t` leaves the page as
      showing `t` alone; in particular showing a section twice is showing it
      once. */
  lemma ShowForgetsPrevious(d: map<string, string>, s: Section, t: Section)
    ensures Shown(Shown(d, s), t) == Shown(d, t)
  {
    DisplayOnlyForgets(d, ContentSections, ContentId(s), ContentId(t));
  }

  /** The parts of the document navigation touches. */
  class Page {
    /** `style.display` of every element that has an id, by id. */
    var display: map<string, string>
    /** The `textContent` of each `.sidebar .nav-link`, in document order. */
    const navText: seq<string>
    /** Whether each of those links has the class `active`. */
    const navActive: array<bool>

    ghost predicate Valid()
      reads this
    {
      navActive.Length == |navText|
    }

    constructor (display: map<string, string>, navText: seq<string>)
      ensures Valid() && fresh(navActive)
      ensures this.display == display && this.navText == navText
    {
      this.display := display;
      this.navText := navText;
      navActive := new bool[|navText|](_ => false);
    }

    /** hideAllContent: the display of the page after hiding the ten
        sections. */
    method HideAllContent()
      modifies this`display
      ensures display == Hidden(old(display), ContentSections)
    {
      HideEach(ContentSections);
    }

    /** The `forEach` of hideAllContent, over any list of ids. */
    method HideEach(ids: seq<string>)
      modifies this`display
      ensures display == Hidden(old(display), ids)
    {
      for k := 0 to |ids|
        invariant display == Hidden(old(display), ids[..k])
      {
        HiddenSnoc(old(display), ids[..k], ids[k]);
        if ids[k] in display {
          display := display[ids[k] := "none"];
        }
        assert ids[..k + 1] == ids[..k] + [ids[k]];
      }
      assert ids[..|ids|] == ids;
    }

    /** updateActiveNav(section): first clear `active` on every link, then
        set it on each link whose trimmed text contains `section`. More than
        one link can end up active. */
    method UpdateActiveNav(section: string)
      requires Valid()
      modifies navActive
      ensures navActive[..] == ActiveLinks(navText, section)
    {
      ClearActive();
      MarkActive(section);
    }

    /** The first `forEach` of updateActiveNav. */
    method ClearActive()
      modifies navActive
      ensures forall i :: 0 <= i < navActive.Length ==> !navActive[i]
    {
      for i := 0 to navActive.Length
        invariant forall j :: 0 <= j < i ==> !navActive[j]
      {
        navActive[i] := false;
      }
    }

    /** The second `forEach` of updateActiveNav, on links none of which is
        active yet. */
    method MarkActive(section: string)
      requires Valid()
      requires forall i :: 0 <= i < navActive.Length ==> !navActive[i]
      modifies navActive
      ensures navActive[..] == ActiveLinks(navText, section)
    {
      ghost var want := ActiveLinks(navText, section);
      for i := 0 to navActive.Length
        invariant navActive[..i] == want[..i]
        invariant forall j :: i <= j < navActive.Length ==> !navActive[j]
      {
        if LinkMatches(navText[i], section) {
          navActive[i] := true;
        }
        assert navActive[i] == want[i];
        assert navActive[..i + 1] == want[..i + 1];
      }
      assert navActive[..] == navActive[..navActive.Length];
    }

    /** showX for section `s`: links updated, sections hidden, then the
        section's own element displayed. `ok` is false when the page has no
        element with that id: the source then fails on the missing element
        and the section's data is not loaded. */
    method Show(s: Section) returns (ok: bool)
      requires Valid()
      modifies this`display, navActive
      ensures ok <==> ContentId(s) in old(display)
      ensures display == Shown(old(display), s)
      ensures navActive[..] == ActiveLinks(navText, NavLabel(s))
    {
      ghost var before := display;
      UpdateActiveNav(NavLabel(s));
      ghost var links := navActive[..];
      HideAllContent();
      assert navActive[..] == links;
      assert display == Hidden(before, ContentSections);
      var id := ContentId(s);
      ok := id in display;
      if ok {
        display := display[id := "block"];
      }
      assert display == DisplayOnly(before, ContentSections, id);
    }
  }
}

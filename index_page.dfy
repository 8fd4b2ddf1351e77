/** The `Index` page component (src/pages/Index.tsx): the section tracker
    that follows the scroll position, the mobile menu, the theme switch and
    the single-selection project showcase with its dialog. The React state
    hooks become the fields of class `Index`; DOM measurements arrive as
    integer inputs. */
module IndexPage {
  import opened Optional
  import opened Markup

  // ---------------------------------------------------------------------
  // Sections and their measurements

  /** The four sections that register a ref. Skills and Reviews have none. */
  datatype Section = Home | About | Projects | Contact

  /** The order in which `Object.entries(sectionRefs)` visits the refs. */
  const SectionOrder: seq<Section> := [Home, About, Projects, Contact]

  /** Added to `window.scrollY` to obtain the probe position. */
  const ScrollLookahead: int := 100

  /** Height of the fixed header subtracted from a navigation target. */
  const HeaderOffset: int := 80

  /** What the handlers read of a mounted section element: `offsetTop`,
      `offsetHeight` and `getBoundingClientRect().top`. */
  datatype Element = Element(offsetTop: int, offsetHeight: int, rectTop: int)

  /** The ref of every section: a section missing from the map has a null
      `ref.current` (not mounted). */
  type Layout = map<Section, Element>

  /** Position of a section in `SectionOrder`. */
  function Rank(s: Section): (k: nat)
    ensures k < |SectionOrder| && SectionOrder[k] == s
  {
    match s
    case Home => 0
    case About => 1
    case Projects => 2
    case Contact => 3
  }

  /** The half-open interval `[offsetTop, offsetTop + offsetHeight)` holds the probe. */
  predicate Covers(e: Element, probe: int) {
    e.offsetTop <= probe < e.offsetTop + e.offsetHeight
  }

  /** Section `s` is mounted and its interval holds the probe. */
  predicate MatchesProbe(layout: Layout, s: Section, probe: int) {
    s in layout && Covers(layout[s], probe)
  }

  /** The `forEach` over `order`: each mounted section that holds the probe
      overwrites the active section, so the last such one stays. */
  function ScanSections(active: Section, order: seq<Section>, layout: Layout, probe: int): Section
    decreases |order|
  {
    if order == [] then active
    else
      var earlier := ScanSections(active, order[..|order| - 1], layout, probe);
      var s := order[|order| - 1];
      if MatchesProbe(layout, s, probe) then s else earlier
  }

  /** The probe position for a scroll offset. */
  function ProbePosition(scrollY: int): int {
    scrollY + ScrollLookahead
  }

  /** The active section after one scroll event at `scrollY`. */
  function ActiveAfterScroll(active: Section, layout: Layout, scrollY: int): Section {
    ScanSections(active, SectionOrder, layout, ProbePosition(scrollY))
  }

  /** Characterisation of the scan: if no section of `order` matches, the
      prior section stays; otherwise the result is a matching section of
      `order` after which no section of `order` matches. */
  lemma {:induction false} ScanSectionsResult(active: Section, order: seq<Section>, layout: Layout, probe: int)
    ensures var r := ScanSections(active, order, layout, probe);
      || ((forall k :: 0 <= k < |order| ==> !MatchesProbe(layout, order[k], probe)) && r == active)
      || (exists k :: 0 <= k < |order| && order[k] == r && MatchesProbe(layout, r, probe)
           && forall j :: k < j < |order| ==> !MatchesProbe(layout, order[j], probe))
    decreases |order|
  {
    if order != [] {
      var n := |order| - 1;
      var prefix := order[..n];
      ScanSectionsResult(active, prefix, layout, probe);
      var r := ScanSections(active, order, layout, probe);
      if MatchesProbe(layout, order[n], probe) {
        assert order[n] == r;
      } else {
        assert forall k :: 0 <= k < n ==> order[k] == prefix[k];
        if forall k :: 0 <= k < n ==> !MatchesProbe(layout, prefix[k], probe) {
          assert forall k :: 0 <= k < |order| ==> !MatchesProbe(layout, order[k], probe);
        } else {
          var k :| 0 <= k < n && prefix[k] == r && MatchesProbe(layout, r, probe)
            && forall j :: k < j < n ==> !MatchesProbe(layout, prefix[j], probe);
          assert order[k] == r;
        }
      }
    }
  }

  /** A mounted section holding the probe becomes active when no section
      declared after it holds the probe too: the last match wins. */
  lemma ScrollLastMatchWins(active: Section, layout: Layout, scrollY: int, s: Section)
    requires MatchesProbe(layout, s, ProbePosition(scrollY))
    requires forall t :: Rank(t) > Rank(s) ==> !MatchesProbe(layout, t, ProbePosition(scrollY))
    ensures ActiveAfterScroll(active, layout, scrollY) == s
  {
    var probe := ProbePosition(scrollY);
    ScanSectionsResult(active, SectionOrder, layout, probe);
    var r := ActiveAfterScroll(active, layout, scrollY);
    assert !(forall k :: 0 <= k < |SectionOrder| ==> !MatchesProbe(layout, SectionOrder[k], probe)) by {
      assert MatchesProbe(layout, SectionOrder[Rank(s)], probe);
    }
    var k :| 0 <= k < |SectionOrder| && SectionOrder[k] == r && MatchesProbe(layout, r, probe)
      && forall j :: k < j < |SectionOrder| ==> !MatchesProbe(layout, SectionOrder[j], probe);
    assert Rank(r) == k;
    assert SectionOrder[Rank(s)] == s;
  }

  /** A probe inside exactly one mounted section activates that section. */
  lemma ScrollUniqueMatch(active: Section, layout: Layout, scrollY: int, s: Section)
    requires MatchesProbe(layout, s, ProbePosition(scrollY))
    requires forall t :: t != s ==> !MatchesProbe(layout, t, ProbePosition(scrollY))
    ensures ActiveAfterScroll(active, layout, scrollY) == s
  {
    ScrollLastMatchWins(active, layout, scrollY, s);
  }

  /** The scroll handler changes the active section exactly when some
      mounted section holds the probe, and then to a section that holds it:
      above every section, in a gap or inside the ref-less Skills and
      Reviews sections the prior section stays. */
  lemma ScrollChangesOnlyOnMatch(active: Section, layout: Layout, scrollY: int)
    ensures var r := ActiveAfterScroll(active, layout, scrollY);
      && ((forall t :: !MatchesProbe(layout, t, ProbePosition(scrollY))) ==> r == active)
      && ((exists t :: MatchesProbe(layout, t, ProbePosition(scrollY))) ==> MatchesProbe(layout, r, ProbePosition(scrollY)))
  {
    var probe := ProbePosition(scrollY);
    ScanSectionsResult(active, SectionOrder, layout, probe);
    if exists t :: MatchesProbe(layout, t, probe) {
      var t :| MatchesProbe(layout, t, probe);
      assert MatchesProbe(layout, SectionOrder[Rank(t)], probe);
    } else {
      forall k | 0 <= k < |SectionOrder| ensures !MatchesProbe(layout, SectionOrder[k], probe) {
      }
    }
  }

  /** An unmounted section is never made active by scrolling; it stays
      active only if it already was. */
  lemma ScrollSkipsUnmounted(active: Section, layout: Layout, scrollY: int, s: Section)
    requires s !in layout
    requires ActiveAfterScroll(active, layout, scrollY) == s
    ensures active == s
  {
    ScrollChangesOnlyOnMatch(active, layout, scrollY);
  }

  /** Once some section holds the probe, the prior active section does not
      influence the result. */
  lemma ScrollForgetsPrior(a: Section, b: Section, layout: Layout, scrollY: int, s: Section)
    requires MatchesProbe(layout, s, ProbePosition(scrollY))
    ensures ActiveAfterScroll(a, layout, scrollY) == ActiveAfterScroll(b, layout, scrollY)
  {
    var probe := ProbePosition(scrollY);
    var r := ActiveAfterScroll(a, layout, scrollY);
    ScrollChangesOnlyOnMatch(a, layout, scrollY);
    assert MatchesProbe(layout, r, probe);
    // r is the last match, so it wins from b as well
    ScanSectionsResult(a, SectionOrder, layout, probe);
    var k :| 0 <= k < |SectionOrder| && SectionOrder[k] == r && MatchesProbe(layout, r, probe)
      && forall j :: k < j < |SectionOrder| ==> !MatchesProbe(layout, SectionOrder[j], probe);
    assert Rank(r) == k;
    forall t | Rank(t) > Rank(r) ensures !MatchesProbe(layout, t, probe) {
      assert SectionOrder[Rank(t)] == t;
    }
    ScrollLastMatchWins(b, layout, scrollY, r);
  }

  /** Handling the same scroll input twice gives what handling it once gives. */
  lemma ScrollIdempotent(active: Section, layout: Layout, scrollY: int)
    ensures var once := ActiveAfterScroll(active, layout, scrollY);
      ActiveAfterScroll(once, layout, scrollY) == once
  {
    var probe := ProbePosition(scrollY);
    var once := ActiveAfterScroll(active, layout, scrollY);
    ScrollChangesOnlyOnMatch(active, layout, scrollY);
    if exists t :: MatchesProbe(layout, t, probe) {
      var t :| MatchesProbe(layout, t, probe);
      ScrollForgetsPrior(once, active, layout, scrollY, t);
    } else {
      ScrollChangesOnlyOnMatch(once, layout, scrollY);
    }
  }

  // ---------------------------------------------------------------------
  // Navigation

  /** Where `handleNavClick` asks the window to scroll: the element's page
      top less the header height, or nothing when the element is not mounted. */
  function NavScrollTarget(section: Section, layout: Layout, pageYOffset: int): (target: Option<int>)
    ensures target.Some? <==> section in layout
    ensures target.Some? ==> layout[section].rectTop + pageYOffset - target.value == HeaderOffset
  {
    if section in layout then Some(layout[section].rectTop + pageYOffset - HeaderOffset) else None
  }

  /** After the window reaches the navigation target, the next scroll event
      agrees with the optimistic choice: when the element's `offsetTop` is
      its page top, it is taller than the lookahead minus the header height,
      and no later section covers the probe, the section stays active. */
  lemma NavTargetThenScrollAgrees(section: Section, layout: Layout, pageYOffset: int, prior: Section)
    requires section in layout
    requires layout[section].offsetTop == layout[section].rectTop + pageYOffset
    requires layout[section].offsetHeight > ScrollLookahead - HeaderOffset
    requires forall t :: Rank(t) > Rank(section) ==>
      !MatchesProbe(layout, t, ProbePosition(NavScrollTarget(section, layout, pageYOffset).value))
    ensures ActiveAfterScroll(prior, layout, NavScrollTarget(section, layout, pageYOffset).value) == section
  {
    ScrollLastMatchWins(prior, layout, NavScrollTarget(section, layout, pageYOffset).value, section);
  }

  // ---------------------------------------------------------------------
  // Theme

  /** The theme button: `"dark"` becomes `"light"`, anything else (another
      name, or no theme yet) becomes `"dark"`. */
  function ToggledTheme(theme: Option<string>): (next: string)
    ensures next == "light" <==> theme == Some("dark")
    ensures next == "dark" <==> theme != Some("dark")
    ensures next == "dark" || next == "light"
  {
    if theme == Some("dark") then "light" else "dark"
  }

  /** Two presses return to the starting theme when it was one of the two
      names the button sets. */
  lemma ThemeToggleTwice(theme: string)
    requires theme == "dark" || theme == "light"
    ensures ToggledTheme(Some(ToggledTheme(Some(theme)))) == theme
  {
  }

  // ---------------------------------------------------------------------
  // Projects, cards and the dialog

  datatype ShowcaseProject = ShowcaseProject(
    title: string,
    description: string,
    image: string,
    video: string,
    images: seq<string>,
    tech: seq<string>,
    longDescription: Option<string>)

  /** The body of the page's dialog when a project is selected. */
  datatype DialogContent = DialogContent(
    title: string,
    slides: seq<Slide>,
    longDescription: Option<string>,
    tags: seq<string>)

  /** The page's `<Dialog>`: its `open` prop and its content, if any. */
  datatype DialogView = DialogView(open: bool, content: Option<DialogContent>)

  function Min(a: int, b: int): int {
    if a <= b then a else b
  }

  /** `project.tech.slice(0, 3)`: the tags a project card shows. */
  function CardTags(tech: seq<string>): (r: seq<string>)
    ensures |r| == Min(3, |tech|)
    ensures r == tech[..|r|]
  {
    if |tech| <= 3 then tech else tech[..3]
  }

  /** Alt text of screenshot `index` of the dialog carousel (numbered from 1). */
  function ScreenshotAlt(title: string, index: nat): string {
    title + " screenshot " + NumberText(index + 1)
  }

  /** `images.map((image, index) => ...)` with indices counted from `start`. */
  function ScreenshotSlides(title: string, images: seq<string>, start: nat): (r: seq<Slide>)
    ensures |r| == |images|
    ensures forall i :: 0 <= i < |images| ==> r[i] == ImageSlide(images[i], ScreenshotAlt(title, start + i))
    decreases |images|
  {
    if images == [] then []
    else [ImageSlide(images[0], ScreenshotAlt(title, start))] + ScreenshotSlides(title, images[1..], start + 1)
  }

  /** The dialog carousel: the project's video, then its screenshots. */
  function DialogSlides(p: ShowcaseProject): seq<Slide> {
    [VideoSlide(p.video)] + ScreenshotSlides(p.title, p.images, 0)
  }

  /** The carousel has one slide more than there are screenshots: the
      video first, then each image in its original order. */
  lemma DialogSlidesShape(p: ShowcaseProject)
    ensures |DialogSlides(p)| == 1 + |p.images|
    ensures DialogSlides(p)[0] == VideoSlide(p.video)
    ensures forall i :: 0 <= i < |p.images| ==>
      DialogSlides(p)[i + 1] == ImageSlide(p.images[i], p.title + " screenshot " + NumberText(i + 1))
  {
  }

  /** The page's dialog for the current selection. */
  function RenderDialog(selected: Option<ShowcaseProject>): (d: DialogView)
    ensures d.open <==> selected.Some?
    ensures d.content.Some? <==> selected.Some?
    ensures d.content.Some? ==> d.content.value.title == selected.value.title
    ensures d.content.Some? ==> d.content.value.tags == selected.value.tech
    ensures d.content.Some? ==> d.content.value.slides == DialogSlides(selected.value)
    ensures d.content.Some? ==> |d.content.value.slides| == 1 + |selected.value.images|
    ensures d.content.Some? ==> d.content.value.longDescription == selected.value.longDescription
  {
    match selected
    case None => DialogView(false, None)
    case Some(p) => DialogView(true, Some(DialogContent(p.title, DialogSlides(p), p.longDescription, p.tech)))
  }

  /** The selection after the page's `onOpenChange(open)`: a report that
      the dialog closed clears it, a report that it opened keeps it. */
  function SelectionAfterOpenChange(open: bool, selected: Option<ShowcaseProject>): (next: Option<ShowcaseProject>)
    ensures open ==> next == selected
    ensures !open ==> next == None
  {
    if open then selected else None
  }

  /** Closing is idempotent, and after a close the dialog renders closed. */
  lemma CloseIdempotent(selected: Option<ShowcaseProject>)
    ensures var once := SelectionAfterOpenChange(false, selected);
      && SelectionAfterOpenChange(false, once) == once
      && !RenderDialog(once).open
  {
  }

  // ---------------------------------------------------------------------
  // The component's state

  class Index {
    var activeSection: Section
    var isMobileMenuOpen: bool
    var selectedProject: Option<ShowcaseProject>

    /** The initial hook values; no scroll measurement is taken on mount. */
    constructor ()
      ensures activeSection == Home && !isMobileMenuOpen && selectedProject == None
    {
      activeSection := Home;
      isMobileMenuOpen := false;
      selectedProject := None;
    }

    /** The dialog as rendered from the current state. */
    function Dialog(): (d: DialogView)
      reads this
      ensures d.open <==> selectedProject.Some?
    {
      RenderDialog(selectedProject)
    }

    /** `handleScroll`: walks the refs in declaration order, skipping null
        ones, and makes every section whose interval holds the probe active. */
    method HandleScroll(scrollY: int, layout: Layout)
      modifies this
      ensures activeSection == ActiveAfterScroll(old(activeSection), layout, scrollY)
      ensures isMobileMenuOpen == old(isMobileMenuOpen)
      ensures selectedProject == old(selectedProject)
    {
      var scrollPosition := ProbePosition(scrollY);
      for i := 0 to |SectionOrder|
        invariant activeSection == ScanSections(old(activeSection), SectionOrder[..i], layout, scrollPosition)
        invariant isMobileMenuOpen == old(isMobileMenuOpen)
        invariant selectedProject == old(selectedProject)
      {
        var key := SectionOrder[i];
        assert SectionOrder[..i + 1][..i] == SectionOrder[..i];
        if key in layout {
          var element := layout[key];
          var elementTop := element.offsetTop;
          var elementBottom := elementTop + element.offsetHeight;
          if scrollPosition >= elementTop && scrollPosition < elementBottom {
            activeSection := key;
          }
        }
      }
      assert SectionOrder[..|SectionOrder|] == SectionOrder;
    }

    /** `handleNavClick`: selects the section at once and closes the menu,
        mounted or not, and returns the scroll target when it is mounted. */
    method HandleNavClick(section: Section, layout: Layout, pageYOffset: int) returns (scrollTo: Option<int>)
      modifies this
      ensures activeSection == section
      ensures !isMobileMenuOpen
      ensures selectedProject == old(selectedProject)
      ensures scrollTo == NavScrollTarget(section, layout, pageYOffset)
    {
      activeSection := section;
      isMobileMenuOpen := false;
      scrollTo := None;
      if section in layout {
        var element := layout[section];
        var yOffset := -HeaderOffset;
        var y := element.rectTop + pageYOffset + yOffset;
        scrollTo := Some(y);
      }
    }

    /** The menu button flips the mobile menu and nothing else. */
    method ToggleMobileMenu()
      modifies this
      ensures isMobileMenuOpen == !old(isMobileMenuOpen)
      ensures activeSection == old(activeSection)
      ensures selectedProject == old(selectedProject)
    {
      isMobileMenuOpen := !isMobileMenuOpen;
    }

    /** A project card click replaces any prior selection. */
    method SelectProject(project: ShowcaseProject)
      modifies this
      ensures selectedProject == Some(project)
      ensures Dialog().open
      ensures activeSection == old(activeSection)
      ensures isMobileMenuOpen == old(isMobileMenuOpen)
    {
      selectedProject := Some(project);
    }

    /** The dialog's `onOpenChange`: `false` clears the selection, `true`
        changes nothing. */
    method DialogOpenChange(open: bool)
      modifies this
      ensures selectedProject == SelectionAfterOpenChange(open, old(selectedProject))
      ensures !open ==> !Dialog().open
      ensures activeSection == old(activeSection)
      ensures isMobileMenuOpen == old(isMobileMenuOpen)
    {
      if !open {
        selectedProject := None;
      }
    }
  }

  // ---------------------------------------------------------------------
  // Event sequences on one page

  /** Pressing the menu button twice restores the flag and keeps the section. */
  method ToggleMenuTwice(page: Index)
    modifies page
    ensures page.isMobileMenuOpen == old(page.isMobileMenuOpen)
    ensures page.activeSection == old(page.activeSection)
    ensures page.selectedProject == old(page.selectedProject)
  {
    page.ToggleMobileMenu();
    page.ToggleMobileMenu();
  }

  /** Selecting p and then q leaves only q selected (with q == p,
      re-selecting p leaves p); the section and the menu are kept. */
  method SelectTwice(page: Index, p: ShowcaseProject, q: ShowcaseProject)
    modifies page
    ensures page.selectedProject == Some(q)
    ensures page.activeSection == old(page.activeSection)
    ensures page.isMobileMenuOpen == old(page.isMobileMenuOpen)
  {
    page.SelectProject(p);
    page.SelectProject(q);
  }

  /** Closing the dialog twice is the same as closing it once. */
  method CloseTwice(page: Index)
    modifies page
    ensures page.selectedProject == None
    ensures !page.Dialog().open
    ensures page.activeSection == old(page.activeSection)
    ensures page.isMobileMenuOpen == old(page.isMobileMenuOpen)
  {
    page.DialogOpenChange(false);
    page.DialogOpenChange(false);
  }

  /** Navigating to a section that is not mounted still selects it and
      closes the menu, and no scroll is requested; a later scroll into a
      gap keeps it. */
  method NavigateThenScrollIntoGap(page: Index, section: Section, layout: Layout, pageYOffset: int, scrollY: int)
    returns (target: Option<int>)
    requires section !in layout
    requires forall t :: !MatchesProbe(layout, t, ProbePosition(scrollY))
    modifies page
    ensures target == None
    ensures page.activeSection == section && !page.isMobileMenuOpen
    ensures page.selectedProject == old(page.selectedProject)
  {
    target := page.HandleNavClick(section, layout, pageYOffset);
    page.HandleScroll(scrollY, layout);
    ScrollChangesOnlyOnMatch(section, layout, scrollY);
  }

  /** The example layout: home `[0, 500)`, about `[500, 1100)`, projects
      `[1100, 1800)`, contact not mounted. */
  function ExampleLayout(): (layout: Layout)
    ensures Contact !in layout
  {
    map[Home := Element(0, 500, 0), About := Element(500, 600, 500), Projects := Element(1100, 700, 1100)]
  }

  /** Scrolling to 450 probes 550, inside About; scrolling to 0 probes 100,
      inside Home; from Projects, scrolling to 1800 probes 1900, below every
      mounted section, so Projects stays. */
  lemma ExampleScrolls(prior: Section)
    ensures ActiveAfterScroll(prior, ExampleLayout(), 450) == About
    ensures ActiveAfterScroll(prior, ExampleLayout(), 0) == Home
    ensures ActiveAfterScroll(Projects, ExampleLayout(), 1800) == Projects
  {
    var layout := ExampleLayout();
    ScrollUniqueMatch(prior, layout, 450, About);
    ScrollUniqueMatch(prior, layout, 0, Home);
    ScrollChangesOnlyOnMatch(Projects, layout, 1800);
  }
}

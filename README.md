# Portfolio page: section tracker and project showcase

A Dafny model of the only stateful logic of a single-page portfolio site.
That logic lives in the `Index` page component (`src/pages/Index.tsx`) and
the `ProjectModal` component (`src/components/ProjectModal.tsx`).

- **Section tracker** (`IndexPage`). The page registers refs for four
  sections: home, about, projects and contact. The Skills and Reviews
  sections have no ref. On every scroll event, `handleScroll` computes a
  probe `scrollY + 100`. It then visits the refs in declaration order,
  skips null ones, and makes every section whose interval
  `[offsetTop, offsetTop + offsetHeight)` holds the probe active. If none
  does, the active section stays. `handleNavClick` sets the section and
  closes the mobile menu at once. When the element is mounted, it also
  scrolls to `rect.top + pageYOffset - 80`.
- **Menu, theme and showcase** (`IndexPage`). The menu button flips a
  flag. The theme button maps `"dark"` to `"light"` and anything else to
  `"dark"`. A project card replaces the single selected project. The
  dialog is open exactly when a project is selected. `onOpenChange(false)`
  clears the selection and `onOpenChange(true)` does nothing. The dialog's
  carousel shows the video, then every screenshot. A card shows the first
  three tech tags.
- **Project modal** (`ProjectModal`). A pure projection. A null project
  renders nothing. Otherwise the dialog is always open and has one slide
  per media item, in the original order. Any open-change event calls
  `onClose`.

Class `IndexPage.Index` holds the three React state hooks as fields. Its
methods are the event handlers; each states the whole new state. The
scroll handler is a loop proved against the specification function
`ActiveAfterScroll`. The lemmas beside it prove what the tracker promises:
last match wins, gaps keep the prior section, unmounted sections are
skipped, and repeated input is idempotent. DOM measurements (`offsetTop`,
`offsetHeight`, `getBoundingClientRect().top`, `scrollY`, `pageYOffset`)
are integer inputs. A section missing from a `Layout` map has a null ref.
The scroll request of `handleNavClick` is returned as an `Option<int>`.

Three behaviours of the code worth stating outright:
- Every match calls `setActiveSection`, so the scan keeps the *last*
  matching section in declaration order (`IndexPage.ScrollLastMatchWins`).
- Neither carousel reorders media: the modal maps `media` in its given
  order (`ProjectModal.NoVideoFirst`), and the page's dialog shows its
  single `video` field, then the screenshots in order.
- No measurement is taken on mount; only the listener is registered, so
  the constructor of `IndexPage.Index` sets `Home` and nothing else.

## Model

| member | source | states |
|---|---|---|
| `Markup.NumberText` | src/components/ProjectModal.tsx:48 | the text of a slide number is a non-empty string of decimal digits with no leading zero |
| `Markup.ParseNumberText` | src/components/ProjectModal.tsx:48 | reading the decimal text of a number back yields the number (inverse) |
| `Markup.NumberTextInjective` | src/components/ProjectModal.tsx:48 | different slide numbers give different texts |
| `Markup.NumberedLabelsDistinct` | src/components/ProjectModal.tsx:48 | two labels with one prefix and different numbers differ |
| `ProjectModal.MediaSlides` | src/components/ProjectModal.tsx:37-53 | one slide per media item; slide i is built from `media[i]` at index i |
| `ProjectModal.Render` | src/components/ProjectModal.tsx:25-72 | nothing is rendered iff the project is null; otherwise the dialog is open and shows the title, `|media|` slides, the long description and all tech tags in order |
| `ProjectModal.OpenChangeIgnoresReport` | src/components/ProjectModal.tsx:29 | the open-change handler calls `onClose` whatever it reports: `true` and `false` lead the parent to the same state |
| `ProjectModal.OpenTrueContrast` | src/components/ProjectModal.tsx:29 | with a parent whose `onClose` clears the selection, a `true` report drops the project, while the page's own dialog keeps it on `true`; on `false` both clear it |
| `ProjectModal.SlideAt` | src/components/ProjectModal.tsx:37-51 | slide i is a video iff `media[i]` has type video; its source is `media[i].url`; an image slide's alt is `<title> - <i+1>` |
| `ProjectModal.SlidesKeepMediaOrder` | src/components/ProjectModal.tsx:37-38 | the slide sources are the media urls in the same order; empty media gives an empty carousel |
| `ProjectModal.NoVideoFirst` | src/components/ProjectModal.tsx:37-51 | `[image A, video B, image C]` is shown as image A, video B, image C: no reordering |
| `ProjectModal.ImageAltsDistinct` | src/components/ProjectModal.tsx:48 | two image slides of one project have different alt texts |
| `IndexPage.ScanSectionsResult` | src/pages/Index.tsx:83-92 | after the scan, either no section of the order matched and the prior section stays, or the result is a matching section after which none matches |
| `IndexPage.ScrollLastMatchWins` | src/pages/Index.tsx:62-89 | a mounted section holding the probe becomes active when no later-declared section holds it |
| `IndexPage.ScrollUniqueMatch` | src/pages/Index.tsx:82-89 | a probe inside exactly one mounted section activates that section |
| `IndexPage.ScrollChangesOnlyOnMatch` | src/pages/Index.tsx:83-92 | with no mounted section holding the probe (above the page, in a gap, in Skills or Reviews) the section stays; otherwise the result holds the probe |
| `IndexPage.ScrollSkipsUnmounted` | src/pages/Index.tsx:84 | an unmounted section is active after a scroll only if it was before |
| `IndexPage.ScrollForgetsPrior` | src/pages/Index.tsx:83-92 | once some section holds the probe, the prior active section does not affect the result |
| `IndexPage.ScrollIdempotent` | src/pages/Index.tsx:81-93 | handling the same scroll input twice equals handling it once |
| `IndexPage.NavScrollTarget` | src/pages/Index.tsx:72-76 | a scroll target exists iff the section is mounted, and it lies 80 pixels above the element's page top |
| `IndexPage.NavTargetThenScrollAgrees` | src/pages/Index.tsx:69-92 | once the window reaches the navigation target, the next scroll event keeps the section that navigation chose, provided it is taller than 20 pixels and no later section covers the probe |
| `IndexPage.ToggledTheme` | src/pages/Index.tsx:223 | the next theme is `"light"` iff the current one is `"dark"`, and `"dark"` otherwise, including when no theme is set; it is always one of the two |
| `IndexPage.ThemeToggleTwice` | src/pages/Index.tsx:275 | two presses return to `"dark"` or `"light"` |
| `IndexPage.CardTags` | src/pages/Index.tsx:487 | a card shows `tech[..min(3, |tech|)]`, a prefix of the tags |
| `IndexPage.ScreenshotSlides` | src/pages/Index.tsx:674-685 | one image slide per screenshot, in order, with alt `<title> screenshot <i+1>` |
| `IndexPage.DialogSlidesShape` | src/pages/Index.tsx:662-686 | the carousel has `1 + |images|` slides: the video first, then each screenshot in order |
| `IndexPage.RenderDialog` | src/pages/Index.tsx:654-723 | the dialog is open and has content iff a project is selected; the content shows its title, its long description, all its tags in order, and the slides `DialogSlides` gives (the video, then each screenshot) |
| `IndexPage.SelectionAfterOpenChange` | src/pages/Index.tsx:654 | a `false` report clears the selection; a `true` report keeps it |
| `IndexPage.CloseIdempotent` | src/pages/Index.tsx:654 | closing an already closed dialog changes nothing, and the dialog renders closed |
| `IndexPage.Index.constructor` | src/pages/Index.tsx:49-59 | initially home is active, the menu is closed and nothing is selected |
| `IndexPage.Index.Dialog` | src/pages/Index.tsx:654 | the page's dialog is open iff a project is selected |
| `IndexPage.Index.HandleScroll` | src/pages/Index.tsx:81-93 | the loop leaves the section `ActiveAfterScroll` gives and changes nothing else |
| `IndexPage.Index.HandleNavClick` | src/pages/Index.tsx:69-78 | sets the section, closes the menu, leaves the selection, and returns the scroll target only when the section is mounted |
| `IndexPage.Index.ToggleMobileMenu` | src/pages/Index.tsx:237 | flips the menu flag and nothing else |
| `IndexPage.Index.SelectProject` | src/pages/Index.tsx:470 | the clicked project replaces any prior selection and the dialog opens |
| `IndexPage.Index.DialogOpenChange` | src/pages/Index.tsx:654 | the selection becomes `SelectionAfterOpenChange` of the report: `false` clears it and closes the dialog; `true` changes nothing |
| `IndexPage.ToggleMenuTwice` | src/pages/Index.tsx:237 | two menu presses restore the flag and never change the section |
| `IndexPage.SelectTwice` | src/pages/Index.tsx:470 | selecting p then q leaves only q (so re-selecting p leaves p) and keeps the section and the menu |
| `IndexPage.CloseTwice` | src/pages/Index.tsx:654 | after two closes nothing is selected and the dialog is closed; the section and the menu are kept |
| `IndexPage.NavigateThenScrollIntoGap` | src/pages/Index.tsx:69-92 | navigating to an unmounted section still selects it, closes the menu, keeps the selection and returns no scroll target; a scroll into a gap keeps the section |
| `IndexPage.ExampleScrolls` | src/pages/Index.tsx:82-89 | with home [0,500), about [500,1100), projects [1100,1800): scroll 450 gives about, scroll 0 gives home, and scroll 1800 from projects keeps projects |

## Left out

- Animation and styling: framer-motion variants, `useInView`, transitions and class names are declarative and carry no logic.
- Listener registration and removal (`addEventListener` and `removeEventListener` in the effect): each scroll event is a call to `HandleScroll`.
- The smooth scroll itself (`window.scrollTo`): `HandleNavClick` returns the target instead of performing it.
- Floating point: `scrollY`, `pageYOffset` and `getBoundingClientRect().top` are fractional in browsers; the model uses integers.
- The theme capability (`next-themes`): its storage and system-preference detection are not modelled, only the value the button sets.
- The `Dialog` and `Carousel` widgets: their internal presentation state is not modelled; the model states the props and the slide list handed to them.
- React batching: the several `setActiveSection` calls of one scroll event are modelled as sequential assignments, and the last one wins, as under batching.
- `handleNavClick` takes a string, but its callers pass only the four section names; the model takes a `Section`.
- React `key` props and reconciliation: duplicate tech tags are rendered as they appear and nothing is said about keys.
- Card image, title and description: the card displays them unchanged; only the tag prefix is modelled.
- The static `projects`, `skills` and `reviews` arrays are content, not logic.
- `src/components/Navbar.tsx` repeats the theme flip and the active highlight of the page; `src/components/HeroSection.tsx` only forwards a click. Neither is modelled separately.

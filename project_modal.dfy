/** The `ProjectModal` component (src/components/ProjectModal.tsx): a pure
    projection from an optional project to the dialog it renders. It keeps
    no state; the open/close plumbing is forwarded to its `onClose` prop. */
module ProjectModal {
  import opened Optional
  import opened Markup
  import IndexPage

  /** `type` is the TypeScript union `"video" | "image"`. */
  datatype MediaType = Video | Image

  datatype MediaItem = MediaItem(kind: MediaType, url: string)

  datatype ModalProject = ModalProject(
    title: string,
    description: string,
    longDescription: Option<string>,
    tech: seq<string>,
    media: seq<MediaItem>)

  /** What the rendered `<Dialog>` shows: its `open` prop, the title, the
      carousel's slides, the description paragraph and the tech tags. */
  datatype ModalView = ModalView(
    open: bool,
    title: string,
    slides: seq<Slide>,
    longDescription: Option<string>,
    tags: seq<string>)

  /** Alt text of the image at carousel position `index` (numbered from 1). */
  function ImageAlt(title: string, index: nat): string {
    title + " - " + NumberText(index + 1)
  }

  /** The carousel item for one media entry at position `index`. */
  function MediaSlide(title: string, item: MediaItem, index: nat): Slide {
    if item.kind == Video then VideoSlide(item.url) else ImageSlide(item.url, ImageAlt(title, index))
  }

  /** `media.map((item, index) => ...)` with indices counted from `start`:
      one slide per item, each built from the item at the same position. */
  function MediaSlides(title: string, media: seq<MediaItem>, start: nat): (r: seq<Slide>)
    ensures |r| == |media|
    ensures forall i :: 0 <= i < |media| ==> r[i] == MediaSlide(title, media[i], start + i)
    decreases |media|
  {
    if media == [] then []
    else [MediaSlide(title, media[0], start)] + MediaSlides(title, media[1..], start + 1)
  }

  /** The component: nothing for a null project; otherwise an open dialog
      with the project's title, one slide per media item and every tag. */
  function Render(project: Option<ModalProject>): (r: Option<ModalView>)
    ensures r.None? <==> project.None?
    ensures r.Some? ==> r.value.open
    ensures r.Some? ==> r.value.title == project.value.title
    ensures r.Some? ==> |r.value.slides| == |project.value.media|
    ensures r.Some? ==> r.value.tags == project.value.tech
    ensures r.Some? ==> r.value.longDescription == project.value.longDescription
  {
    match project
    case None => None
    case Some(p) =>
      Some(ModalView(
        open := true,
        title := p.title,
        slides := MediaSlides(p.title, p.media, 0),
        longDescription := p.longDescription,
        tags := p.tech))
  }

  /** The dialog's `onOpenChange` handler, applied to the parent state `s`
      that the `onClose` prop transforms: the reported value is ignored, so
      the parent ends up in `onClose(s)` whether the dialog reports `true`
      or `false`. */
  function OpenChange<S>(open: bool, onClose: S -> S, s: S): S {
    onClose(s)
  }

  /** Both reports lead to the same parent state. */
  lemma OpenChangeIgnoresReport<S>(onClose: S -> S, s: S)
    ensures OpenChange(true, onClose, s) == OpenChange(false, onClose, s)
  {
  }

  /** Unlike the page's own dialog, which keeps its selection on `true`,
      the modal wired to a parent whose `onClose` clears the selection
      drops the project on either report. */
  lemma OpenTrueContrast(p: IndexPage.ShowcaseProject)
    ensures OpenChange(true, (_: Option<IndexPage.ShowcaseProject>) => None, Some(p)) == None
    ensures IndexPage.SelectionAfterOpenChange(true, Some(p)) == Some(p)
    ensures OpenChange(false, (_: Option<IndexPage.ShowcaseProject>) => None, Some(p))
      == IndexPage.SelectionAfterOpenChange(false, Some(p))
  {
  }

  /** The sources of the slides, in carousel order. */
  function SlideSources(slides: seq<Slide>): (r: seq<string>)
    ensures |r| == |slides|
    ensures forall i :: 0 <= i < |slides| ==> r[i] == slides[i].src
  {
    seq(|slides|, i requires 0 <= i < |slides| => slides[i].src)
  }

  /** The urls of the media items, in content order. */
  function MediaUrls(media: seq<MediaItem>): (r: seq<string>)
    ensures |r| == |media|
    ensures forall i :: 0 <= i < |media| ==> r[i] == media[i].url
  {
    seq(|media|, i requires 0 <= i < |media| => media[i].url)
  }

  /** Slide `i` of a rendered project is built from `media[i]`: a video
      exactly when the item's type is video, with the item's url as its
      source, and otherwise an image whose alt text is `<title> - <i+1>`. */
  lemma SlideAt(p: ModalProject, i: nat)
    requires i < |p.media|
    ensures var slides := Render(Some(p)).value.slides;
      && (slides[i].VideoSlide? <==> p.media[i].kind == Video)
      && slides[i].src == p.media[i].url
      && (slides[i].ImageSlide? ==> slides[i].alt == p.title + " - " + NumberText(i + 1))
  {
  }

  /** No reordering: the carousel shows the media urls in their original
      order, and an empty media list gives an empty carousel. */
  lemma SlidesKeepMediaOrder(p: ModalProject)
    ensures SlideSources(Render(Some(p)).value.slides) == MediaUrls(p.media)
    ensures p.media == [] ==> Render(Some(p)).value.slides == []
  {
  }

  /** Media that begin with an image begin the carousel with that image,
      even when a video follows: e.g. `[image A, video B, image C]` is shown
      as image A, video B, image C. */
  lemma {:induction false} NoVideoFirst(title: string, a: string, b: string, c: string)
    ensures var p := ModalProject(title, "", None, [], [MediaItem(Image, a), MediaItem(Video, b), MediaItem(Image, c)]);
      Render(Some(p)).value.slides
        == [ImageSlide(a, title + " - 1"), VideoSlide(b), ImageSlide(c, title + " - 3")]
  {
    var p := ModalProject(title, "", None, [], [MediaItem(Image, a), MediaItem(Video, b), MediaItem(Image, c)]);
    var slides := Render(Some(p)).value.slides;
    assert NumberText(1) == "1" && NumberText(3) == "3";
    assert slides[0] == MediaSlide(title, p.media[0], 0);
    assert slides[1] == MediaSlide(title, p.media[1], 1);
    assert slides[2] == MediaSlide(title, p.media[2], 2);
    assert ImageAlt(title, 0) == title + " - 1";
    assert ImageAlt(title, 2) == title + " - 3";
    assert |slides| == 3;
  }

  /** Two image slides of one project never carry the same alt text. */
  lemma ImageAltsDistinct(p: ModalProject, i: nat, j: nat)
    requires i < j < |p.media|
    requires p.media[i].kind == Image && p.media[j].kind == Image
    ensures var slides := Render(Some(p)).value.slides;
      slides[i].alt != slides[j].alt
  {
    NumberedLabelsDistinct(p.title + " - ", i + 1, j + 1);
  }
}

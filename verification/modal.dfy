/**
 * The detail modal's own state (src/components/Modal.tsx): which medium, if
 * any, fills the screen, and what the content area then shows.
 */
module ModalView {
  import opened Wrappers
  import opened Media

  /** `fullscreenView`: 'none' | 'image' | 'video'. */
  datatype View = NoView | ImageView | VideoView

  /** The argument of `openFullscreen`: 'image' | 'video'. */
  datatype MediaKind = Image | Video

  function ViewOf(kind: MediaKind): (v: View)
    ensures v != NoView
    ensures v == ImageView <==> kind == Image
  {
    match kind
    case Image => ImageView
    case Video => VideoView
  }

  /** A link prop is truthy: present and not empty. */
  predicate Present(link: Option<string>) {
    link.Some? && link.value != ""
  }

  /** What the content area shows. A video is either an embedded player or a plain video source. */
  datatype Panel =
    | FullImage(src: string)
    | FullVideo(src: string, embedded: bool)
    | Normal

  /** The source the modal plays a video from: the player URL for a hosted video, the link itself otherwise. */
  function VideoSource(video: string): (src: string)
    ensures IsYouTubeVideo(Some(video)) && !Contains(video, "embed") ==>
              |src| > |EmbedPrefix| && src[..|EmbedPrefix|] == EmbedPrefix
    ensures IsYouTubeVideo(Some(video)) && !Contains(video, "embed") && ExtractId(video).Some? ==>
              src == EmbedPrefix + ExtractId(video).value
    ensures IsYouTubeVideo(Some(video)) && !Contains(video, "embed") && ExtractId(video).None? ==>
              src == EmbedPrefix + "undefined"
    ensures Contains(video, "embed") ==> src == video
    ensures !IsYouTubeVideo(Some(video)) ==> src == video
  {
    if IsYouTubeVideo(Some(video)) then EmbedUrl(video) else video
  }

  /**
   * The content area: the image full screen when that view is chosen and
   * there is an image, the video likewise, and the normal content otherwise.
   */
  function ContentPanel(view: View, image: Option<string>, video: Option<string>): (p: Panel)
    ensures view == NoView ==> p == Normal
    ensures p.FullImage? <==> view == ImageView && Present(image)
    ensures p.FullImage? ==> p.src == image.value
    ensures p.FullVideo? <==> view == VideoView && Present(video)
    ensures p.FullVideo? ==> p.embedded == IsYouTubeVideo(video) && p.src == VideoSource(video.value)
  {
    if view == ImageView && Present(image) then FullImage(image.value)
    else if view == VideoView && Present(video) then
      FullVideo(VideoSource(video.value), IsYouTubeVideo(video))
    else Normal
  }

  /** The modal component's `isOpen` prop and `fullscreenView` state. */
  class FullscreenModal {
    var isOpen: bool
    var view: View

    /** Mounting: the `isOpen` effect runs once, which resets the view when the modal starts closed. */
    constructor (isOpen: bool)
      ensures this.isOpen == isOpen && view == NoView
    {
      this.isOpen := isOpen;
      view := NoView;
    }

    /** `openFullscreen`. */
    method OpenFullscreen(kind: MediaKind)
      modifies this`view
      ensures view == ViewOf(kind)
    {
      view := ViewOf(kind);
    }

    /** `closeFullscreen`. */
    method CloseFullscreen()
      modifies this`view
      ensures view == NoView
      ensures forall image, video :: ContentPanel(view, image, video) == Normal
    {
      view := NoView;
    }

    /**
     * A new `isOpen` prop. The effect runs only when the prop changes; when
     * it turns false the view is reset, so a modal reopened later starts
     * with its normal content.
     */
    method SetOpen(open: bool)
      modifies this
      ensures isOpen == open
      ensures !open && old(isOpen) ==> view == NoView
      ensures open || !old(isOpen) ==> view == old(view)
    {
      if open != isOpen {
        isOpen := open;
        if !open {
          view := NoView;
        }
      }
    }
  }
}

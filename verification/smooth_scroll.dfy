/**
 * Smooth scrolling for in-page anchors (assets/js/index.js, initSmoothScrolling).
 * The click listener is attached to every anchor whose href starts with '#';
 * the document lookup of the href as a selector is abstracted to whether it
 * finds an element.
 */
module SmoothScroll {

  /** What the click handler does to the event and the page. */
  datatype ClickEffect = ClickEffect(preventDefault: bool, scrollToTarget: bool)

  /** The bare fragment "#" is left to the browser's default behaviour. */
  const BareFragment: string := "#"

  /**
   * The decision taken on a click: navigation is suppressed exactly when the
   * link names a fragment other than the bare "#" and its target exists, and
   * it is never suppressed without scrolling the target into view instead.
   */
  function OnAnchorClick(href: string, targetExists: bool): (e: ClickEffect)
    ensures e.preventDefault == e.scrollToTarget
    ensures e.preventDefault <==> href != BareFragment && targetExists
    ensures href == BareFragment ==> e == ClickEffect(false, false)
  {
    if href == BareFragment then ClickEffect(false, false)
    else if targetExists then ClickEffect(true, true)
    else ClickEffect(false, false)
  }
}

/**
 * The header parallax effect (assets/js/index.js, initHeaderParallax).
 *
 * A scroll listener requests an animation-frame callback unless one is
 * already requested, which the `ticking` flag records; the callback
 * recomputes the header container's opacity and vertical offset from the
 * scroll offset and clears the flag. The browser's queue of requested
 * callbacks is modelled by a counter, and a frame runs every callback in it.
 */
module HeaderParallax {
  import opened Wrappers

  /** The container's presentation: opacity and translateY in pixels. */
  datatype Style = Style(opacity: real, translateY: real)

  /**
   * The style one callback applies, None when the header has been scrolled
   * out of view (no update at all). While visible, opacity falls from 1 at
   * the top towards 0.5 at the header's bottom edge, and the offset is
   * 0.3 of the scroll distance.
   */
  function FrameStyle(scrolled: nat, headerHeight: nat): (r: Option<Style>)
    ensures r.Some? <==> scrolled < headerHeight
    ensures r.Some? ==> 0.5 < r.value.opacity <= 1.0 && 0.0 <= r.value.translateY
    ensures scrolled == 0 < headerHeight ==> r == Some(Style(1.0, 0.0))
  {
    if scrolled < headerHeight then
      var ratio := scrolled as real / headerHeight as real;
      assert ratio < 1.0 by {
        assert scrolled as real < headerHeight as real;
      }
      Some(Style(1.0 - ratio * 0.5, scrolled as real * 0.3))
    else
      None
  }

  /** The deeper the scroll, the fainter the header. */
  lemma OpacityDecreases(a: nat, b: nat, headerHeight: nat)
    requires a <= b < headerHeight
    ensures FrameStyle(b, headerHeight).value.opacity <= FrameStyle(a, headerHeight).value.opacity
    ensures a < b ==> FrameStyle(b, headerHeight).value.opacity < FrameStyle(a, headerHeight).value.opacity
  {
    var h := headerHeight as real;
    assert a as real / h <= b as real / h by {
      assert (b as real - a as real) / h >= 0.0;
    }
    if a < b {
      assert a as real / h < b as real / h by {
        assert (b as real - a as real) / h > 0.0;
      }
    }
  }

  /**
   * `listening` is false when the component is inert (no header, or a
   * reduced-motion preference); `pending` counts requested callbacks not yet
   * run, `recomputed` counts callbacks run, and `container` is the style last
   * applied to the header container (None while never touched).
   */
  datatype Ticker = Ticker(listening: bool, ticking: bool, pending: nat, recomputed: nat, container: Option<Style>)

  datatype Event =
    | Scroll
    | Frame(scrolled: nat, headerHeight: nat, hasContainer: bool)

  /** Set-up: the listener is registered only with a header and without reduced motion; nothing is pending. */
  function Init(headerPresent: bool, reducedMotion: bool): (t: Ticker)
    ensures t.listening <==> headerPresent && !reducedMotion
    ensures !t.ticking && t.pending == 0 && t.recomputed == 0 && t.container == None
  {
    Ticker(headerPresent && !reducedMotion, false, 0, 0, None)
  }

  /** What one event does: a scroll requests a callback unless one is pending; a frame runs the pending ones. */
  function Step(t: Ticker, e: Event): (r: Ticker)
    ensures t.recomputed <= r.recomputed && r.listening == t.listening
    ensures e.Scroll? ==> r.recomputed == t.recomputed && r.container == t.container && r.pending <= t.pending + 1
    ensures e.Frame? ==> r.pending == 0 && r.recomputed == t.recomputed + t.pending
    ensures e.Frame? && t.pending == 0 ==> r == t
    ensures e.Frame? && t.pending > 0 ==> !r.ticking
  {
    match e
    case Scroll =>
      if !t.listening || t.ticking then t
      else t.(ticking := true, pending := t.pending + 1)
    case Frame(scrolled, headerHeight, hasContainer) =>
      if t.pending == 0 then t
      else
        var style := FrameStyle(scrolled, headerHeight);
        t.(ticking := false, pending := 0, recomputed := t.recomputed + t.pending,
           container := if style.Some? && hasContainer then style else t.container)
  }

  function Run(t: Ticker, events: seq<Event>): Ticker
    decreases |events|
  {
    if events == [] then t else Run(Step(t, events[0]), events[1..])
  }

  /**
   * Frame coalescing: at most one callback is pending, `ticking` is true
   * exactly when one is, and an inert component has never requested or run
   * one nor touched the container.
   */
  predicate Coalesced(t: Ticker)
  {
    t.pending <= 1 && (t.ticking <==> t.pending == 1) &&
    (!t.listening ==> t.pending == 0 && t.recomputed == 0 && t.container == None)
  }

  function Frames(events: seq<Event>): nat
    decreases |events|
  {
    if events == [] then 0 else (if events[0].Frame? then 1 else 0) + Frames(events[1..])
  }

  function Scrolls(events: seq<Event>): nat
    decreases |events|
  {
    if events == [] then 0 else (if events[0].Scroll? then 1 else 0) + Scrolls(events[1..])
  }

  lemma InitCoalesced(headerPresent: bool, reducedMotion: bool)
    ensures Coalesced(Init(headerPresent, reducedMotion))
    ensures reducedMotion ==> !Init(headerPresent, reducedMotion).listening
  {
  }

  /** A frame runs at most one callback, and a scroll while ticking requests nothing new. */
  lemma StepCoalesced(t: Ticker, e: Event)
    requires Coalesced(t)
    ensures Coalesced(Step(t, e))
    ensures Step(t, e).recomputed <= t.recomputed + 1
    ensures e.Scroll? && t.ticking ==> Step(t, e) == t
  {
  }

  /**
   * Over any sequence of scroll and frame events the coalescing invariant
   * holds, no more callbacks run than there were frames, and every callback
   * run or pending was requested by a distinct scroll.
   */
  lemma {:induction false} RunCoalesced(t: Ticker, events: seq<Event>)
    requires Coalesced(t)
    ensures var r := Run(t, events);
      Coalesced(r) &&
      t.recomputed <= r.recomputed <= t.recomputed + Frames(events) &&
      r.recomputed + r.pending <= t.recomputed + t.pending + Scrolls(events)
    decreases |events|
  {
    if events != [] {
      StepCoalesced(t, events[0]);
      RunCoalesced(Step(t, events[0]), events[1..]);
    }
  }

  /** An inert component (no header, or reduced motion) never changes, whatever events arrive. */
  lemma {:induction false} InertNeverUpdates(t: Ticker, events: seq<Event>)
    requires Coalesced(t) && !t.listening
    ensures Run(t, events) == t
    decreases |events|
  {
    if events != [] {
      InertNeverUpdates(Step(t, events[0]), events[1..]);
    }
  }

  /** A burst of scrolls leaves exactly one callback pending and runs none. */
  lemma {:induction false} BurstPendsOne(t: Ticker, n: nat)
    requires Coalesced(t) && t.listening && n >= 1
    ensures var r := Run(t, seq(n, _ => Scroll));
      r.ticking && r.pending == 1 && r.recomputed == t.recomputed && r.container == t.container
    decreases n
  {
    var burst := seq(n, _ => Scroll);
    var t' := Step(t, Scroll);
    assert burst[0] == Scroll;
    if n > 1 {
      assert burst[1..] == seq(n - 1, _ => Scroll);
      BurstPendsOne(t', n - 1);
    } else {
      assert burst[1..] == [];
    }
  }

  /**
   * However many scroll events fire before a frame, the frame performs
   * exactly one recomputation, from the scroll offset it reads then.
   */
  lemma BurstCoalescedIntoOneFrame(t: Ticker, n: nat, scrolled: nat, headerHeight: nat, hasContainer: bool)
    requires Coalesced(t) && t.listening && n >= 1
    ensures var r := Step(Run(t, seq(n, _ => Scroll)), Frame(scrolled, headerHeight, hasContainer));
      r.recomputed == t.recomputed + 1 && !r.ticking && r.pending == 0 &&
      r.container == (if scrolled < headerHeight && hasContainer then FrameStyle(scrolled, headerHeight) else t.container)
  {
    BurstPendsOne(t, n);
  }

  /**
   * The handler state. `pending` stands for the browser's queue of
   * requested animation-frame callbacks.
   */
  class Parallax {
    var listening: bool
    var ticking: bool
    var pending: nat
    var recomputed: nat
    var container: Option<Style>

    function Model(): Ticker
      reads this
    {
      Ticker(listening, ticking, pending, recomputed, container)
    }

    ghost predicate Valid()
      reads this
    {
      Coalesced(Model())
    }

    /** Set-up: the scroll listener is registered only with a header and without reduced motion. */
    constructor (headerPresent: bool, reducedMotion: bool)
      ensures Valid() && Model() == Init(headerPresent, reducedMotion)
    {
      listening := headerPresent && !reducedMotion;
      ticking := false;
      pending := 0;
      recomputed := 0;
      container := None;
    }

    method OnScroll()
      requires Valid()
      modifies this
      ensures Valid()
      ensures Model() == Step(old(Model()), Scroll)
      ensures old(ticking) ==> pending == old(pending)
    {
      if listening && !ticking {
        pending := pending + 1;
        ticking := true;
      }
    }

    /** Runs the pending callbacks; returns how many ran, never more than one. */
    method OnFrame(scrolled: nat, headerHeight: nat, hasContainer: bool) returns (ran: nat)
      requires Valid()
      modifies this
      ensures Valid()
      ensures Model() == Step(old(Model()), Frame(scrolled, headerHeight, hasContainer))
      ensures ran == old(pending) && ran <= 1 && !ticking
    {
      ran := pending;
      if pending > 0 {
        var style := FrameStyle(scrolled, headerHeight);
        if style.Some? && hasContainer {
          container := style;
        }
        ticking := false;
        pending := 0;
        recomputed := recomputed + ran;
      }
    }
  }
}

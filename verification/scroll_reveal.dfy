/**
 * Scroll-triggered reveal (assets/js/index.js, initScrollAnimations).
 *
 * Every element matched by the reveal selectors is tagged as animatable and
 * watched by an intersection observer. The observer's callback receives a
 * batch of entries; each intersecting entry marks its element visible and
 * stops watching it. Elements are identified by number; the observer's
 * geometry (root margin, threshold) decides only which entries intersect.
 */
module ScrollReveal {

  type Element = nat

  datatype Entry = Entry(target: Element, isIntersecting: bool)

  /** The elements a batch reveals: the targets of its intersecting entries. */
  function Revealed(entries: seq<Entry>): (r: set<Element>)
    ensures forall x :: x in r <==> exists i :: 0 <= i < |entries| && entries[i].isIntersecting && entries[i].target == x
    decreases |entries|
  {
    if entries == [] then {}
    else
      var prefix := entries[..|entries| - 1];
      var last := entries[|entries| - 1];
      assert forall i :: 0 <= i < |prefix| ==> prefix[i] == entries[i];
      Revealed(prefix) + (if last.isIntersecting then {last.target} else {})
  }

  /** The elements still watched and the elements marked visible. */
  datatype Watcher = Watcher(observed: set<Element>, visible: set<Element>)

  /** What one callback does: every revealed element becomes visible and is no longer watched. */
  function Deliver(w: Watcher, entries: seq<Entry>): (r: Watcher)
    ensures w.visible <= r.visible && r.observed <= w.observed
    ensures w.observed !! w.visible ==> r.observed !! r.visible
    ensures forall x :: x in r.visible - w.visible ==>
      exists i :: 0 <= i < |entries| && entries[i].isIntersecting && entries[i].target == x
    ensures forall i :: 0 <= i < |entries| && entries[i].isIntersecting ==>
      entries[i].target in r.visible && entries[i].target !in r.observed
  {
    var revealed := Revealed(entries);
    Watcher(w.observed - revealed, w.visible + revealed)
  }

  /** The state after a sequence of callbacks. */
  function Run(w: Watcher, batches: seq<seq<Entry>>): Watcher
    decreases |batches|
  {
    if batches == [] then w else Run(Deliver(w, batches[0]), batches[1..])
  }

  /** A batch without an intersecting entry changes nothing. */
  lemma QuietBatchChangesNothing(w: Watcher, entries: seq<Entry>)
    requires forall i :: 0 <= i < |entries| ==> !entries[i].isIntersecting
    ensures Deliver(w, entries) == w
  {
    assert Revealed(entries) == {};
  }

  /**
   * Over any sequence of callbacks, visibility is one-way and watching
   * only stops: nothing leaves `visible` and nothing is watched again, and
   * a watched element never is also visible.
   */
  lemma {:induction false} RunMonotone(w: Watcher, batches: seq<seq<Entry>>)
    ensures w.visible <= Run(w, batches).visible
    ensures Run(w, batches).observed <= w.observed
    ensures w.observed !! w.visible ==> Run(w, batches).observed !! Run(w, batches).visible
    decreases |batches|
  {
    if batches != [] {
      RunMonotone(Deliver(w, batches[0]), batches[1..]);
    }
  }

  /**
   * An element is visible after a sequence of callbacks exactly when it
   * was visible before or some callback reported it intersecting; it is
   * still watched exactly when it was watched and no callback did.
   */
  lemma {:induction false} VisibleIffReported(w: Watcher, batches: seq<seq<Entry>>, x: Element)
    ensures x in Run(w, batches).visible <==>
      x in w.visible ||
      exists b, i :: 0 <= b < |batches| && 0 <= i < |batches[b]| && batches[b][i].isIntersecting && batches[b][i].target == x
    ensures x in Run(w, batches).observed <==>
      x in w.observed &&
      !exists b, i :: 0 <= b < |batches| && 0 <= i < |batches[b]| && batches[b][i].isIntersecting && batches[b][i].target == x
    decreases |batches|
  {
    if batches != [] {
      var rest := batches[1..];
      VisibleIffReported(Deliver(w, batches[0]), rest, x);
      forall b, i | 0 <= b < |rest| && 0 <= i < |rest[b]|
        ensures rest[b][i] == batches[b + 1][i]
      {
      }
      if exists b, i :: 0 <= b < |batches| && 0 <= i < |batches[b]| && batches[b][i].isIntersecting && batches[b][i].target == x {
        var b, i :| 0 <= b < |batches| && 0 <= i < |batches[b]| && batches[b][i].isIntersecting && batches[b][i].target == x;
        if b == 0 {
          assert x in Revealed(batches[0]);
        } else {
          assert rest[b - 1][i] == batches[b][i];
        }
      }
    }
  }

  /** The reveal component's state. */
  class RevealObserver {
    /** False when reduced motion is preferred: no observer exists. */
    var enabled: bool
    /** Elements tagged with the 'animate-on-scroll' class. */
    var animatable: set<Element>
    var observed: set<Element>
    /** Elements tagged with the 'is-visible' class. */
    var visible: set<Element>

    ghost predicate Valid()
      reads this
    {
      observed !! visible && observed <= animatable &&
      (!enabled ==> animatable == {} && observed == {} && visible == {})
    }

    function Model(): Watcher
      reads this
    {
      Watcher(observed, visible)
    }

    /** Set-up: unless reduced motion is preferred, every matched element is tagged and watched. */
    constructor (elements: seq<Element>, reducedMotion: bool)
      ensures Valid() && enabled == !reducedMotion && visible == {}
      ensures observed == animatable
      ensures forall x :: x in observed <==> !reducedMotion && x in elements
    {
      enabled := !reducedMotion;
      visible := {};
      var tagged: set<Element> := {};
      if !reducedMotion {
        for k := 0 to |elements|
          invariant forall x :: x in tagged <==> x in elements[..k]
        {
          tagged := tagged + {elements[k]};
        }
        assert elements[..|elements|] == elements;
      }
      animatable := tagged;
      observed := tagged;
    }

    /** The observer's callback over one batch of entries. */
    method OnEntries(entries: seq<Entry>)
      requires Valid() && enabled
      modifies this
      ensures Valid() && enabled && animatable == old(animatable)
      ensures Model() == Deliver(old(Model()), entries)
    {
      for k := 0 to |entries|
        invariant visible == old(visible) + Revealed(entries[..k])
        invariant observed == old(observed) - Revealed(entries[..k])
        invariant enabled == old(enabled) && animatable == old(animatable)
      {
        assert entries[..k + 1][..k] == entries[..k];
        if entries[k].isIntersecting {
          visible := visible + {entries[k].target};
          observed := observed - {entries[k].target};
        }
      }
      assert entries[..|entries|] == entries;
    }
  }
}

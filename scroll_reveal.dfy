/**
 * The `useScrollReveal` hook: a one-way latch `isVisible` that an
 * intersection observer sets the first time the element is seen, after
 * which the element is no longer observed.
 */
module ScrollReveal {
  import opened Wrappers

  /** `SCROLL.THRESHOLD`: the fraction of the element that must be visible. */
  const DefaultThreshold: real := 0.1

  /** `SCROLL.ROOT_MARGIN`: the viewport shrunk by 100 pixels at the bottom. */
  const DefaultRootMargin: string := "0px 0px -100px 0px"

  /** The hook's options; an omitted one is `None`. */
  datatype Options = Options(threshold: Option<real>, rootMargin: Option<string>)

  /** What the observer is constructed with. */
  datatype ObserverOptions = ObserverOptions(threshold: real, rootMargin: string)

  /** `const { threshold = SCROLL.THRESHOLD, rootMargin = SCROLL.ROOT_MARGIN } = options` */
  function Resolve(o: Options): (r: ObserverOptions)
    ensures o.threshold.Some? ==> r.threshold == o.threshold.value
    ensures o.threshold.None? ==> r.threshold == DefaultThreshold
    ensures o.rootMargin.Some? ==> r.rootMargin == o.rootMargin.value
    ensures o.rootMargin.None? ==> r.rootMargin == DefaultRootMargin
  {
    ObserverOptions(
      match o.threshold case Some(t) => t case None => DefaultThreshold,
      match o.rootMargin case Some(m) => m case None => DefaultRootMargin)
  }

  /** An `IntersectionObserverEntry`, as far as the hook reads it. */
  datatype Entry = Entry(isIntersecting: bool)

  /** The entries of one callback; an observer never calls back with none. */
  type Batch = s: seq<Entry> | |s| >= 1 witness [Entry(false)]

  /** What one callback does to `isVisible`: only the first entry of the batch counts. */
  function Step(v: bool, batch: Batch): bool {
    if batch[0].isIntersecting then true else v
  }

  /** `isVisible` after a run of callbacks, starting from `v`. */
  function Reveal(v: bool, batches: seq<Batch>): bool
    decreases |batches|
  {
    if batches == [] then v else Reveal(Step(v, batches[0]), batches[1..])
  }

  /** Some batch of the run has an intersecting first entry. */
  predicate SomeFirstIntersects(batches: seq<Batch>) {
    exists i :: 0 <= i < |batches| && batches[i][0].isIntersecting
  }

  /**
   * After a run of callbacks the element is visible exactly when it already
   * was or some batch's first entry was intersecting; entries after the
   * first in a batch never matter.
   */
  lemma {:induction false} RevealIff(v: bool, batches: seq<Batch>)
    ensures Reveal(v, batches) <==> v || SomeFirstIntersects(batches)
    decreases |batches|
  {
    if batches != [] {
      var rest := batches[1..];
      RevealIff(Step(v, batches[0]), rest);
      if SomeFirstIntersects(rest) {
        var i :| 0 <= i < |rest| && rest[i][0].isIntersecting;
        assert batches[i + 1] == rest[i];
      }
      if SomeFirstIntersects(batches) {
        var i :| 0 <= i < |batches| && batches[i][0].isIntersecting;
        if i > 0 {
          assert rest[i - 1] == batches[i];
        }
      }
    }
  }

  /** Once visible, always visible: no later callback turns `isVisible` back to false. */
  lemma {:induction false} RevealLatches(v: bool, batches: seq<Batch>, later: seq<Batch>)
    ensures Reveal(v, batches) ==> Reveal(v, batches + later)
    decreases |batches|
  {
    if batches == [] {
      assert batches + later == later;
      if v {
        RevealIff(v, later);
      }
    } else {
      assert (batches + later)[0] == batches[0];
      assert (batches + later)[1..] == batches[1..] + later;
      RevealLatches(Step(v, batches[0]), batches[1..], later);
    }
  }

  /**
   * The hook's state: the latch, the observer's options and whether it
   * currently observes the element, whether the component is mounted, and
   * whether the component renders the element the ref is attached to (it
   * does on every render or on none). While mounted, `ref.current` holds the
   * element exactly when it is rendered. On unmount React detaches the ref
   * before it runs the cleanup, and from then on `ref.current` is null.
   */
  class RevealHook {
    var isVisible: bool
    var options: ObserverOptions
    var observing: bool
    var mounted: bool
    const elementPresent: bool

    /** Only a present element is ever observed. */
    predicate Valid()
      reads this
    {
      observing ==> elementPresent
    }

    /** `ref.current` is the element. */
    predicate RefHolds()
      reads this
    {
      mounted && elementPresent
    }

    /** The first render: not visible, nothing observed yet. */
    constructor(o: Options, elementPresent: bool)
      ensures !isVisible && !observing && mounted && options == Resolve(o)
      ensures this.elementPresent == elementPresent
      ensures Valid()
    {
      isVisible := false;
      options := Resolve(o);
      observing := false;
      mounted := true;
      this.elementPresent := elementPresent;
    }

    /** The effect, run only in a mounted component: a new observer, which observes the element exactly when there is one. */
    method Effect()
      requires Valid() && mounted
      modifies this
      ensures observing == elementPresent
      ensures isVisible == old(isVisible) && options == old(options) && mounted
      ensures Valid()
    {
      if RefHolds() {
        observing := true;
      }
    }

    /**
     * The observer's callback. An intersecting first entry sets the latch
     * and, if `ref.current` still holds the element, ends the observation.
     * Once the component is unmounted, setting the state does nothing and
     * the ref is null, so the callback changes nothing. Any batch whose first
     * entry does not intersect changes nothing either.
     */
    method OnEntries(entries: Batch)
      requires Valid() && observing
      modifies this
      ensures isVisible == if old(mounted) then Step(old(isVisible), entries) else old(isVisible)
      ensures observing == !(entries[0].isIntersecting && old(mounted))
      ensures options == old(options) && mounted == old(mounted)
      ensures Valid()
    {
      var entry := entries[0];
      if entry.isIntersecting {
        if mounted {
          isVisible := true;
        }
        if RefHolds() {
          observing := false;
        }
      }
    }

    /**
     * The effect's cleanup: if `ref.current` still holds the element, the
     * element is no longer observed; if it does not, `unobserve` is skipped
     * and any observation goes on. The latch is left as it is.
     */
    method Cleanup()
      requires Valid()
      modifies this
      ensures observing == (old(observing) && !old(mounted))
      ensures isVisible == old(isVisible) && options == old(options) && mounted == old(mounted)
      ensures Valid()
    {
      if RefHolds() {
        observing := false;
      }
    }

    /**
     * Unmounting: React detaches the ref and then runs the cleanup, which
     * finds `ref.current` null, so an element not yet revealed stays
     * observed by the discarded observer.
     */
    method Unmount()
      requires Valid() && mounted
      modifies this
      ensures !mounted && observing == old(observing)
      ensures isVisible == old(isVisible) && options == old(options)
      ensures Valid()
    {
      mounted := false;
      Cleanup();
    }

    /**
     * A later render with options `o`. When the resolved `threshold` or
     * `rootMargin` differs, the old observer is cleaned up and a new one
     * observes the element again, even when it has already been revealed;
     * otherwise the effect does not re-run. The latch keeps its value.
     */
    method Rerender(o: Options)
      requires Valid() && mounted
      modifies this
      ensures options == Resolve(o)
      ensures observing == if Resolve(o) != old(options) then elementPresent else old(observing)
      ensures isVisible == old(isVisible) && mounted
      ensures Valid()
    {
      if Resolve(o) != options {
        Cleanup();
        options := Resolve(o);
        Effect();
      }
    }
  }
}

/** The lifecycle of one mounted `ParticleCanvas` (components/HeroSection.tsx):
    setup, the backing-store resize, the `draw` frame, the visibility flag
    driven by the intersection observer, the animation-frame loop and the
    cleanup. The host's services are part of the object's state: the set of
    outstanding animation-frame requests with the handle the next request gets,
    whether the resize listener is registered and whether the observer is
    connected. */
module ParticleCanvasEffect {
  import opened Options
  import opened ParticleField

  /** `window.devicePixelRatio || 1`: an absent or zero ratio falls back to 1. */
  function PixelRatio(reported: Option<real>): (dpr: real)
    ensures dpr != 0.0
    ensures dpr == 1.0 || reported == Some(dpr)
    ensures reported.Some? && reported.value != 0.0 <==> reported == Some(dpr)
  {
    if reported.Some? && reported.value != 0.0 then reported.value else 1.0
  }

  /** A 300 by 200 canvas on a display reporting ratio 2 gets a 600 by 400
      backing store; a display reporting no ratio gets 300 by 200. */
  lemma ResizeExamples()
    ensures 300.0 * PixelRatio(Some(2.0)) == 600.0 && 200.0 * PixelRatio(Some(2.0)) == 400.0
    ensures 300.0 * PixelRatio(None) == 300.0 && 300.0 * PixelRatio(Some(0.0)) == 300.0
  {
  }

  class ParticleCanvas {
    /** Setup found a canvas and a 2D context: only then were particles, the
        resize listener, the observer and the cleanup created. */
    var mounted: bool
    /** The pixel ratio read once at setup. */
    var dpr: real
    /** Size of the canvas's backing store in device pixels. */
    var backingWidth: real
    var backingHeight: real
    var particles: array<Particle>
    var isVisible: bool
    /** Handle of the last animation frame requested; 0 before any request. */
    var animId: nat

    // Host state.
    /** Animation-frame requests made and neither fired nor cancelled. */
    var pending: set<nat>
    /** The handle the next `requestAnimationFrame` returns. */
    var nextFrameId: nat
    var resizeListening: bool
    var observing: bool

    /** Number of not-visible to visible changes the observer has reported. */
    ghost var reshows: nat

    /** Structural invariant, kept by every method including `Draw`. */
    ghost predicate Wellformed()
      reads this, particles
    {
      (mounted ==> particles.Length == Count) &&
      (!mounted ==> particles.Length == 0 && pending == {} && !resizeListening && !observing) &&
      0 < nextFrameId && animId < nextFrameId &&
      (forall id :: id in pending ==> 0 < id < nextFrameId) &&
      (!observing ==> !isVisible)
    }

    /** Loop accounting between events: while visible the last requested
        frame is still outstanding, and there are never more frame loops than
        one plus the number of times the canvas came back into view. */
    ghost predicate Valid()
      reads this, particles
    {
      Wellformed() &&
      (isVisible ==> animId in pending) &&
      |pending| <= 1 + reshows
    }

    /** The effect's setup followed by its first `draw()`. The seeding
        rectangle, the first resize and the first frame see the same logical
        size `w` by `h`. */
    constructor Mount(canvasPresent: bool, contextPresent: bool, reportedRatio: Option<real>,
                      w: real, h: real, ds: seq<Draws>)
      requires w >= 0.0 && h >= 0.0
      requires |ds| == Count && AllValidDraws(ds)
      ensures Valid() && fresh(particles)
      ensures mounted == (canvasPresent && contextPresent)
      ensures !mounted ==> particles.Length == 0 && pending == {} && !isVisible && !resizeListening && !observing
      ensures mounted ==>
        dpr == PixelRatio(reportedRatio) && backingWidth == w * dpr && backingHeight == h * dpr &&
        resizeListening && observing && isVisible &&
        pending == {1} && animId == 1 && nextFrameId == 2 &&
        particles[..] == MoveAll(Seeded(ds, w, h), w, h)
    {
      var ok := canvasPresent && contextPresent;
      mounted := ok;
      pending, nextFrameId, animId := {}, 1, 0;
      reshows := 0;
      if ok {
        var ratio := PixelRatio(reportedRatio);
        dpr := ratio;
        backingWidth, backingHeight := w * ratio, h * ratio;
        resizeListening := true;
        var seeded := SeedParticles(ds, w, h);
        particles := seeded;
        isVisible := true;
        observing := true;
      } else {
        dpr, backingWidth, backingHeight := 1.0, 0.0, 0.0;
        resizeListening, observing, isVisible := false, false, false;
        particles := new Particle[0];
      }
      new;
      if mounted {
        var links, discs := Draw(w, h);
      }
    }

    /** The host's `requestAnimationFrame`: a fresh handle, now outstanding.
        An inner step of `Draw`, not a host event: it keeps only
        `Wellformed()`, and the loop accounting of `Valid()` is restored by
        the event that called it. */
    method RequestFrame() returns (id: nat)
      requires Wellformed() && mounted
      modifies this`pending, this`nextFrameId
      ensures Wellformed()
      ensures id == old(nextFrameId) && id !in old(pending)
      ensures pending == old(pending) + {id} && nextFrameId == id + 1
    {
      id := nextFrameId;
      pending := pending + {id};
      nextFrameId := nextFrameId + 1;
    }

    /** `draw`: the link pass and the disc pass on the positions from before
        this frame, the move, and a request for the next frame iff the canvas
        is visible. `w` by `h` is the logical size at the time of the frame.
        An inner step reached only from `Mount`, `FrameFired` and
        `OnIntersect`, which restore `Valid()`; called on its own while
        visible it would start a loop no host event starts. */
    method Draw(w: real, h: real) returns (links: seq<Link>, discs: seq<Disc>)
      requires Wellformed() && mounted
      modifies this`animId, this`pending, this`nextFrameId, particles
      ensures Wellformed()
      ensures links == Links(old(particles[..]))
      ensures discs == Discs(old(particles[..]))
      ensures particles[..] == MoveAll(old(particles[..]), w, h)
      ensures isVisible ==>
        old(nextFrameId) !in old(pending) && pending == old(pending) + {old(nextFrameId)} &&
        animId == old(nextFrameId) && nextFrameId == old(nextFrameId) + 1
      ensures !isVisible ==> pending == old(pending) && animId == old(animId) && nextFrameId == old(nextFrameId)
    {
      links := StrokeLinks(particles);
      discs := FillAndMove(particles, w, h);
      if isVisible {
        animId := RequestFrame();
      }
    }

    /** The host fires the outstanding frame `id`: it is no longer
        outstanding, and `draw` runs. */
    method FrameFired(id: nat, w: real, h: real) returns (links: seq<Link>, discs: seq<Disc>)
      requires Valid() && id in pending
      modifies this`animId, this`pending, this`nextFrameId, particles
      ensures Valid()
      ensures links == Links(old(particles[..]))
      ensures discs == Discs(old(particles[..]))
      ensures particles[..] == MoveAll(old(particles[..]), w, h)
      ensures isVisible ==>
        pending == old(pending) - {id} + {old(nextFrameId)} && animId == old(nextFrameId) &&
        nextFrameId == old(nextFrameId) + 1 && |pending| == |old(pending)|
      ensures !isVisible ==>
        pending == old(pending) - {id} && animId == old(animId) && nextFrameId == old(nextFrameId) &&
        |pending| == |old(pending)| - 1
    {
      pending := pending - {id};
      links, discs := Draw(w, h);
    }

    /** The observer callback: `isVisible` follows the entry, and `draw` runs
        directly only on a change from not visible to visible. A disconnected
        observer delivers nothing. */
    method OnIntersect(isIntersecting: bool, w: real, h: real) returns (drew: bool, links: seq<Link>, discs: seq<Disc>)
      requires Valid()
      modifies this`isVisible, this`reshows, this`animId, this`pending, this`nextFrameId, particles
      ensures Valid()
      ensures isVisible == (if old(observing) then isIntersecting else old(isVisible))
      ensures drew == (old(observing) && isIntersecting && !old(isVisible))
      ensures drew ==>
        links == Links(old(particles[..])) && discs == Discs(old(particles[..])) &&
        particles[..] == MoveAll(old(particles[..]), w, h) &&
        pending == old(pending) + {old(nextFrameId)} && animId == old(nextFrameId) &&
        nextFrameId == old(nextFrameId) + 1 && |pending| == |old(pending)| + 1
      ensures !drew ==>
        links == [] && discs == [] && particles[..] == old(particles[..]) &&
        pending == old(pending) && animId == old(animId) && nextFrameId == old(nextFrameId)
    {
      drew, links, discs := false, [], [];
      if observing {
        var wasInvisible := !isVisible;
        isVisible := isIntersecting;
        if isVisible && wasInvisible {
          reshows := reshows + 1;
          links, discs := Draw(w, h);
          drew := true;
        }
      }
    }

    /** The resize listener: the backing store becomes the logical size times
        the pixel ratio read at setup. A removed listener is not called. */
    method OnResize(w: real, h: real)
      requires Valid()
      modifies this`backingWidth, this`backingHeight
      ensures Valid()
      ensures old(resizeListening) ==> backingWidth == w * dpr && backingHeight == h * dpr
      ensures !old(resizeListening) ==> backingWidth == old(backingWidth) && backingHeight == old(backingHeight)
    {
      if resizeListening {
        backingWidth, backingHeight := w * dpr, h * dpr;
      }
    }

    /** The cleanup returned by the effect (registered only when mounted):
        hides the canvas, cancels the last requested frame, disconnects the
        observer and removes the resize listener. Other outstanding frames
        stay outstanding. */
    method Dispose()
      requires Valid()
      modifies this`isVisible, this`pending, this`observing, this`resizeListening
      ensures Valid()
      ensures mounted ==>
        !isVisible && !observing && !resizeListening &&
        pending == old(pending) - {old(animId)} && animId !in pending
      ensures !mounted ==>
        isVisible == old(isVisible) && pending == old(pending) &&
        observing == old(observing) && resizeListening == old(resizeListening)
    {
      if mounted {
        isVisible := false;
        pending := pending - {animId};
        observing := false;
        resizeListening := false;
      }
    }
  }

  /** Without a canvas or a 2D context nothing is set up: no particles, no
      frame, no listener, no observer, and cleanup has nothing to undo. */
  method UnmountedDoesNothing(canvasPresent: bool, contextPresent: bool, reportedRatio: Option<real>,
                              w: real, h: real, ds: seq<Draws>) returns (particleCount: nat, framesPending: nat)
    requires !canvasPresent || !contextPresent
    requires w >= 0.0 && h >= 0.0
    requires |ds| == Count && AllValidDraws(ds)
    ensures particleCount == 0 && framesPending == 0
  {
    var c := new ParticleCanvas.Mount(canvasPresent, contextPresent, reportedRatio, w, h, ds);
    c.Dispose();
    particleCount, framesPending := c.particles.Length, |c.pending|;
  }

  /** Hiding the canvas and showing it again before the outstanding frame
      fires starts a second loop; the cleanup cancels only the latest frame,
      so one frame is still outstanding after it. That frame draws once and
      requests nothing. */
  method TwoLoopsAfterQuickReshow(ds: seq<Draws>) returns (afterDispose: set<nat>, afterLastFrame: set<nat>)
    requires |ds| == Count && AllValidDraws(ds)
    ensures afterDispose == {1}
    ensures afterLastFrame == {}
  {
    var c := new ParticleCanvas.Mount(true, true, Some(2.0), 300.0, 200.0, ds);
    assert c.pending == {1};
    var drew, links, discs := c.OnIntersect(false, 300.0, 200.0);
    assert !drew && c.pending == {1};
    drew, links, discs := c.OnIntersect(true, 300.0, 200.0);
    assert drew && c.pending == {1, 2} && c.animId == 2;
    c.Dispose();
    afterDispose := c.pending;
    links, discs := c.FrameFired(1, 300.0, 200.0);
    afterLastFrame := c.pending;
  }
}

/** The particle field drawn behind the hero header (components/HeroSection.tsx,
    `ParticleCanvas`): particle records, their random seeding, the proximity
    link pass, the disc pass and the per-frame move with velocity reflection.
    Coordinates are logical (CSS) pixels, modelled as `real`; random draws are
    inputs; canvas drawing calls become emitted `Link` and `Disc` records. */
module ParticleField {
  /** Number of particles created when the canvas is mounted. */
  const Count: nat := 60
  /** Pairs closer than this many logical pixels are joined by a line. */
  const LinkDistance: real := 120.0
  /** LinkDistance squared: the link test compares squared distances. */
  const LinkDistance2: real := 14400.0
  /** Largest stroke alpha a link can have (two particles at distance 0). */
  const LinkAlphaMax: real := 0.08
  /** Draws below this value make an orange particle. */
  const OrangeShare: real := 0.3

  /** The two fill colours, as the RGB triples the component stores. */
  const Accent: string := "251,98,63"
  const Neutral: string := "245,245,245"

  datatype Particle = Particle(x: real, y: real, vx: real, vy: real, r: real, alpha: real, color: string)

  /** The seven `Math.random()` draws consumed for one particle, in the order
      the seeding loop makes them. */
  datatype Draws = Draws(orange: real, x: real, y: real, vx: real, vy: real, r: real, alpha: real)

  /** A stroked line between particles `i < j`; `dist2` is their squared
      distance, from which the stroke alpha is derived (see LinkAlpha). */
  datatype Link = Link(i: nat, j: nat, dist2: real)

  /** A filled disc for particle `index`, at its position when it was drawn. */
  datatype Disc = Disc(index: nat, x: real, y: real, r: real, alpha: real, color: string)

  /** Position and velocity along one axis; x and y move independently. */
  datatype AxisState = AxisState(pos: real, vel: real)

  function Abs(v: real): real { if v < 0.0 then -v else v }

  // ---------------------------------------------------------------------
  // Seeding

  predicate IsUnit(u: real) { 0.0 <= u < 1.0 }

  /** What `Math.random()` guarantees of every draw. */
  predicate ValidDraws(d: Draws)
  {
    IsUnit(d.orange) && IsUnit(d.x) && IsUnit(d.y) && IsUnit(d.vx) &&
    IsUnit(d.vy) && IsUnit(d.r) && IsUnit(d.alpha)
  }

  predicate AllValidDraws(ds: seq<Draws>)
  {
    forall k :: 0 <= k < |ds| ==> ValidDraws(ds[k])
  }

  /** A draw in [0, 1) scaled by a non-negative size lands in [0, size). */
  function Scaled(u: real, size: real): (v: real)
    requires IsUnit(u) && size >= 0.0
    ensures 0.0 <= v <= size && (size > 0.0 ==> v < size)
  {
    assert u * size >= 0.0;
    assert size - u * size == (1.0 - u) * size;
    assert size > 0.0 ==> (1.0 - u) * size > 0.0;
    u * size
  }

  /** One particle of the seeding loop, inside a `w` by `h` rectangle. */
  function SeedParticle(d: Draws, w: real, h: real): (p: Particle)
    requires ValidDraws(d) && w >= 0.0 && h >= 0.0
    ensures 0.0 <= p.x <= w && (w > 0.0 ==> p.x < w)
    ensures 0.0 <= p.y <= h && (h > 0.0 ==> p.y < h)
    ensures -0.2 <= p.vx < 0.2 && -0.2 <= p.vy < 0.2
    ensures 0.5 <= p.r < 2.5
    ensures 0.1 <= p.alpha < 0.6
    ensures p.color == Accent <==> d.orange < OrangeShare
    ensures p.color == Neutral <==> d.orange >= OrangeShare
  {
    Particle(Scaled(d.x, w), Scaled(d.y, h), (d.vx - 0.5) * 0.4, (d.vy - 0.5) * 0.4,
             d.r * 2.0 + 0.5, d.alpha * 0.5 + 0.1,
             if d.orange < OrangeShare then Accent else Neutral)
  }

  /** Every seeded particle lies in the rectangle, with velocity, radius,
      alpha and colour in the ranges the draws allow. */
  predicate FreshlySeeded(p: Particle, w: real, h: real)
  {
    0.0 <= p.x <= w && (w > 0.0 ==> p.x < w) &&
    0.0 <= p.y <= h && (h > 0.0 ==> p.y < h) &&
    -0.2 <= p.vx < 0.2 && -0.2 <= p.vy < 0.2 &&
    0.5 <= p.r < 2.5 && 0.1 <= p.alpha < 0.6 &&
    (p.color == Accent || p.color == Neutral)
  }

  /** The particle list the seeding loop builds, one particle per draw record. */
  function Seeded(ds: seq<Draws>, w: real, h: real): (ps: seq<Particle>)
    requires AllValidDraws(ds) && w >= 0.0 && h >= 0.0
    ensures |ps| == |ds|
    ensures forall k :: 0 <= k < |ds| ==> FreshlySeeded(ps[k], w, h)
    ensures forall k :: 0 <= k < |ds| ==> (ps[k].color == Accent <==> ds[k].orange < OrangeShare)
  {
    seq(|ds|, k requires 0 <= k < |ds| => SeedParticle(ds[k], w, h))
  }

  /** The seeding loop: a fresh array filled front to back, one particle per
      iteration. */
  method SeedParticles(ds: seq<Draws>, w: real, h: real) returns (a: array<Particle>)
    requires AllValidDraws(ds) && w >= 0.0 && h >= 0.0
    ensures fresh(a)
    ensures a[..] == Seeded(ds, w, h)
  {
    a := new Particle[|ds|];
    var k := 0;
    while k < |ds|
      invariant 0 <= k <= |ds|
      invariant forall q :: 0 <= q < k ==> a[q] == SeedParticle(ds[q], w, h)
    {
      a[k] := SeedParticle(ds[k], w, h);
      k := k + 1;
    }
  }

  // ---------------------------------------------------------------------
  // Link pass

  function Dist2(p: Particle, q: Particle): real
  {
    (p.x - q.x) * (p.x - q.x) + (p.y - q.y) * (p.y - q.y)
  }

  /** Near iff the Euclidean distance is below LinkDistance (LinkThreshold). */
  predicate Near(p: Particle, q: Particle)
  {
    Dist2(p, q) < LinkDistance2
  }

  /** `d` is the Euclidean distance whose square is `dist2`. */
  predicate IsDistance(d: real, dist2: real)
  {
    d >= 0.0 && d * d == dist2
  }

  /** Comparing squared distances with 14400 is `draw`'s `dist < 120`. */
  lemma LinkThreshold(d: real, dist2: real)
    requires IsDistance(d, dist2)
    ensures dist2 < LinkDistance2 <==> d < LinkDistance
  {
    if d < LinkDistance {
      assert d * d <= d * LinkDistance;
      assert d * LinkDistance < LinkDistance * LinkDistance;
    } else {
      assert d * d >= d * LinkDistance;
      assert d * LinkDistance >= LinkDistance * LinkDistance;
    }
  }

  /** The stroke alpha of a link at distance `d`: decays linearly from
      LinkAlphaMax at distance 0 and stays positive below the threshold. */
  function LinkAlpha(d: real): (a: real)
    requires 0.0 <= d < LinkDistance
    ensures 0.0 < a <= LinkAlphaMax
    ensures a == LinkAlphaMax <==> d == 0.0
  {
    0.08 * (1.0 - d / 120.0)
  }

  /** The stroke alpha fades as the distance grows. */
  lemma LinkAlphaDecreasing(d1: real, d2: real)
    requires 0.0 <= d1 < d2 < LinkDistance
    ensures LinkAlpha(d2) < LinkAlpha(d1)
  {
  }

  /** Links of particle `i` with particles `j`, `i < j < m`, in increasing `j`. */
  function RowLinks(ps: seq<Particle>, i: nat, m: nat): seq<Link>
    requires i < |ps| && m <= |ps|
    decreases m
  {
    if m <= i + 1 then []
    else
      RowLinks(ps, i, m - 1) +
      (if Near(ps[i], ps[m - 1]) then [Link(i, m - 1, Dist2(ps[i], ps[m - 1]))] else [])
  }

  /** Links for every pair whose first index is below `n`, outer index first. */
  function LinkPass(ps: seq<Particle>, n: nat): seq<Link>
    requires n <= |ps|
  {
    if n == 0 then [] else LinkPass(ps, n - 1) + RowLinks(ps, n - 1, |ps|)
  }

  /** The lines one frame strokes for the particle list `ps`. */
  function Links(ps: seq<Particle>): (ls: seq<Link>)
    ensures Ordered(ls)
    ensures forall l :: l in ls <==> IsLinkOf(ps, l)
  {
    LinkPassFacts(ps, |ps|);
    LinkPass(ps, |ps|)
  }

  /** `l` is the line the pass strokes for a near pair of `ps`. */
  predicate IsLinkOf(ps: seq<Particle>, l: Link)
  {
    l.i < l.j < |ps| && Near(ps[l.i], ps[l.j]) && l.dist2 == Dist2(ps[l.i], ps[l.j])
  }

  /** Pair order of the nested loops: outer index, then inner index. */
  predicate Before(a: Link, b: Link)
  {
    a.i < b.i || (a.i == b.i && a.j < b.j)
  }

  predicate Ordered(ls: seq<Link>)
  {
    forall a, b :: 0 <= a < b < |ls| ==> Before(ls[a], ls[b])
  }

  lemma OrderedConcat(xs: seq<Link>, ys: seq<Link>)
    requires Ordered(xs) && Ordered(ys)
    requires forall x, y :: x in xs && y in ys ==> Before(x, y)
    ensures Ordered(xs + ys)
  {
  }

  lemma {:induction false} RowLinksFacts(ps: seq<Particle>, i: nat, m: nat)
    requires i < |ps| && m <= |ps|
    ensures Ordered(RowLinks(ps, i, m))
    ensures forall l :: l in RowLinks(ps, i, m) <==> IsLinkOf(ps, l) && l.i == i && l.j < m
    decreases m
  {
    if m > i + 1 {
      RowLinksFacts(ps, i, m - 1);
      var tail := if Near(ps[i], ps[m - 1]) then [Link(i, m - 1, Dist2(ps[i], ps[m - 1]))] else [];
      assert RowLinks(ps, i, m) == RowLinks(ps, i, m - 1) + tail;
      OrderedConcat(RowLinks(ps, i, m - 1), tail);
      forall l
        ensures l in RowLinks(ps, i, m) <==> IsLinkOf(ps, l) && l.i == i && l.j < m
      {
        if IsLinkOf(ps, l) && l.i == i && l.j == m - 1 {
          assert l == Link(i, m - 1, Dist2(ps[i], ps[m - 1]));
        }
      }
    }
  }

  lemma {:induction false} LinkPassFacts(ps: seq<Particle>, n: nat)
    requires n <= |ps|
    ensures Ordered(LinkPass(ps, n))
    ensures forall l :: l in LinkPass(ps, n) <==> IsLinkOf(ps, l) && l.i < n
  {
    if n > 0 {
      var front, row := LinkPass(ps, n - 1), RowLinks(ps, n - 1, |ps|);
      LinkPassFacts(ps, n - 1);
      RowLinksFacts(ps, n - 1, |ps|);
      assert LinkPass(ps, n) == front + row;
      forall x, y | x in front && y in row
        ensures Before(x, y)
      {
        assert x.i < n - 1 && y.i == n - 1;
      }
      OrderedConcat(front, row);
      forall l
        ensures l in front + row <==> IsLinkOf(ps, l) && l.i < n
      {
        assert l in front + row <==> l in front || l in row;
      }
    }
  }

  /** The link pass visits each unordered pair exactly once: a near pair
      `i < j` yields exactly one line with its squared distance, a far pair
      none, and no pair appears twice. */
  lemma LinksVisitPairsOnce(ps: seq<Particle>)
    ensures forall i, j :: 0 <= i < j < |ps| ==>
      (Near(ps[i], ps[j]) <==> Link(i, j, Dist2(ps[i], ps[j])) in Links(ps))
    ensures forall l :: l in Links(ps) ==> IsLinkOf(ps, l)
    ensures forall a, b :: 0 <= a < b < |Links(ps)| ==>
      Links(ps)[a].i != Links(ps)[b].i || Links(ps)[a].j != Links(ps)[b].j
  {
  }

  /** Every line the pass strokes has an alpha in (0, LinkAlphaMax], whatever
      distance `d` the square root yields for its squared distance. */
  lemma LinkAlphaInRange(ps: seq<Particle>, l: Link, d: real)
    requires l in Links(ps) && IsDistance(d, l.dist2)
    ensures d < LinkDistance
    ensures 0.0 < LinkAlpha(d) <= LinkAlphaMax
  {
  }

  /** Two particles 50 pixels apart are linked with alpha 0.08 * (1 - 50/120). */
  lemma LinkAtFifty(c: string)
    ensures var ps := [Particle(0.0, 0.0, 0.0, 0.0, 1.0, 0.5, c), Particle(50.0, 0.0, 0.0, 0.0, 1.0, 0.5, c)];
      Links(ps) == [Link(0, 1, 2500.0)] && IsDistance(50.0, 2500.0) && LinkAlpha(50.0) == 7.0 / 150.0
  {
    var ps := [Particle(0.0, 0.0, 0.0, 0.0, 1.0, 0.5, c), Particle(50.0, 0.0, 0.0, 0.0, 1.0, 0.5, c)];
    assert RowLinks(ps, 0, 2) == [Link(0, 1, 2500.0)];
    assert RowLinks(ps, 1, 2) == [];
    assert LinkPass(ps, 1) == [Link(0, 1, 2500.0)];
  }

  /** The nested loops of the link pass over the particle array. */
  method StrokeLinks(particles: array<Particle>) returns (links: seq<Link>)
    ensures links == Links(particles[..])
  {
    ghost var ps := particles[..];
    var n := particles.Length;
    links := [];
    var i := 0;
    while i < n
      invariant 0 <= i <= n
      invariant links == LinkPass(ps, i)
    {
      var j := i + 1;
      while j < n
        invariant i + 1 <= j <= n
        invariant links == LinkPass(ps, i) + RowLinks(ps, i, j)
      {
        var dx := particles[i].x - particles[j].x;
        var dy := particles[i].y - particles[j].y;
        var dist2 := dx * dx + dy * dy;
        assert dist2 == Dist2(ps[i], ps[j]);
        assert RowLinks(ps, i, j + 1) ==
          RowLinks(ps, i, j) + (if Near(ps[i], ps[j]) then [Link(i, j, Dist2(ps[i], ps[j]))] else []);
        if dist2 < LinkDistance2 {
          links := links + [Link(i, j, dist2)];
        }
        j := j + 1;
      }
      i := i + 1;
    }
  }

  // ---------------------------------------------------------------------
  // Disc pass and move

  /** One axis of the move: advance by the velocity, then negate the velocity
      if the new position is below 0 or above `size`. The position is kept. */
  function Bounce(a: AxisState, size: real): (b: AxisState)
    ensures b.pos == a.pos + a.vel
    ensures Outside(b.pos, size) ==> b.vel == -a.vel
    ensures !Outside(b.pos, size) ==> b.vel == a.vel
    ensures Abs(b.vel) == Abs(a.vel)
  {
    var pos := a.pos + a.vel;
    AxisState(pos, if pos < 0.0 || pos > size then -a.vel else a.vel)
  }

  predicate Outside(v: real, size: real) { v < 0.0 || v > size }

  /** One frame's move of a particle in a `w` by `h` canvas. */
  function Moved(p: Particle, w: real, h: real): (q: Particle)
    ensures q.x == p.x + p.vx && q.y == p.y + p.vy
    ensures (Outside(q.x, w) ==> q.vx == -p.vx) && (!Outside(q.x, w) ==> q.vx == p.vx)
    ensures (Outside(q.y, h) ==> q.vy == -p.vy) && (!Outside(q.y, h) ==> q.vy == p.vy)
    ensures Abs(q.vx) == Abs(p.vx) && Abs(q.vy) == Abs(p.vy)
    ensures q.r == p.r && q.alpha == p.alpha && q.color == p.color
  {
    var ax := Bounce(AxisState(p.x, p.vx), w);
    var ay := Bounce(AxisState(p.y, p.vy), h);
    p.(x := ax.pos, vx := ax.vel, y := ay.pos, vy := ay.vel)
  }

  /** A particle's move is the one-axis move on each axis, with the width
      for x and the height for y. */
  lemma MovedIsBounce(p: Particle, w: real, h: real)
    ensures AxisState(Moved(p, w, h).x, Moved(p, w, h).vx) == Bounce(AxisState(p.x, p.vx), w)
    ensures AxisState(Moved(p, w, h).y, Moved(p, w, h).vy) == Bounce(AxisState(p.y, p.vy), h)
  {
  }

  function MoveAll(ps: seq<Particle>, w: real, h: real): (qs: seq<Particle>)
    ensures |qs| == |ps|
    ensures forall k :: 0 <= k < |ps| ==> qs[k] == Moved(ps[k], w, h)
  {
    seq(|ps|, k requires 0 <= k < |ps| => Moved(ps[k], w, h))
  }

  function DiscOf(k: nat, p: Particle): Disc
  {
    Disc(k, p.x, p.y, p.r, p.alpha, p.color)
  }

  /** The discs one frame fills: one per particle, in array order. */
  function Discs(ps: seq<Particle>): (ds: seq<Disc>)
    ensures |ds| == |ps|
    ensures forall k :: 0 <= k < |ps| ==>
      ds[k].index == k && ds[k].x == ps[k].x && ds[k].y == ps[k].y &&
      ds[k].r == ps[k].r && ds[k].alpha == ps[k].alpha && ds[k].color == ps[k].color
  {
    seq(|ps|, k requires 0 <= k < |ps| => DiscOf(k, ps[k]))
  }

  /** What a frame does to each particle: it moves by exactly its velocity;
      a velocity component is negated iff the new coordinate on that axis is
      out of bounds; speeds, radius, alpha, colour and the count are kept. */
  lemma FrameMovesEachParticle(ps: seq<Particle>, w: real, h: real)
    ensures |MoveAll(ps, w, h)| == |ps|
    ensures forall k :: 0 <= k < |ps| ==>
      var p, q := ps[k], MoveAll(ps, w, h)[k];
      q.x == p.x + p.vx && q.y == p.y + p.vy &&
      (Outside(q.x, w) ==> q.vx == -p.vx) && (!Outside(q.x, w) ==> q.vx == p.vx) &&
      (Outside(q.y, h) ==> q.vy == -p.vy) && (!Outside(q.y, h) ==> q.vy == p.vy) &&
      Abs(q.vx) == Abs(p.vx) && Abs(q.vy) == Abs(p.vy) &&
      q.r == p.r && q.alpha == p.alpha && q.color == p.color
  {
  }

  /** The disc-then-move loop: each disc is filled before its particle moves. */
  method FillAndMove(particles: array<Particle>, w: real, h: real) returns (discs: seq<Disc>)
    modifies particles
    ensures discs == Discs(old(particles[..]))
    ensures particles[..] == MoveAll(old(particles[..]), w, h)
  {
    ghost var ps := particles[..];
    discs := [];
    var k := 0;
    while k < particles.Length
      invariant 0 <= k <= particles.Length
      invariant |discs| == k
      invariant forall q :: 0 <= q < k ==> discs[q] == DiscOf(q, ps[q])
      invariant forall q :: 0 <= q < k ==> particles[q] == Moved(ps[q], w, h)
      invariant forall q :: k <= q < particles.Length ==> particles[q] == ps[q]
    {
      var p := particles[k];
      discs := discs + [Disc(k, p.x, p.y, p.r, p.alpha, p.color)];
      var x := p.x + p.vx;
      var y := p.y + p.vy;
      var vx := if x < 0.0 || x > w then -p.vx else p.vx;
      var vy := if y < 0.0 || y > h then -p.vy else p.vy;
      particles[k] := p.(x := x, y := y, vx := vx, vy := vy);
      k := k + 1;
    }
  }

  // ---------------------------------------------------------------------
  // Bounds over many frames

  /** `n` consecutive frames along one axis in a canvas of fixed size. */
  function BounceN(a: AxisState, size: real, n: nat): AxisState
    decreases n
  {
    if n == 0 then a else BounceN(Bounce(a, size), size, n - 1)
  }

  /** Inside the bounds, or one frame away from being back inside them. */
  predicate Recovering(a: AxisState, size: real)
  {
    (0.0 <= a.pos <= size) || (0.0 <= a.pos + a.vel <= size)
  }

  lemma {:induction false} RecoveringForever(a: AxisState, size: real, n: nat)
    requires Recovering(a, size)
    ensures Recovering(BounceN(a, size, n), size)
    ensures Abs(BounceN(a, size, n).vel) == Abs(a.vel)
    decreases n
  {
    if n > 0 {
      RecoveringForever(Bounce(a, size), size, n - 1);
    }
  }

  /** Positions are not clamped, but while the canvas keeps its size a
      coordinate that starts inside [0, size] never strays further than one
      frame's travel outside it. */
  lemma {:induction false} OvershootBound(a: AxisState, size: real, n: nat)
    requires 0.0 <= a.pos <= size
    ensures -Abs(a.vel) <= BounceN(a, size, n).pos <= size + Abs(a.vel)
  {
    RecoveringForever(a, size, n);
  }

  /** A coordinate that is out of bounds and still out of bounds after its
      next move (for instance after the canvas shrank) flips its velocity every
      frame and never comes back. */
  lemma {:induction false} StuckOutside(a: AxisState, size: real, n: nat)
    requires Outside(a.pos, size) && Outside(a.pos + a.vel, size)
    ensures Outside(BounceN(a, size, n).pos, size)
    decreases n
  {
    if n > 0 {
      var b := Bounce(a, size);
      assert b.pos + b.vel == a.pos;
      StuckOutside(b, size, n - 1);
    }
  }

  /** Containment in [0, size] does not hold: one frame can overshoot. */
  lemma OvershootExample()
    ensures Bounce(AxisState(199.9, 0.2), 200.0) == AxisState(200.1, -0.2)
    ensures Outside(Bounce(AxisState(199.9, 0.2), 200.0).pos, 200.0)
  {
  }

  /** A coordinate just past the edge and moving inward comes back inside,
      with its velocity kept. */
  lemma ReturnsInward()
    ensures Bounce(AxisState(200.1, -0.2), 200.0) == AxisState(199.9, -0.2)
    ensures !Outside(Bounce(AxisState(200.1, -0.2), 200.0).pos, 200.0)
  {
  }

  /** A move that ends inside the bounds keeps the velocity: 199 + 0.3 is
      still within a 200-wide canvas. */
  lemma NoFlipInside()
    ensures Bounce(AxisState(199.0, 0.3), 200.0) == AxisState(199.3, 0.3)
  {
  }
}

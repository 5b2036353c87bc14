/** Matching a rotated or mirrored image: the eight orientations of a candidate, and the nearest of
    their perceptual hashes. */
module Orientation {
  import opened Options
  import opened ImageBits

  datatype Image = Image(width: nat, height: nat, rows: seq<seq<int>>)

  ghost predicate Valid(m: Image)
  {
    |m.rows| == m.height && forall y :: 0 <= y < m.height ==> |m.rows[y]| == m.width
  }

  /** Exchange left and right. */
  function Mirror(m: Image): Image
    requires Valid(m)
  {
    Image(m.width, m.height,
          seq(m.height, y requires 0 <= y < m.height =>
            seq(m.width, x requires 0 <= x < m.width => m.rows[y][m.width - 1 - x])))
  }

  /** A quarter turn counter-clockwise, the canvas turning with it. */
  function QuarterTurn(m: Image): Image
    requires Valid(m)
  {
    Image(m.height, m.width,
          seq(m.width, y requires 0 <= y < m.width =>
            seq(m.height, x requires 0 <= x < m.height => m.rows[x][m.width - 1 - y])))
  }

  lemma StaysValid(m: Image)
    requires Valid(m)
    ensures Valid(Mirror(m)) && Valid(QuarterTurn(m))
  {
  }

  /** Where each pixel goes: a quarter turn takes the top right corner to the top left, mirroring exchanges
      left and right in every row. */
  lemma EveryPixelMoves(m: Image, y: nat, x: nat)
    requires Valid(m) && y < m.height && x < m.width
    ensures Valid(QuarterTurn(m)) && QuarterTurn(m).width == m.height && QuarterTurn(m).height == m.width
    ensures QuarterTurn(m).rows[m.width - 1 - x][y] == m.rows[y][x]
    ensures Valid(Mirror(m)) && Mirror(m).width == m.width && Mirror(m).height == m.height
    ensures Mirror(m).rows[y][m.width - 1 - x] == m.rows[y][x]
  {
  }

  function Turn(m: Image, turns: nat): (r: Image)
    requires Valid(m)
    ensures Valid(r)
  {
    if turns == 0 then m else QuarterTurn(Turn(m, turns - 1))
  }

  // ---------- The symmetries of the rectangle ----------

  ghost predicate SamePixels(a: Image, b: Image)
    requires Valid(a) && Valid(b)
  {
    && a.width == b.width && a.height == b.height
    && forall y, x :: 0 <= y < a.height && 0 <= x < a.width ==> a.rows[y][x] == b.rows[y][x]
  }

  lemma SamePixelsAreEqual(a: Image, b: Image)
    requires Valid(a) && Valid(b) && SamePixels(a, b)
    ensures a == b
  {
    forall y | 0 <= y < a.height
      ensures a.rows[y] == b.rows[y]
    {
    }
  }

  lemma MirrorTwice(m: Image)
    requires Valid(m)
    ensures Mirror(Mirror(m)) == m
  {
    SamePixelsAreEqual(Mirror(Mirror(m)), m);
  }

  lemma HalfTurn(m: Image)
    requires Valid(m)
    ensures var h := QuarterTurn(QuarterTurn(m));
            && Valid(h) && h.width == m.width && h.height == m.height
            && forall y, x :: 0 <= y < m.height && 0 <= x < m.width ==>
                 h.rows[y][x] == m.rows[m.height - 1 - y][m.width - 1 - x]
  {
  }

  lemma FourTurns(m: Image)
    requires Valid(m)
    ensures Turn(m, 4) == m
  {
    HalfTurn(m);
    HalfTurn(QuarterTurn(QuarterTurn(m)));
    assert Turn(m, 4) == QuarterTurn(Turn(m, 3)) && Turn(m, 3) == QuarterTurn(Turn(m, 2));
    assert Turn(m, 2) == QuarterTurn(Turn(m, 1)) && Turn(m, 1) == QuarterTurn(m);
    SamePixelsAreEqual(QuarterTurn(QuarterTurn(QuarterTurn(QuarterTurn(m)))), m);
  }

  lemma {:induction false} TurnAdds(m: Image, a: nat, b: nat)
    requires Valid(m)
    ensures Turn(Turn(m, a), b) == Turn(m, a + b)
    decreases b
  {
    if b > 0 {
      TurnAdds(m, a, b - 1);
    }
  }

  lemma {:induction false} TurnModFour(m: Image, t: nat)
    requires Valid(m)
    ensures Turn(m, t) == Turn(m, t % 4)
  {
    if t >= 4 {
      TurnAdds(m, 4, t - 4);
      FourTurns(m);
      hide Turn;
      TurnModFour(m, t - 4);
    }
  }

  /** n modulo four, for n < 8. */
  function Wrap(n: nat): (r: nat)
    requires n < 8
    ensures r < 4
  {
    if n >= 4 then n - 4 else n
  }

  lemma TurnWraps(m: Image, t: nat)
    requires Valid(m) && t < 8
    ensures Turn(m, t) == Turn(m, Wrap(t))
  {
    hide Turn;
    TurnModFour(m, t);
    if t >= 4 {
      TurnModFour(m, t - 4);
    }
  }

  /** Mirroring reverses the sense of a turn. */
  lemma MirrorReversesATurn(m: Image)
    requires Valid(m)
    ensures QuarterTurn(Mirror(QuarterTurn(m))) == Mirror(m)
  {
    StaysValid(m);
    StaysValid(QuarterTurn(m));
    SamePixelsAreEqual(QuarterTurn(Mirror(QuarterTurn(m))), Mirror(m));
  }

  lemma {:induction false} MirrorReversesTurns(m: Image, t: nat)
    requires Valid(m) && t <= 4
    ensures Mirror(Turn(m, t)) == Turn(Mirror(m), 4 - t)
    decreases t
  {
    hide Mirror, QuarterTurn;
    if t == 0 {
      FourTurns(Mirror(m)) by { StaysValid(m); }
    } else {
      var before := Turn(m, t - 1);
      StaysValid(m);
      StaysValid(before);
      StaysValid(QuarterTurn(before));
      MirrorReversesTurns(m, t - 1);
      MirrorReversesATurn(before);
      var mirrored := Mirror(Turn(m, t));
      assert QuarterTurn(mirrored) == Turn(Mirror(m), 5 - t);
      assert QuarterTurn(mirrored) == QuarterTurn(Turn(Mirror(m), 4 - t));
      TurnBack(mirrored, Turn(Mirror(m), 4 - t));
    }
  }

  lemma TurnBack(a: Image, b: Image)
    requires Valid(a) && Valid(b) && QuarterTurn(a) == QuarterTurn(b)
    ensures a == b
  {
    FourTurns(a);
    FourTurns(b);
    TurnAdds(a, 1, 3);
    TurnAdds(b, 1, 3);
    assert Turn(a, 1) == QuarterTurn(a) && Turn(b, 1) == QuarterTurn(b);
  }

  // ---------- The orientations of a candidate ----------

  /** The variant at an index: the first four unmirrored, then four mirrored, each by quarter turns. */
  function Variant(m: Image, i: nat): (r: Image)
    requires Valid(m) && i < 8
    ensures Valid(r)
  {
    StaysValid(m);
    Turn(if i < 4 then m else Mirror(m), Wrap(i))
  }

  ghost predicate HashesImages(phash: Image --> nat)
  {
    forall m: Image :: Valid(m) ==> phash.requires(m)
  }

  /** The hash of every orientation, for any hash of a pixel matrix. */
  method OrientationPhashes(base: Image, phash: Image --> nat) returns (hashes: seq<nat>)
    requires Valid(base) && HashesImages(phash)
    ensures hashes == Hashes(base, phash)
  {
    hashes := [];
    StaysValid(base);
    for flip := 0 to 2
      invariant |hashes| == 4 * flip && forall i :: 0 <= i < |hashes| ==> hashes[i] == phash(Variant(base, i))
    {
      var variant := if flip == 1 then Mirror(base) else base;
      for turns := 0 to 4
        invariant |hashes| == 4 * flip + turns
        invariant forall i :: 0 <= i < |hashes| ==> hashes[i] == phash(Variant(base, i))
      {
        assert Variant(base, 4 * flip + turns) == Turn(variant, turns);
        hashes := hashes + [phash(Turn(variant, turns))];
      }
    }
    assert hashes == Hashes(base, phash);
  }

  /** The least distance to the original, and the least index that reaches it. */
  method NearestOrientation(hashes: seq<nat>, original: nat) returns (distance: nat, index: nat)
    requires hashes != []
    ensures index < |hashes| && distance == Hamming(hashes[index], original)
    ensures forall i :: 0 <= i < |hashes| ==> distance <= Hamming(hashes[i], original)
    ensures forall i :: 0 <= i < index ==> distance < Hamming(hashes[i], original)
    ensures distance == MinDistance(hashes, original) && index == FirstNearest(hashes, original)
  {
    distance, index := Hamming(hashes[0], original), 0;
    assert hashes[..1][..0] == [];
    for i := 1 to |hashes|
      invariant index < i && distance == Hamming(hashes[index], original)
      invariant forall j :: 0 <= j < i ==> distance <= Hamming(hashes[j], original)
      invariant forall j :: 0 <= j < index ==> distance < Hamming(hashes[j], original)
      invariant distance == MinDistance(hashes[..i], original) && index == FirstNearest(hashes[..i], original)
    {
      assert hashes[..i + 1][..i] == hashes[..i];
      var d := Hamming(hashes[i], original);
      if d < distance {
        distance, index := d, i;
      }
    }
    assert hashes[..|hashes|] == hashes;
  }

  function MinDistance(hashes: seq<nat>, original: nat): nat
    requires hashes != []
  {
    var last := Hamming(hashes[|hashes| - 1], original);
    if |hashes| == 1 then last
    else
      var before := MinDistance(hashes[..|hashes| - 1], original);
      if last < before then last else before
  }

  function FirstNearest(hashes: seq<nat>, original: nat): (k: nat)
    requires hashes != []
    ensures k < |hashes|
  {
    var n := |hashes| - 1;
    if n == 0 || Hamming(hashes[n], original) < MinDistance(hashes[..n], original) then n
    else FirstNearest(hashes[..n], original)
  }

  lemma {:induction false} FirstNearestIsFirst(hashes: seq<nat>, original: nat)
    requires hashes != []
    ensures var k := FirstNearest(hashes, original);
            && Hamming(hashes[k], original) == MinDistance(hashes, original)
            && forall i :: 0 <= i < k ==> Hamming(hashes[i], original) > MinDistance(hashes, original)
  {
    var n := |hashes| - 1;
    if n > 0 {
      FirstNearestIsFirst(hashes[..n], original);
      var j := MinDistanceIsReached(hashes[..n], original);
    }
  }

  lemma {:induction false} MinDistanceIsReached(hashes: seq<nat>, original: nat) returns (k: nat)
    requires hashes != []
    ensures k < |hashes| && MinDistance(hashes, original) == Hamming(hashes[k], original)
    ensures forall i :: 0 <= i < |hashes| ==> MinDistance(hashes, original) <= Hamming(hashes[i], original)
  {
    k := |hashes| - 1;
    if |hashes| > 1 {
      var j := MinDistanceIsReached(hashes[..k], original);
      if Hamming(hashes[k], original) >= MinDistance(hashes[..k], original) {
        k := j;
      }
    }
  }

  /** Any composition of quarter turns and a mirroring. */
  datatype Symmetry = Symmetry(mirrored: bool, turns: nat)

  function Moved(m: Image, g: Symmetry): (r: Image)
    requires Valid(m)
    ensures Valid(r)
  {
    StaysValid(m);
    Turn(if g.mirrored then Mirror(m) else m, g.turns)
  }

  /** Where the variants of a moved image sit among those of the original, for k turns modulo four. */
  function Relabel(mirrored: bool, k: nat, i: nat): (j: nat)
    requires k < 4 && i < 8
    ensures j < 8
  {
    if i < 4 then (if mirrored then 4 else 0) + Wrap(k + i)
    else (if mirrored then 0 else 4) + Wrap(4 - k + Wrap(i))
  }

  lemma VariantsAreClosed(m: Image, g: Symmetry, i: nat)
    requires Valid(m) && i < 8
    ensures Variant(Moved(m, g), i) == Variant(m, Relabel(g.mirrored, g.turns % 4, i))
  {
    hide Mirror, QuarterTurn, Turn;
    StaysValid(m);
    var k := g.turns % 4;
    var start := if g.mirrored then Mirror(m) else m;
    TurnModFour(start, g.turns);
    if i < 4 {
      TurnAdds(start, k, i);
      TurnWraps(start, k + i);
    } else {
      StaysValid(start);
      MirrorReversesTurns(start, k);
      TurnAdds(Mirror(start), 4 - k, Wrap(i));
      TurnWraps(Mirror(start), 4 - k + Wrap(i));
      MirrorTwice(m);
    }
  }

  lemma RelabelReachesEverything(mirrored: bool, k: nat, j: nat) returns (i: nat)
    requires k < 4 && j < 8
    ensures i < 8 && Relabel(mirrored, k, i) == j
  {
    i := if (j >= 4) == mirrored then Wrap(Wrap(j) + 4 - k) else 4 + Wrap(Wrap(j) + k);
  }

  ghost function Hashes(m: Image, phash: Image --> nat): (hashes: seq<nat>)
    requires Valid(m) && HashesImages(phash)
    ensures |hashes| == 8
  {
    seq<nat>(8, i requires 0 <= i < 8 => phash(Variant(m, i)))
  }

  /** Rotating the candidate by any number of quarter turns, mirroring it, or both, leaves the least
      distance unchanged, whatever the hash is and whatever it is compared with. */
  lemma DistanceIgnoresOrientation(m: Image, g: Symmetry, phash: Image --> nat, original: nat)
    requires Valid(m) && HashesImages(phash)
    ensures MinDistance(Hashes(Moved(m, g), phash), original) == MinDistance(Hashes(m, phash), original)
  {
    hide Variant, Moved, Relabel;
    var moved, still := Hashes(Moved(m, g), phash), Hashes(m, phash);
    var k := MinDistanceIsReached(moved, original);
    VariantsAreClosed(m, g, k);
    assert moved[k] == still[Relabel(g.mirrored, g.turns % 4, k)];
    var j := MinDistanceIsReached(still, original);
    var i := RelabelReachesEverything(g.mirrored, g.turns % 4, j);
    VariantsAreClosed(m, g, i);
    assert moved[i] == still[j];
  }
}

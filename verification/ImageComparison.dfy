/** Comparing two image files: their digests, the nearest orientation, and the tiles they share. */
module ImageComparison {
  import opened Options
  import opened ImageBits
  import opened Orientation

  // ---------- Two fingerprints ----------

  datatype Verdict = ExactFile | SamePixels | VisuallySimilar | PossiblePartial | Different

  const T_IDENTICAL_VISUAL := 2
  const T_DERIVED_VISUAL := 10
  const T_TILE := 8
  const MIN_TILE_HITS := 2

  /** A stored fingerprint; its hashes read back from their hexadecimal form. */
  datatype Fingerprint = Fingerprint(fileSha256: string, canonicalSha256: string, phash: nat, dhash: nat, whash: nat,
                                     tiles: seq<nat>)

  datatype Match = Match(verdict: Verdict, fileMatch: bool, canonicalMatch: bool, phashDistance: nat,
                         dhashDistance: nat, whashDistance: nat, tileHits: nat, orientation: nat)

  predicate IsMatch(m: Match) { m.verdict != Different }

  /** The original's tiles that some tile of the candidate comes close to. */
  function TileHits(candidate: seq<nat>, original: seq<nat>): nat
  {
    |set i | 0 <= i < |original|
             && (exists k :: 0 <= k < |candidate| && Hamming(candidate[k], original[i]) <= T_TILE)|
  }

  function VerdictOf(distance: nat, orientation: nat, tileHits: nat): Verdict
  {
    if distance <= T_IDENTICAL_VISUAL then if orientation == 0 then Verdict.SamePixels else VisuallySimilar
    else if distance <= T_DERIVED_VISUAL then VisuallySimilar
    else if tileHits >= MIN_TILE_HITS then PossiblePartial
    else Different
  }

  /** The hashes the original's is held against: of every orientation when the candidate's pixels are at
      hand, else the one stored for it. */
  ghost function CandidateHashes(candidate: Fingerprint, image: Option<Image>, phash: Image --> nat): (hashes: seq<nat>)
    requires HashesImages(phash) && (image.Some? ==> Valid(image.value))
    ensures hashes != []
  {
    if image.Some? then Hashes(image.value, phash) else [candidate.phash]
  }

  ghost function Comparison(original: Fingerprint, candidate: Fingerprint, image: Option<Image>, phash: Image --> nat)
    : Match
    requires HashesImages(phash) && (image.Some? ==> Valid(image.value))
  {
    var fileMatch := candidate.fileSha256 == original.fileSha256;
    var canonicalMatch := candidate.canonicalSha256 == original.canonicalSha256;
    if fileMatch then Match(ExactFile, fileMatch, canonicalMatch, 0, 0, 0, 0, 0)
    else if canonicalMatch then Match(Verdict.SamePixels, fileMatch, canonicalMatch, 0, 0, 0, 0, 0)
    else
      var hashes := CandidateHashes(candidate, image, phash);
      var distance, index := MinDistance(hashes, original.phash), FirstNearest(hashes, original.phash);
      var hits := TileHits(candidate.tiles, original.tiles);
      Match(VerdictOf(distance, index, hits), fileMatch, canonicalMatch, distance,
            Hamming(candidate.dhash, original.dhash), Hamming(candidate.whash, original.whash), hits, index)
  }

  method Compare(original: Fingerprint, candidate: Fingerprint, image: Option<Image>, phash: Image --> nat)
    returns (m: Match)
    requires HashesImages(phash) && (image.Some? ==> Valid(image.value))
    ensures m == Comparison(original, candidate, image, phash)
  {
    var fileMatch := candidate.fileSha256 == original.fileSha256;
    var canonicalMatch := candidate.canonicalSha256 == original.canonicalSha256;
    if fileMatch {
      return Match(ExactFile, fileMatch, canonicalMatch, 0, 0, 0, 0, 0);
    }
    if canonicalMatch {
      return Match(Verdict.SamePixels, fileMatch, canonicalMatch, 0, 0, 0, 0, 0);
    }
    var hashes := [candidate.phash];
    if image.Some? {
      hashes := OrientationPhashes(image.value, phash);
    }
    var distance, index := NearestOrientation(hashes, original.phash);
    var hits := TileHits(candidate.tiles, original.tiles);
    m := Match(VerdictOf(distance, index, hits), fileMatch, canonicalMatch, distance,
               Hamming(candidate.dhash, original.dhash), Hamming(candidate.whash, original.whash), hits, index);
  }

  // ---------- Two files ----------

  /** An image file: its bytes, and the pixels they decode to. */
  datatype File = File(bytes: seq<int>, image: Image)

  /** The functions a fingerprint is made with, for any digest and any hash of pixels. */
  datatype Hashers = Hashers(
    sha256: seq<int> -> string, canonicalSha256: Image -> string, phash: Image -> nat, dhash: Image -> nat,
    whash: Image -> nat)

  const GRID := 3

  function Crop(m: Image, left: nat, top: nat, right: nat, bottom: nat): (r: Image)
    requires Valid(m) && left <= right <= m.width && top <= bottom <= m.height
    ensures Valid(r)
  {
    Image(right - left, bottom - top,
          seq(bottom - top, y requires 0 <= y < bottom - top => m.rows[top + y][left..right]))
  }

  /** Where a tile begins and ends along a side of the image: a third of it, widened by a quarter tile. */
  function TileStart(side: nat, k: nat): nat { if k == 0 then 0 else (4 * k - 1) * side / 12 }

  function TileEnd(side: nat, k: nat): nat
  {
    if (4 * k + 5) * side / 12 <= side then (4 * k + 5) * side / 12 else side
  }

  lemma TileFits(side: nat, k: nat)
    requires k < GRID
    ensures TileStart(side, k) <= TileEnd(side, k) <= side
  {
    assert k == 0 || k == 1 || k == 2;
  }

  function Tile(m: Image, row: nat, col: nat): (r: Image)
    requires Valid(m) && row < GRID && col < GRID
    ensures Valid(r)
  {
    TileFits(m.width, col);
    TileFits(m.height, row);
    Crop(m, TileStart(m.width, col), TileStart(m.height, row), TileEnd(m.width, col), TileEnd(m.height, row))
  }

  function Tiles(m: Image, phash: Image -> nat): (hashes: seq<nat>)
    requires Valid(m)
    ensures |hashes| == 9
  {
    seq<nat>(9, i requires 0 <= i < 9 => phash(Tile(m, i / GRID, i % GRID)))
  }

  method TilePhash(m: Image, phash: Image -> nat) returns (hashes: seq<nat>)
    requires Valid(m)
    ensures hashes == Tiles(m, phash)
  {
    hashes := [];
    for row := 0 to GRID
      invariant |hashes| == GRID * row
      invariant forall i :: 0 <= i < |hashes| ==> hashes[i] == phash(Tile(m, i / GRID, i % GRID))
    {
      for col := 0 to GRID
        invariant |hashes| == GRID * row + col
        invariant forall i :: 0 <= i < |hashes| ==> hashes[i] == phash(Tile(m, i / GRID, i % GRID))
      {
        hashes := hashes + [phash(Tile(m, row, col))];
      }
    }
    assert hashes == Tiles(m, phash);
  }

  function FingerprintOf(h: Hashers, f: File): Fingerprint
    requires Valid(f.image)
  {
    Fingerprint(h.sha256(f.bytes), h.canonicalSha256(f.image), h.phash(f.image), h.dhash(f.image), h.whash(f.image),
                Tiles(f.image, h.phash))
  }

  ghost function FileComparison(h: Hashers, original: File, candidate: File): Match
    requires Valid(original.image) && Valid(candidate.image)
  {
    Comparison(FingerprintOf(h, original), FingerprintOf(h, candidate), Some(candidate.image), h.phash)
  }

  method CompareImages(h: Hashers, original: File, candidate: File) returns (m: Match)
    requires Valid(original.image) && Valid(candidate.image)
    ensures m == FileComparison(h, original, candidate)
  {
    var tiles := TilePhash(original.image, h.phash);
    var stored := Fingerprint(h.sha256(original.bytes), h.canonicalSha256(original.image), h.phash(original.image),
                              h.dhash(original.image), h.whash(original.image), tiles);
    tiles := TilePhash(candidate.image, h.phash);
    var probe := Fingerprint(h.sha256(candidate.bytes), h.canonicalSha256(candidate.image), h.phash(candidate.image),
                             h.dhash(candidate.image), h.whash(candidate.image), tiles);
    m := Compare(stored, probe, Some(candidate.image), h.phash);
  }

  // ---------- Turning the candidate ----------

  predicate SameDigest(h: Hashers, original: File, candidate: File)
  {
    h.sha256(candidate.bytes) == h.sha256(original.bytes)
    || h.canonicalSha256(candidate.image) == h.canonicalSha256(original.image)
  }

  function Hits(h: Hashers, original: File, candidate: File): nat
    requires Valid(original.image) && Valid(candidate.image)
  {
    TileHits(Tiles(candidate.image, h.phash), Tiles(original.image, h.phash))
  }

  /** Found without looking at the whole picture: by a digest, or by shared tiles. */
  predicate FoundByParts(h: Hashers, original: File, candidate: File)
    requires Valid(original.image) && Valid(candidate.image)
  {
    SameDigest(h, original, candidate) || Hits(h, original, candidate) >= MIN_TILE_HITS
  }

  /** The least distance of the candidate's orientations to the original. */
  ghost function WholeDistance(h: Hashers, original: File, candidate: File): nat
    requires Valid(candidate.image)
  {
    MinDistance(Hashes(candidate.image, h.phash), h.phash(original.image))
  }

  lemma MatchesExactlyWhen(h: Hashers, original: File, candidate: File)
    requires Valid(original.image) && Valid(candidate.image)
    ensures var m := FileComparison(h, original, candidate);
            && (IsMatch(m) <==> FoundByParts(h, original, candidate)
                                || WholeDistance(h, original, candidate) <= T_DERIVED_VISUAL)
            && (!SameDigest(h, original, candidate) ==> m.phashDistance == WholeDistance(h, original, candidate))
            && (!SameDigest(h, original, candidate) && m.phashDistance <= T_DERIVED_VISUAL ==>
                  m.verdict in {Verdict.SamePixels, VisuallySimilar})
  {
    hide MinDistance, FirstNearest, Hashes, TileHits, Tiles, Hamming;
  }

  /** Every field of a comparison: which digests agree; under equal digests nothing is measured; otherwise
      the verdict follows from the least distance, the first orientation that reaches it and the tiles
      shared, all of which are reported as measured. */
  lemma ComparisonReports(h: Hashers, original: File, candidate: File)
    requires Valid(original.image) && Valid(candidate.image)
    ensures var m := FileComparison(h, original, candidate);
            && m.fileMatch == (h.sha256(candidate.bytes) == h.sha256(original.bytes))
            && m.canonicalMatch == (h.canonicalSha256(candidate.image) == h.canonicalSha256(original.image))
            && (m.fileMatch ==> m.verdict == ExactFile)
            && (!m.fileMatch && m.canonicalMatch ==> m.verdict == Verdict.SamePixels)
            && (m.fileMatch || m.canonicalMatch ==>
                  m.phashDistance == m.dhashDistance == m.whashDistance == m.tileHits == m.orientation == 0)
            && (!m.fileMatch && !m.canonicalMatch ==>
                  && m.dhashDistance == Hamming(h.dhash(candidate.image), h.dhash(original.image))
                  && m.whashDistance == Hamming(h.whash(candidate.image), h.whash(original.image))
                  && m.tileHits == Hits(h, original, candidate)
                  && m.phashDistance == WholeDistance(h, original, candidate)
                  && m.orientation < 8
                  && Hamming(h.phash(Variant(candidate.image, m.orientation)), h.phash(original.image)) == m.phashDistance
                  && (forall i :: 0 <= i < m.orientation ==>
                        Hamming(h.phash(Variant(candidate.image, i)), h.phash(original.image)) > m.phashDistance)
                  && (m.verdict == Verdict.SamePixels <==> m.phashDistance <= 2 && m.orientation == 0)
                  && (m.verdict == VisuallySimilar <==> m.phashDistance <= 10 && (m.phashDistance > 2 || m.orientation > 0))
                  && (m.verdict == PossiblePartial <==> m.phashDistance > 10 && m.tileHits >= 2)
                  && (m.verdict == Different <==> m.phashDistance > 10 && m.tileHits < 2))
  {
    var hashes := Hashes(candidate.image, h.phash);
    FirstNearestIsFirst(hashes, h.phash(original.image));
    forall i: nat | i < 8
      ensures hashes[i] == h.phash(Variant(candidate.image, i))
    {
      HashesAt(candidate.image, h.phash, i);
    }
    hide MinDistance, FirstNearest, Hashes, TileHits, Tiles, Hamming, Variant;
  }

  /** The tiles shared, counted one original tile at a time: it counts when some tile of the candidate
      differs from it in at most eight bits. */
  lemma TileHitsCount(candidate: seq<nat>, original: seq<nat>, tile: nat)
    ensures TileHits(candidate, []) == 0
    ensures TileHits(candidate, original + [tile])
         == TileHits(candidate, original)
            + if exists k :: 0 <= k < |candidate| && Hamming(candidate[k], tile) <= 8 then 1 else 0
  {
    hide Hamming;
    var n, longer := |original|, original + [tile];
    var before := set i | 0 <= i < n && (exists k :: 0 <= k < |candidate| && Hamming(candidate[k], original[i]) <= T_TILE);
    var after := set i | 0 <= i < n + 1 && (exists k :: 0 <= k < |candidate| && Hamming(candidate[k], longer[i]) <= T_TILE);
    if exists k :: 0 <= k < |candidate| && Hamming(candidate[k], tile) <= 8 {
      assert after == before + {n};
    } else {
      assert after == before;
    }
  }

  /** The tiles of a side overlap and cover it: each spans a third widened by a quarter of a third on either
      side, cut off at the ends, both bounds rounded down to whole pixels. */
  lemma TilesCoverASide(side: nat)
    ensures TileStart(side, 0) == 0 && TileEnd(side, 2) == side
    ensures TileStart(side, 1) <= TileEnd(side, 0) && TileStart(side, 2) <= TileEnd(side, 1)
    ensures forall k :: 0 < k < GRID ==>
              12 * TileStart(side, k) <= 4 * k * side - side < 12 * TileStart(side, k) + 12
    ensures forall k :: 0 <= k < GRID - 1 ==>
              12 * TileEnd(side, k) <= 4 * (k + 1) * side + side < 12 * TileEnd(side, k) + 12
  {
  }

  /** A tile is that part of the picture, pixel by pixel. */
  lemma TileIsAPart(m: Image, row: nat, col: nat, y: nat, x: nat)
    requires Valid(m) && row < GRID && col < GRID
    requires TileStart(m.height, row) <= y < TileEnd(m.height, row)
    requires TileStart(m.width, col) <= x < TileEnd(m.width, col)
    ensures TileEnd(m.height, row) <= m.height && TileEnd(m.width, col) <= m.width
    ensures var tile := Tile(m, row, col);
            && tile.height == TileEnd(m.height, row) - TileStart(m.height, row)
            && tile.width == TileEnd(m.width, col) - TileStart(m.width, col)
            && tile.rows[y - TileStart(m.height, row)][x - TileStart(m.width, col)] == m.rows[y][x]
  {
    TileFits(m.height, row);
    TileFits(m.width, col);
    hide TileStart, TileEnd;
  }

  /** Turning or mirroring the candidate - which makes it another file, with digests, hashes and tiles of
      its own - leaves the distance of the whole picture unchanged, so a candidate found by it is found
      however it is turned. A candidate not found by it stays found, or stays unfound, exactly when it
      is found by its digests or tiles either both before and after the turn or neither time. */
  lemma TurnedCandidateIsFoundExactlyWhen(h: Hashers, original: File, candidate: File, turned: File, g: Symmetry)
    requires Valid(original.image) && Valid(candidate.image) && turned.image == Moved(candidate.image, g)
    ensures var still, moved := FileComparison(h, original, candidate), FileComparison(h, original, turned);
            var distance := WholeDistance(h, original, candidate);
            && WholeDistance(h, original, turned) == distance
            && (IsMatch(moved) == IsMatch(still)
                <==> distance <= T_DERIVED_VISUAL
                     || (FoundByParts(h, original, turned) <==> FoundByParts(h, original, candidate)))
            && (!SameDigest(h, original, candidate) && !SameDigest(h, original, turned) ==>
                  && moved.phashDistance == still.phashDistance == distance
                  && (IsMatch(moved) == IsMatch(still)
                      <==> distance <= T_DERIVED_VISUAL
                           || (Hits(h, original, turned) >= MIN_TILE_HITS
                               <==> Hits(h, original, candidate) >= MIN_TILE_HITS)))
  {
    DistanceIgnoresOrientation(candidate.image, g, h.phash, h.phash(original.image));
    MatchesExactlyWhen(h, original, candidate);
    MatchesExactlyWhen(h, original, turned);
    hide FileComparison, Moved, Hits, SameDigest, MinDistance, Hashes;
  }

  /** A rotated or mirrored copy of the original, itself with other digests, is a match at distance
      zero, under an orientation in which the two hash alike: reported as the same pixels exactly if
      the copy hashes like the original as it stands, else as visually similar. */
  lemma MovedCopyIsAMatch(h: Hashers, original: File, copy: File, g: Symmetry)
    requires Valid(original.image) && copy.image == Moved(original.image, g) && !SameDigest(h, original, copy)
    ensures var result := FileComparison(h, original, copy);
            && result.phashDistance == 0 && result.orientation < 8
            && h.phash(Variant(copy.image, result.orientation)) == h.phash(original.image)
            && result.verdict == (if h.phash(copy.image) == h.phash(original.image) then Verdict.SamePixels
                                  else VisuallySimilar)
  {
    var m, phash := original.image, h.phash;
    DistanceIgnoresOrientation(m, g, phash, phash(m));
    var still, moved := Hashes(m, phash), Hashes(copy.image, phash);
    OwnHashIsFirst(m, phash);
    OwnHashIsFirst(copy.image, phash);
    hide Hashes, Moved, Variant, Hamming, Tiles, TileHits;
    HammingIsAMetric(phash(m), phash(m), phash(m));
    var k := MinDistanceIsReached(still, phash(m));
    FirstNearestIsFirst(moved, phash(m));
    var index := FirstNearest(moved, phash(m));
    HammingIsAMetric(moved[index], phash(m), 0);
    HammingIsAMetric(moved[0], phash(m), 0);
    assert moved[index] == phash(Variant(copy.image, index)) by { HashesAt(copy.image, phash, index); }
  }

  lemma OwnHashIsFirst(m: Image, phash: Image --> nat)
    requires Valid(m) && HashesImages(phash)
    ensures Hashes(m, phash)[0] == phash(m)
  {
    assert Variant(m, 0) == m;
  }

  lemma HashesAt(m: Image, phash: Image --> nat, i: nat)
    requires Valid(m) && HashesImages(phash) && i < 8
    ensures Hashes(m, phash)[i] == phash(Variant(m, i))
  {
  }

  // ---------- A partial match lost by turning ----------

  /** The top left pixel, as a hash. */
  function TopLeft(m: Image): nat
  {
    if |m.rows| > 0 && |m.rows[0]| > 0 && m.rows[0][0] >= 0 then m.rows[0][0] else 0
  }

  /** Eleven bits away from a black pixel. */
  const FAR := 2047

  function Plain(side: nat, value: int): (m: Image)
    ensures Valid(m)
  {
    Image(side, side, seq(side, _ => seq(side, _ => value)))
  }

  /** Everywhere far from black but for one pixel, on which the middle tile begins. */
  function Dotted(): (m: Image)
    ensures Valid(m)
  {
    Image(12, 12, seq(12, y => seq(12, x => if y == 3 && x == 3 then 0 else FAR)))
  }

  const BY_CORNER := Hashers(bytes => if bytes == [0] then "original" else "other",
                             m => if TopLeft(m) == 0 then "black" else "other", TopLeft, _ => 0, _ => 0)

  lemma FarIsElevenBits()
    ensures Hamming(FAR, 0) == 11 && Hamming(0, 0) == 0
  {
    hide Hamming;
    HammingIsAMetric(0, 0, 0);
    HammingStep(1, 0);
    HammingStep(3, 0);
    HammingStep(7, 0);
    HammingStep(15, 0);
    HammingStep(31, 0);
    HammingStep(63, 0);
    HammingStep(127, 0);
    HammingStep(255, 0);
    HammingStep(511, 0);
    HammingStep(1023, 0);
    HammingStep(2047, 0);
  }

  /** All four corners have the value. */
  predicate Corners(m: Image, value: int)
    requires Valid(m)
  {
    && m.width > 0 && m.height > 0
    && m.rows[0][0] == value && m.rows[0][m.width - 1] == value
    && m.rows[m.height - 1][0] == value && m.rows[m.height - 1][m.width - 1] == value
  }

  lemma {:induction false} TurnedCorners(m: Image, turns: nat, value: int)
    requires Valid(m) && Corners(m, value)
    ensures Corners(Turn(m, turns), value)
  {
    if turns > 0 {
      TurnedCorners(m, turns - 1, value);
      hide Turn;
      OneTurnOfCorners(Turn(m, turns - 1), value);
      TurnsByOne(m, turns);
    }
  }

  lemma TurnsByOne(m: Image, turns: nat)
    requires Valid(m) && turns > 0
    ensures Turn(m, turns) == QuarterTurn(Turn(m, turns - 1))
  {
  }

  lemma OneTurnOfCorners(m: Image, value: int)
    requires Valid(m) && Corners(m, value)
    ensures Valid(QuarterTurn(m)) && Corners(QuarterTurn(m), value)
    ensures Valid(Mirror(m)) && Corners(Mirror(m), value)
  {
  }

  lemma CornersDecideTheHashes(m: Image, value: nat)
    requires Valid(m) && Corners(m, value)
    ensures forall i :: 0 <= i < 8 ==> Hashes(m, TopLeft)[i] == value
  {
    OneTurnOfCorners(m, value);
    forall i | 0 <= i < 8
      ensures Hashes(m, TopLeft)[i] == value
    {
      TurnedCorners(if i < 4 then m else Mirror(m), Wrap(i), value);
      HashesAt(m, TopLeft, i);
    }
  }

  /** Each tile of a twelve by twelve image begins at row and column 0, 3 or 7. */
  lemma TileCorner(m: Image, i: nat)
    requires Valid(m) && m.width == 12 && m.height == 12 && i < 9
    ensures var at := (k: int) => if k == 0 then 0 else if k == 1 then 3 else 7;
            TopLeft(Tile(m, i / GRID, i % GRID))
            == (if m.rows[at(i / GRID)][at(i % GRID)] >= 0 then m.rows[at(i / GRID)][at(i % GRID)] else 0)
  {
    var row, col := i / GRID, i % GRID;
    assert row == 0 || row == 1 || row == 2;
    assert col == 0 || col == 1 || col == 2;
  }

  /** A candidate far from the original in every orientation that shares its middle tile is a partial
      match; turned by a quarter, its tiles begin elsewhere, and it is not found any more. */
  lemma TurningLosesAPartialMatch()
    ensures var original, candidate := File([0], Plain(12, 0)), File([1], Dotted());
            var turned := File([2], Moved(Dotted(), Symmetry(false, 1)));
            && FileComparison(BY_CORNER, original, candidate).verdict == PossiblePartial
            && FileComparison(BY_CORNER, original, turned).verdict == Different
  {
    var original, candidate := File([0], Plain(12, 0)), File([1], Dotted());
    var g := Symmetry(false, 1);
    var turned := File([2], Moved(Dotted(), g));
    FarIsElevenBits();
    FarInEveryOrientation(original, candidate);
    TurnedIsQuarterTurn();
    SharedTile(original, candidate);
    NoSharedTile(original, turned);
    DistanceIgnoresOrientation(candidate.image, g, BY_CORNER.phash, 0);
    TopLefts();
    hide MinDistance, FirstNearest, Hashes, TileHits, Tiles, Hamming, Moved, Dotted, Plain, QuarterTurn, TopLeft;
  }

  lemma TopLefts()
    ensures TopLeft(QuarterTurn(Dotted())) == FAR && TopLeft(Dotted()) == FAR && TopLeft(Plain(12, 0)) == 0
  {
  }

  lemma TurnedIsQuarterTurn()
    ensures Moved(Dotted(), Symmetry(false, 1)) == QuarterTurn(Dotted())
  {
    TurnsByOne(Dotted(), 1);
    assert Turn(Dotted(), 0) == Dotted();
  }

  lemma FarInEveryOrientation(original: File, candidate: File)
    requires original.image == Plain(12, 0) && candidate.image == Dotted()
    ensures MinDistance(Hashes(candidate.image, BY_CORNER.phash), BY_CORNER.phash(original.image)) == 11
  {
    FarIsElevenBits();
    CornersDecideTheHashes(candidate.image, FAR);
    var hashes := Hashes(candidate.image, TopLeft);
    assert TopLeft(original.image) == 0;
    var k := MinDistanceIsReached(hashes, 0);
  }

  lemma SharedTile(original: File, candidate: File)
    requires original.image == Plain(12, 0) && candidate.image == Dotted()
    ensures TileHits(Tiles(candidate.image, BY_CORNER.phash), Tiles(original.image, BY_CORNER.phash)) >= MIN_TILE_HITS
  {
    FarIsElevenBits();
    var probes, stored := Tiles(candidate.image, TopLeft), Tiles(original.image, TopLeft);
    TileCorner(candidate.image, 4);
    TileCorner(original.image, 0);
    TileCorner(original.image, 1);
    assert probes[4] == 0 && stored[0] == 0 && stored[1] == 0;
    hide Tiles, Hamming;
    var hits := set i | 0 <= i < |stored|
                        && (exists k :: 0 <= k < |probes| && Hamming(probes[k], stored[i]) <= T_TILE);
    assert Hamming(probes[4], stored[0]) <= T_TILE && Hamming(probes[4], stored[1]) <= T_TILE;
    assert {0, 1} <= hits;
    TwoOfThem(hits);
  }

  lemma TwoOfThem(s: set<int>)
    requires {0, 1} <= s
    ensures |s| >= 2
  {
    assert |s - {0, 1}| == |s| - |{0, 1}|;
  }

  lemma BlackTiles(i: nat)
    requires i < 9
    ensures Tiles(Plain(12, 0), TopLeft)[i] == 0
  {
    TileCorner(Plain(12, 0), i);
    hide Tile;
  }

  lemma TurnedTilesAreFar(i: nat)
    requires i < 9
    ensures Tiles(QuarterTurn(Dotted()), TopLeft)[i] == FAR
  {
    TileCorner(QuarterTurn(Dotted()), i);
    hide Tile;
  }

  lemma NoSharedTile(original: File, turned: File)
    requires original.image == Plain(12, 0) && turned.image == Moved(Dotted(), Symmetry(false, 1))
    ensures TileHits(Tiles(turned.image, BY_CORNER.phash), Tiles(original.image, BY_CORNER.phash)) == 0
  {
    TurnedIsQuarterTurn();
    FarIsElevenBits();
    var probes, stored := Tiles(QuarterTurn(Dotted()), TopLeft), Tiles(Plain(12, 0), TopLeft);
    forall i | 0 <= i < 9
      ensures probes[i] == FAR && stored[i] == 0
    {
      BlackTiles(i);
      TurnedTilesAreFar(i);
    }
    hide Tiles, Hamming, QuarterTurn, Dotted, Plain, Moved;
    var hits := set i | 0 <= i < |stored|
                        && (exists k :: 0 <= k < |probes| && Hamming(probes[k], stored[i]) <= T_TILE);
    assert hits == {};
  }
}

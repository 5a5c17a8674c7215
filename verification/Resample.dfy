/** tools/media.go: nearest-neighbour scaling and the square cut out of the middle. */
module Resample {

  datatype Color = Color(r: nat, g: nat, b: nat, a: nat)

  const CLEAR := Color(0, 0, 0, 0)

  /** An image with its bounds, which need not begin at the origin. */
  datatype Image = Image(minX: int, minY: int, width: nat, height: nat, rows: seq<seq<Color>>)

  predicate Valid(img: Image) {
    |img.rows| == img.height && forall y :: 0 <= y < img.height ==> |img.rows[y]| == img.width
  }

  predicate Inside(img: Image, x: int, y: int) {
    img.minX <= x < img.minX + img.width && img.minY <= y < img.minY + img.height
  }

  /** Outside its bounds an image is clear. */
  function At(img: Image, x: int, y: int): Color
    requires Valid(img)
  {
    if Inside(img, x, y) then img.rows[y - img.minY][x - img.minX] else CLEAR
  }

  /** The pixels drawn so far. */
  function Snapshot(a: array2<Color>): (img: Image)
    reads a
    ensures Valid(img) && img.width == a.Length1 && img.height == a.Length0
  {
    Image(0, 0, a.Length1, a.Length0,
          seq(a.Length0, y requires 0 <= y < a.Length0 reads a =>
            seq(a.Length1, x requires 0 <= x < a.Length1 reads a => a[y, x])))
  }

  // ------------------------------------------------------------- coordinates

  /** The source coordinate for position t of `target` positions over n source positions. */
  function SourceOf(t: nat, n: nat, target: nat): nat
    requires target > 0
  {
    t * n / target
  }

  lemma DivBelow(a: nat, b: nat, c: nat)
    requires b > 0 && a < c * b
    ensures a / b < c
  {
    assert (a / b) * b <= a;
    if a / b >= c {
      MulMonotone(c, a / b, b);
    }
  }

  lemma MulMonotone(a: nat, b: nat, c: nat)
    requires a <= b
    ensures a * c <= b * c
  {}

  /** Every position reads a pixel of the source. */
  lemma SourceInBounds(t: nat, n: nat, target: nat)
    requires t < target && n > 0
    ensures SourceOf(t, n, target) < n
  {
    assert t * n < target * n;
    DivBelow(t * n, target, n);
  }

  /** For all sizes: source position s stands for the stretch from s to s + 1 of the source, in
      which position t of the target lies when both lines are given the same length. */
  lemma SourceIsProportional(t: nat, n: nat, target: nat)
    requires t < target && n > 0
    ensures forall s: nat :: SourceOf(t, n, target) == s <==> s * target <= t * n < (s + 1) * target
  {
    forall s: nat ensures SourceOf(t, n, target) == s <==> s * target <= t * n < (s + 1) * target {
      var k := SourceOf(t, n, target);
      assert k * target + (t * n) % target == t * n;
      assert (k + 1) * target == k * target + target;
      if s < k {
        MulMonotone(s + 1, k, target);
      } else if s > k {
        MulMonotone(k + 1, s, target);
      }
    }
  }

  lemma DivCancels(q: nat, r: nat, d: nat)
    requires r < d
    ensures (q * d + r) / d == q
  {
    var k := (q * d + r) / d;
    assert k * d + (q * d + r) % d == q * d + r;
    if k < q {
      MulMonotone(k + 1, q, d);
    } else if k > q {
      MulMonotone(q + 1, k, d);
    }
  }

  lemma SameSizeIsIdentity(t: nat, n: nat)
    requires n > 0
    ensures SourceOf(t, n, n) == t
  {
    DivCancels(t, 0, n);
  }

  /** Enlarging by an integer factor repeats every position that often. */
  lemma EnlargedRepeats(t: nat, n: nat, k: nat)
    requires n > 0 && k > 0
    ensures SourceOf(t, n, n * k) == t / k
  {
    var q, r := t / k, t % k;
    assert t == q * k + r;
    assert t * n == q * (n * k) + r * n by {
      Distribute(q, k, r, n);
    }
    assert r * n < k * n by {
      MulStrict(r, k, n);
    }
    DivCancels(q, r * n, n * k);
  }

  lemma Distribute(q: nat, k: nat, r: nat, n: nat)
    ensures (q * k + r) * n == q * (n * k) + r * n
  {
    assert q * (n * k) == (q * k) * n;
  }

  lemma MulStrict(a: nat, b: nat, c: nat)
    requires a < b && c > 0
    ensures a * c < b * c
  {}

  /** Shrinking an enlargement reads the first of the repeated positions. */
  lemma ShrunkReadsFirst(t: nat, n: nat, k: nat)
    requires n > 0 && k > 0
    ensures SourceOf(t, n * k, n) == t * k && SourceOf(SourceOf(t, n * k, n), n, n * k) == t
  {
    assert t * (n * k) == (t * k) * n;
    DivCancels(t * k, 0, n);
    EnlargedRepeats(t * k, n, k);
    DivCancels(t, 0, k);
  }

  /** Some position reads the source position s. */
  ghost predicate Read(s: nat, n: nat, target: nat)
    requires target > 0
  {
    exists t :: 0 <= t < target && SourceOf(t, n, target) == s
  }

  /** The set of source positions read. */
  function ReadSet(n: nat, target: nat, upTo: nat): set<nat>
    requires target > 0
  {
    if upTo == 0 then {} else ReadSet(n, target, upTo - 1) + {SourceOf(upTo - 1, n, target)}
  }

  lemma {:induction false} ReadSetIs(n: nat, target: nat, upTo: nat)
    requires target > 0
    ensures |ReadSet(n, target, upTo)| <= upTo
    ensures forall t :: 0 <= t < upTo ==> SourceOf(t, n, target) in ReadSet(n, target, upTo)
    decreases upTo
  {
    if upTo > 0 {
      ReadSetIs(n, target, upTo - 1);
    }
  }

  function Below(n: nat): (r: set<nat>)
    ensures |r| == n && forall i: nat :: i in r <==> i < n
  {
    if n == 0 then {} else Below(n - 1) + {n - 1}
  }

  lemma SubsetSize(a: set<nat>, b: set<nat>)
    requires a <= b
    ensures |a| <= |b|
  {
    assert b == a + (b - a);
  }

  /** When there are as many positions, source position s is read at the least t with t * n
      not below s * target. */
  lemma EnlargingReads(s: nat, n: nat, target: nat)
    requires s < n <= target
    ensures Read(s, n, target)
  {
    var p := s * target + (n - 1);
    var t := p / n;
    assert t * n + p % n == p;
    assert s * target <= t * n;
    assert t * n <= s * target + target - 1;
    DivCancels(s, t * n - s * target, target);
    assert s * target + (t * n - s * target) == t * n;
    assert SourceOf(t, n, target) == s;
    MulMonotone(s + 1, n, target);
    assert (s + 1) * target == s * target + target;
    if t >= target {
      MulMonotone(target, t, n);
    }
  }

  /** No pixel of a line is lost exactly when the target is not smaller than the source. */
  lemma AllReadIff(n: nat, target: nat)
    requires n > 0 && target > 0
    ensures (forall s: nat :: s < n ==> Read(s, n, target)) <==> n <= target
  {
    if n <= target {
      forall s: nat | s < n ensures Read(s, n, target) {
        EnlargingReads(s, n, target);
      }
    }
    if forall s: nat :: s < n ==> Read(s, n, target) {
      ReadSetIs(n, target, target);
      forall s | s in Below(n) ensures s in ReadSet(n, target, target) {
        assert Read(s, n, target);
      }
      SubsetSize(Below(n), ReadSet(n, target, target));
    }
  }

  // ---------------------------------------------------------------- scaling

  function ScaledAt(img: Image, w: nat, h: nat, x: nat, y: nat): Color
    requires Valid(img) && w > 0 && h > 0
  {
    At(img, img.minX + SourceOf(x, img.width, w), img.minY + SourceOf(y, img.height, h))
  }

  function Resized(img: Image, w: nat, h: nat): (r: Image)
    requires Valid(img) && w > 0 && h > 0
    ensures Valid(r)
  {
    Image(0, 0, w, h, seq(h, y requires 0 <= y < h => seq(w, x requires 0 <= x < w => ScaledAt(img, w, h, x, y))))
  }

  method ResizeImage(src: Image, targetW: nat, targetH: nat) returns (dst: array2<Color>)
    requires Valid(src) && targetW > 0 && targetH > 0
    ensures Snapshot(dst) == Resized(src, targetW, targetH)
  {
    dst := new Color[targetH, targetW]((_, _) => CLEAR);
    var srcW, srcH := src.width, src.height;
    for y := 0 to targetH
      invariant forall v, u :: 0 <= v < y && 0 <= u < targetW ==> dst[v, u] == ScaledAt(src, targetW, targetH, u, v)
    {
      var srcY := y * srcH / targetH;
      for x := 0 to targetW
        invariant forall v, u :: 0 <= v < y && 0 <= u < targetW ==> dst[v, u] == ScaledAt(src, targetW, targetH, u, v)
        invariant forall u :: 0 <= u < x ==> dst[y, u] == ScaledAt(src, targetW, targetH, u, y)
      {
        var srcX := x * srcW / targetW;
        dst[y, x] := At(src, src.minX + srcX, src.minY + srcY);
      }
    }
    forall y | 0 <= y < targetH ensures Snapshot(dst).rows[y] == Resized(src, targetW, targetH).rows[y] {}
  }

  /** Only pixels inside the bounds of the source are read. */
  lemma ReadsInside(img: Image, w: nat, h: nat, x: nat, y: nat)
    requires Valid(img) && img.width > 0 && img.height > 0 && x < w && y < h
    ensures Inside(img, img.minX + SourceOf(x, img.width, w), img.minY + SourceOf(y, img.height, h))
    ensures ScaledAt(img, w, h, x, y) == img.rows[SourceOf(y, img.height, h)][SourceOf(x, img.width, w)]
  {
    SourceInBounds(x, img.width, w);
    SourceInBounds(y, img.height, h);
  }

  /** Scaling to its own size keeps every pixel. */
  lemma ResizeToSameSize(img: Image)
    requires Valid(img) && img.width > 0 && img.height > 0
    ensures Resized(img, img.width, img.height).rows == img.rows
  {
    var r := Resized(img, img.width, img.height);
    forall y | 0 <= y < img.height ensures r.rows[y] == img.rows[y] {
      forall x | 0 <= x < img.width ensures r.rows[y][x] == img.rows[y][x] {
        ReadsInside(img, img.width, img.height, x, y);
        SameSizeIsIdentity(x, img.width);
        SameSizeIsIdentity(y, img.height);
      }
    }
  }

  lemma ProductPositive(a: nat, b: nat)
    requires a > 0 && b > 0
    ensures a * b > 0
  {}

  /** Enlarging by integer factors repeats every pixel in blocks. */
  lemma EnlargedPixel(img: Image, k: nat, l: nat, x: nat, y: nat)
    requires Valid(img) && img.width > 0 && img.height > 0 && k > 0 && l > 0
    requires x < img.width * k && y < img.height * l
    ensures x / k < img.width && y / l < img.height
    ensures Resized(img, img.width * k, img.height * l).rows[y][x] == img.rows[y / l][x / k]
  {
    ReadsInside(img, img.width * k, img.height * l, x, y);
    SourceInBounds(x, img.width, img.width * k);
    SourceInBounds(y, img.height, img.height * l);
    EnlargedRepeats(x, img.width, k);
    EnlargedRepeats(y, img.height, l);
  }

  lemma BackToFirst(img: Image, k: nat, l: nat, x: nat, y: nat)
    requires Valid(img) && k > 0 && l > 0 && x < img.width && y < img.height
    ensures img.width * k > 0 && img.height * l > 0
    ensures ScaledAt(Resized(img, img.width * k, img.height * l), img.width, img.height, x, y) == img.rows[y][x]
  {
    ProductPositive(img.width, k);
    ProductPositive(img.height, l);
    var big := Resized(img, img.width * k, img.height * l);
    ReadsInside(big, img.width, img.height, x, y);
    ShrunkReadsFirst(x, img.width, k);
    ShrunkReadsFirst(y, img.height, l);
    SourceInBounds(x, big.width, img.width);
    SourceInBounds(y, big.height, img.height);
    EnlargedPixel(img, k, l, x * k, y * l);
    DivCancels(x, 0, k);
    DivCancels(y, 0, l);
  }

  /** Enlarging by any integer factors and shrinking back gives the image again. */
  lemma EnlargeThenShrink(img: Image, k: nat, l: nat)
    requires Valid(img) && img.width > 0 && img.height > 0 && k > 0 && l > 0
    ensures img.width * k > 0 && img.height * l > 0
    ensures Resized(Resized(img, img.width * k, img.height * l), img.width, img.height).rows == img.rows
  {
    ProductPositive(img.width, k);
    ProductPositive(img.height, l);
    var back := Resized(Resized(img, img.width * k, img.height * l), img.width, img.height);
    forall y | 0 <= y < img.height ensures back.rows[y] == img.rows[y] {
      forall x | 0 <= x < img.width ensures back.rows[y][x] == img.rows[y][x] {
        BackToFirst(img, k, l, x, y);
      }
    }
  }

  // ---------------------------------------------------------------- cropping

  function CropSize(img: Image): nat { if img.height < img.width then img.height else img.width }

  function Cropped(img: Image): (r: Image)
    requires Valid(img)
    ensures Valid(r)
  {
    var c := CropSize(img);
    Image(0, 0, c, c,
          seq(c, y requires 0 <= y < c => seq(c, x requires 0 <= x < c =>
            At(img, img.minX + (img.width - c) / 2 + x, img.minY + (img.height - c) / 2 + y))))
  }

  method CropCenter(src: Image, size: nat) returns (dst: array2<Color>)
    requires Valid(src) && size > 0
    ensures Snapshot(dst) == if CropSize(src) != size then Resized(Cropped(src), size, size) else Cropped(src)
  {
    var cropSize := src.width;
    if src.height < cropSize {
      cropSize := src.height;
    }
    var x0 := src.minX + (src.width - cropSize) / 2;
    var y0 := src.minY + (src.height - cropSize) / 2;
    dst := new Color[cropSize, cropSize]((_, _) => CLEAR);
    for y := 0 to cropSize
      invariant forall v, u :: 0 <= v < y && 0 <= u < cropSize ==> dst[v, u] == At(src, x0 + u, y0 + v)
    {
      for x := 0 to cropSize
        invariant forall v, u :: 0 <= v < y && 0 <= u < cropSize ==> dst[v, u] == At(src, x0 + u, y0 + v)
        invariant forall u :: 0 <= u < x ==> dst[y, u] == At(src, x0 + u, y0 + y)
      {
        dst[y, x] := At(src, x0 + x, y0 + y);
      }
    }
    ghost var drawn := Snapshot(dst);
    forall y | 0 <= y < cropSize ensures drawn.rows[y] == Cropped(src).rows[y] {
      assert forall x :: 0 <= x < cropSize ==> drawn.rows[y][x] == Cropped(src).rows[y][x];
    }
    assert drawn.rows == Cropped(src).rows;
    if cropSize != size {
      dst := ResizeImage(Snapshot(dst), size, size);
    }
  }

  /** The square lies within the bounds, touches both edges of the shorter side, and its two
      margins on the longer side differ by at most one pixel. */
  lemma CropIsCentred(img: Image)
    requires Valid(img)
    ensures
      var c := CropSize(img);
      var left, top := (img.width - c) / 2, (img.height - c) / 2;
      var right, bottom := img.width - c - left, img.height - c - top;
      && 0 <= left <= right <= left + 1 && 0 <= top <= bottom <= top + 1
      && (left == 0 == right || top == 0 == bottom)
      && forall x: nat, y: nat :: x < c && y < c ==>
           Cropped(img).rows[y][x] == img.rows[top + y][left + x]
  {
    var c := CropSize(img);
    var left, top := (img.width - c) / 2, (img.height - c) / 2;
    assert 0 <= left <= img.width - c - left && 0 <= top <= img.height - c - top;
    forall x: nat, y: nat | x < c && y < c ensures Cropped(img).rows[y][x] == img.rows[top + y][left + x] {
      CroppedPixel(img, x, y);
    }
  }

  lemma CroppedPixel(img: Image, x: nat, y: nat)
    requires Valid(img) && x < CropSize(img) && y < CropSize(img)
    ensures
      var left, top := (img.width - CropSize(img)) / 2, (img.height - CropSize(img)) / 2;
      left + x < img.width && top + y < img.height && Cropped(img).rows[y][x] == img.rows[top + y][left + x]
  {
    var left, top := (img.width - CropSize(img)) / 2, (img.height - CropSize(img)) / 2;
    assert Inside(img, img.minX + left + x, img.minY + top + y);
    assert At(img, img.minX + left + x, img.minY + top + y) == img.rows[top + y][left + x];
    assert Cropped(img).rows[y][x] == At(img, img.minX + left + x, img.minY + top + y);
  }
}

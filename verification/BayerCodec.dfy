/**
  The Bayer image codec: the recorder splits an image into its four colour planes, takes differences and
  compresses; the decompressor undoes the three steps.

  Main result (BayerRoundTrip): for every width and height, odd ones included, decoding gives the image
  back exactly when the image is within the decoder's size bound, and an error otherwise.
*/
module BayerCodec {
  import opened Compression
  import opened LittleEndian
  import opened Sequences
  import opened Wrappers

  datatype Pixel = Pixel(y: nat, x: nat)

  /** The index of a pixel in an image stored row by row. */
  function Rank(w: nat, q: Pixel): nat { q.y * w + q.x }

  predicate InGrid(w: nat, h: nat, q: Pixel) { q.y < h && q.x < w }

  predicate HasParity(n: nat, r: nat) { n % 2 == r }

  lemma ParityNext(n: nat, r: nat)
    requires HasParity(n, r)
    ensures HasParity(n + 2, r)
  {
  }

  /** The pixels of row y at the columns of parity c below n. */
  function RowUpTo(y: nat, c: nat, n: nat): seq<Pixel> {
    if n == 0 then [] else RowUpTo(y, c, n - 1) + if (n - 1) % 2 == c then [Pixel(y, n - 1)] else []
  }

  /** The pixels of the plane that starts at row r and column c, in the rows below m. */
  function PlaneUpTo(w: nat, r: nat, c: nat, m: nat): seq<Pixel> {
    if m == 0 then [] else PlaneUpTo(w, r, c, m - 1) + if (m - 1) % 2 == r then RowUpTo(m - 1, c, w) else []
  }

  /** The order in which the planes are stored: red, the two greens, blue. */
  function Order(w: nat, h: nat): seq<Pixel> {
    PlaneUpTo(w, 0, 0, h) + PlaneUpTo(w, 0, 1, h) + PlaneUpTo(w, 1, 0, h) + PlaneUpTo(w, 1, 1, h)
  }

  // ------------------------------------------------------------------ the order visits every pixel once

  lemma {:induction false} InRow(y: nat, c: nat, n: nat, q: Pixel)
    ensures q in RowUpTo(y, c, n) <==> q.y == y && q.x < n && q.x % 2 == c
  {
    if n > 0 { InRow(y, c, n - 1, q); }
  }

  lemma {:induction false} InPlane(w: nat, r: nat, c: nat, m: nat, q: Pixel)
    ensures q in PlaneUpTo(w, r, c, m) <==> q.y < m && q.x < w && q.y % 2 == r && q.x % 2 == c
  {
    hide RowUpTo;
    if m > 0 {
      InPlane(w, r, c, m - 1, q);
      InRow(m - 1, c, w, q);
    }
  }

  lemma InOrder(w: nat, h: nat, q: Pixel)
    ensures q in Order(w, h) <==> InGrid(w, h, q)
  {
    InPlane(w, 0, 0, h, q);
    InPlane(w, 0, 1, h, q);
    InPlane(w, 1, 0, h, q);
    InPlane(w, 1, 1, h, q);
  }

  lemma {:induction false} RowHasNoRepeats(y: nat, c: nat, n: nat)
    ensures NoRepeats(RowUpTo(y, c, n))
  {
    if n > 0 {
      RowHasNoRepeats(y, c, n - 1);
      InRow(y, c, n - 1, Pixel(y, n - 1));
      NoRepeatsConcat(RowUpTo(y, c, n - 1), if (n - 1) % 2 == c then [Pixel(y, n - 1)] else []);
    }
  }

  lemma {:induction false} PlaneHasNoRepeats(w: nat, r: nat, c: nat, m: nat)
    ensures NoRepeats(PlaneUpTo(w, r, c, m))
  {
    if m > 0 {
      PlaneHasNoRepeats(w, r, c, m - 1);
      RowHasNoRepeats(m - 1, c, w);
      var above, row := PlaneUpTo(w, r, c, m - 1), RowUpTo(m - 1, c, w);
      forall q | q in above
        ensures q !in row
      {
        InPlane(w, r, c, m - 1, q);
        InRow(m - 1, c, w, q);
      }
      NoRepeatsConcat(above, if (m - 1) % 2 == r then row else []);
    }
  }

  /** No pixel is in two planes. */
  lemma PlanesAreDisjoint(w: nat, h: nat, r: nat, c: nat, r': nat, c': nat)
    requires r != r' || c != c'
    ensures forall q :: q in PlaneUpTo(w, r, c, h) ==> q !in PlaneUpTo(w, r', c', h)
  {
    forall q | q in PlaneUpTo(w, r, c, h)
      ensures q !in PlaneUpTo(w, r', c', h)
    {
      InPlane(w, r, c, h, q);
      InPlane(w, r', c', h, q);
    }
  }

  lemma OrderHasNoRepeats(w: nat, h: nat)
    ensures NoRepeats(Order(w, h))
  {
    var p, q, s, t := PlaneUpTo(w, 0, 0, h), PlaneUpTo(w, 0, 1, h), PlaneUpTo(w, 1, 0, h), PlaneUpTo(w, 1, 1, h);
    PlaneHasNoRepeats(w, 0, 0, h);
    PlaneHasNoRepeats(w, 0, 1, h);
    PlaneHasNoRepeats(w, 1, 0, h);
    PlaneHasNoRepeats(w, 1, 1, h);
    PlanesAreDisjoint(w, h, 0, 0, 0, 1);
    PlanesAreDisjoint(w, h, 0, 0, 1, 0);
    PlanesAreDisjoint(w, h, 0, 0, 1, 1);
    PlanesAreDisjoint(w, h, 0, 1, 1, 0);
    PlanesAreDisjoint(w, h, 0, 1, 1, 1);
    PlanesAreDisjoint(w, h, 1, 0, 1, 1);
    hide PlaneUpTo, NoRepeats;
    NoRepeatsConcat(p, q);
    NoRepeatsConcat(p + q, s);
    NoRepeatsConcat(p + q + s, t);
  }

  lemma {:induction false} RowSizes(y: nat, n: nat)
    ensures |RowUpTo(y, 0, n)| + |RowUpTo(y, 1, n)| == n
  {
    if n > 0 { RowSizes(y, n - 1); }
  }

  lemma {:induction false} PlaneSizes(w: nat, m: nat)
    ensures |PlaneUpTo(w, 0, 0, m)| + |PlaneUpTo(w, 0, 1, m)| + |PlaneUpTo(w, 1, 0, m)| + |PlaneUpTo(w, 1, 1, m)|
         == m * w
  {
    if m > 0 {
      PlaneSizes(w, m - 1);
      RowSizes(m - 1, w);
      assert m * w == (m - 1) * w + w;
    }
  }

  /** The planes fill exactly the image's size. */
  lemma OrderFillsImage(w: nat, h: nat)
    ensures |Order(w, h)| == h * w
  {
    PlaneSizes(w, h);
  }

  // ------------------------------------------------------------------ ranks

  lemma RankInImage(w: nat, h: nat, q: Pixel)
    requires InGrid(w, h, q)
    ensures Rank(w, q) < h * w
  {
    AtLeast(h - q.y, w);
  }

  lemma RankIsInjective(w: nat, p: Pixel, q: Pixel)
    requires p.x < w && q.x < w && Rank(w, p) == Rank(w, q)
    ensures p == q
  {
    var d := p.y - q.y;
    assert d * w == q.x - p.x;
    if d >= 1 { AtLeast(d, w); }
    if d <= -1 { AtLeast(-d, w); }
  }

  lemma PixelOf(w: nat, h: nat, i: nat) returns (q: Pixel)
    requires i < h * w
    ensures InGrid(w, h, q) && Rank(w, q) == i
  {
    assert w > 0;
    q := Pixel(i / w, i % w);
    if q.y > h { AtLeast(q.y - h, w); }
  }

  // ------------------------------------------------------------------ splitting into planes

  predicate IsImage(image: seq<byte>, w: nat, h: nat) { |image| == h * w }

  /** The values of an image at the given pixels. */
  ghost function Picked(image: seq<byte>, w: nat, h: nat, pixels: seq<Pixel>): (planes: seq<byte>)
    requires IsImage(image, w, h) && forall q :: q in pixels ==> InGrid(w, h, q)
    ensures |planes| == |pixels|
  {
    seq(|pixels|, k requires 0 <= k < |pixels| =>
      assert pixels[k] in pixels;
      RankInImage(w, h, pixels[k]);
      image[Rank(w, pixels[k])])
  }

  lemma OrderInGrid(w: nat, h: nat)
    ensures forall q :: q in Order(w, h) <==> InGrid(w, h, q)
  {
    forall q: Pixel
      ensures q in Order(w, h) <==> InGrid(w, h, q)
    {
      InOrder(w, h, q);
    }
  }

  ghost function Split(image: seq<byte>, w: nat, h: nat): (planes: seq<byte>)
    requires IsImage(image, w, h)
    ensures |planes| == |image|
  {
    OrderInGrid(w, h);
    OrderFillsImage(w, h);
    Picked(image, w, h, Order(w, h))
  }

  /** An image is determined by its planes. */
  lemma SplitIsInjective(a: seq<byte>, b: seq<byte>, w: nat, h: nat)
    requires IsImage(a, w, h) && IsImage(b, w, h) && Split(a, w, h) == Split(b, w, h)
    ensures a == b
  {
    OrderInGrid(w, h);
    forall i: nat | i < |a|
      ensures a[i] == b[i]
    {
      var q := PixelOf(w, h, i);
      InOrder(w, h, q);
      var k :| 0 <= k < |Order(w, h)| && Order(w, h)[k] == q;
      assert Split(a, w, h)[k] == a[i] && Split(b, w, h)[k] == b[i];
    }
  }

  // ------------------------------------------------------------------ where each pixel is stored

  /** How many numbers below n have parity r. */
  function Halved(n: nat, r: nat): nat
    requires r < 2
  {
    (n + 1 - r) / 2
  }

  function Times(rows: nat, columns: nat): nat { rows * columns }

  /** The place of a pixel in its plane. */
  function PlaceInPlane(w: nat, q: Pixel): nat { Times(q.y / 2, Halved(w, q.x % 2)) + q.x / 2 }

  function PlaneSize(w: nat, h: nat, r: nat, c: nat): nat
    requires r < 2 && c < 2
  {
    Times(Halved(h, r), Halved(w, c))
  }

  /** Where the plane of row parity r and column parity c starts: red, the green of its rows, the other green, blue. */
  function PlaneStart(w: nat, h: nat, r: nat, c: nat): nat
    requires r < 2 && c < 2
  {
    (if r == 0 then 0 else PlaneSize(w, h, 0, 0) + PlaneSize(w, h, 0, 1))
    + (if c == 0 then 0 else PlaneSize(w, h, r, 0))
  }

  lemma HalvedNext(n: nat, r: nat)
    requires r < 2
    ensures Halved(n + 1, r) == Halved(n, r) + (if n % 2 == r then 1 else 0)
    ensures n % 2 == r ==> Halved(n, r) == n / 2
  {
  }

  lemma {:induction false} RowAt(y: nat, c: nat, n: nat, x: nat)
    requires c < 2
    ensures |RowUpTo(y, c, n)| == Halved(n, c)
    ensures x < n && x % 2 == c ==> x / 2 < Halved(n, c) && RowUpTo(y, c, n)[x / 2] == Pixel(y, x)
  {
    hide Halved;
    if n > 0 {
      RowAt(y, c, n - 1, x);
      HalvedNext(n - 1, c);
    } else {
      NothingHalved(c);
    }
  }

  lemma NothingHalved(c: nat)
    requires c < 2
    ensures Halved(0, c) == 0
  {
  }

  /** The pixels of a plane up to row m: one more row if its parity fits. */
  lemma PlaneNext(w: nat, r: nat, c: nat, m: nat)
    ensures PlaneUpTo(w, r, c, m + 1) == PlaneUpTo(w, r, c, m) + if m % 2 == r then RowUpTo(m, c, w) else []
    ensures PlaneUpTo(w, r, c, 0) == []
  {
  }

  lemma OneMoreRow(rows: nat, columns: nat)
    ensures Times(rows + 1, columns) == Times(rows, columns) + columns && Times(0, columns) == 0
  {
  }

  /** A plane is stored row by row. */
  lemma {:induction false} PlaneAt(w: nat, r: nat, c: nat, m: nat, q: Pixel)
    requires r < 2 && c < 2
    ensures |PlaneUpTo(w, r, c, m)| == PlaneSize(w, m, r, c)
    ensures q.y < m && q.x < w && q.y % 2 == r && q.x % 2 == c ==>
              PlaceInPlane(w, q) < PlaneSize(w, m, r, c) && PlaneUpTo(w, r, c, m)[PlaceInPlane(w, q)] == q
  {
    hide Halved, RowUpTo, PlaneUpTo, Times;
    if m > 0 {
      PlaneAt(w, r, c, m - 1, q);
      PlaneNext(w, r, c, m - 1);
      HalvedNext(m - 1, r);
      RowAt(m - 1, c, w, q.x);
      OneMoreRow(Halved(m - 1, r), Halved(w, c));
    } else {
      NothingHalved(r);
      PlaneNext(w, r, c, 0);
      OneMoreRow(0, Halved(w, c));
    }
  }

  /** The place of a pixel in the whole order. */
  function PlaceOf(w: nat, h: nat, q: Pixel): nat { PlaneStart(w, h, q.y % 2, q.x % 2) + PlaceInPlane(w, q) }

  /** The order stores the planes one after the other, each row by row. */
  lemma OrderAt(w: nat, h: nat, q: Pixel)
    requires InGrid(w, h, q)
    ensures PlaceOf(w, h, q) < |Order(w, h)| && Order(w, h)[PlaceOf(w, h, q)] == q
  {
    PlaneAt(w, q.y % 2, q.x % 2, h, q);
    hide Order, PlaneUpTo, PlaneStart, PlaneSize, PlaceInPlane;
    PlaneSizeIs(w, h, q.y % 2, q.x % 2);
    OrderAtPlane(w, h, q.y % 2, q.x % 2, PlaceInPlane(w, q));
  }

  lemma OrderAtPlane(w: nat, h: nat, r: nat, c: nat, i: nat)
    requires r < 2 && c < 2 && i < |PlaneUpTo(w, r, c, h)|
    ensures var place := PlaneStart(w, h, r, c) + i;
            place < |Order(w, h)| && Order(w, h)[place] == PlaneUpTo(w, r, c, h)[i]
  {
    hide PlaneUpTo, PlaneSize;
    PlaneSizeIs(w, h, 0, 0);
    PlaneSizeIs(w, h, 0, 1);
    PlaneSizeIs(w, h, 1, 0);
    PlaneSizeIs(w, h, 1, 1);
    InOneOfFour(PlaneUpTo(w, 0, 0, h), PlaneUpTo(w, 0, 1, h), PlaneUpTo(w, 1, 0, h), PlaneUpTo(w, 1, 1, h), i);
  }

  lemma PlaneSizeIs(w: nat, h: nat, r: nat, c: nat)
    requires r < 2 && c < 2
    ensures |PlaneUpTo(w, r, c, h)| == PlaneSize(w, h, r, c)
  {
    PlaneAt(w, r, c, h, Pixel(h, w));
    hide PlaneUpTo, PlaneSize, PlaceInPlane;
  }

  lemma InOneOfFour(a: seq<Pixel>, b: seq<Pixel>, c: seq<Pixel>, d: seq<Pixel>, i: nat)
    ensures i < |a| ==> (a + b + c + d)[i] == a[i]
    ensures i < |b| ==> (a + b + c + d)[|a| + i] == b[i]
    ensures i < |c| ==> (a + b + c + d)[|a| + |b| + i] == c[i]
    ensures i < |d| ==> (a + b + c + d)[|a| + |b| + |c| + i] == d[i]
  {
  }

  /** Of an image split into planes, the value of each pixel is at the pixel's place. */
  lemma SplitAt(image: seq<byte>, w: nat, h: nat, q: Pixel)
    requires IsImage(image, w, h) && InGrid(w, h, q)
    ensures PlaceOf(w, h, q) < |image| && Rank(w, q) < |image|
    ensures Split(image, w, h)[PlaceOf(w, h, q)] == image[Rank(w, q)]
  {
    OrderAt(w, h, q);
    OrderFillsImage(w, h);
    RankInImage(w, h, q);
    hide Order, PlaceOf;
  }

  // ------------------------------------------------------------------ the encoder

  /** The pixels visited before (y, x) of a plane scanned by rows. */
  ghost function Scanned(w: nat, r: nat, c: nat, y: nat, x: nat): seq<Pixel> {
    PlaneUpTo(w, r, c, y) + RowUpTo(y, c, x)
  }

  lemma {:induction false} RowGrows(y: nat, c: nat, n: nat, m: nat)
    requires n <= m
    ensures |RowUpTo(y, c, n)| <= |RowUpTo(y, c, m)|
    decreases m
  {
    if n < m { RowGrows(y, c, n, m - 1); }
  }

  lemma {:induction false} PlaneGrows(w: nat, r: nat, c: nat, n: nat, m: nat)
    requires n <= m
    ensures |PlaneUpTo(w, r, c, n)| <= |PlaneUpTo(w, r, c, m)|
    decreases m
  {
    if n < m { PlaneGrows(w, r, c, n, m - 1); }
  }

  /** Before each pixel of a plane there is still room for it. */
  lemma ScanLeavesRoom(w: nat, h: nat, r: nat, c: nat, y: nat, x: nat)
    requires y < h && x < w && HasParity(y, r) && HasParity(x, c)
    ensures |Scanned(w, r, c, y, x)| < |PlaneUpTo(w, r, c, h)|
  {
    RowGrows(y, c, x + 1, w);
    PlaneGrows(w, r, c, y + 1, h);
  }

  /** Skipping a column of the other parity scans nothing. */
  lemma ScanSteps(w: nat, r: nat, c: nat, y: nat, x: nat)
    requires HasParity(y, r) && HasParity(x, c)
    ensures Scanned(w, r, c, y, x + 2) == Scanned(w, r, c, y, x) + [Pixel(y, x)]
  {
    assert RowUpTo(y, c, x + 2) == RowUpTo(y, c, x + 1);
    assert RowUpTo(y, c, x + 1) == RowUpTo(y, c, x) + [Pixel(y, x)];
  }

  /** planes holds the image's values at the given pixels. */
  ghost predicate Filled(image: seq<byte>, w: nat, h: nat, planes: seq<byte>, pixels: seq<Pixel>)
    requires IsImage(image, w, h)
  {
    (forall q :: q in pixels ==> InGrid(w, h, q)) && planes == Picked(image, w, h, pixels)
  }

  lemma FilledMore(image: seq<byte>, w: nat, h: nat, planes: seq<byte>, pixels: seq<Pixel>, q: Pixel)
    requires IsImage(image, w, h) && Filled(image, w, h, planes, pixels) && InGrid(w, h, q)
    ensures Rank(w, q) < |image| && Filled(image, w, h, planes + [image[Rank(w, q)]], pixels + [q])
  {
    RankInImage(w, h, q);
  }

  /** Storing the next pixel of the scan. */
  lemma ScanNext(image: seq<byte>, w: nat, h: nat, r: nat, c: nat, y: nat, x: nat, planes: seq<byte>,
                 before: seq<Pixel>)
    requires IsImage(image, w, h) && y < h && x < w && HasParity(y, r) && HasParity(x, c)
    requires Filled(image, w, h, planes, before + Scanned(w, r, c, y, x))
    ensures |Scanned(w, r, c, y, x)| < |PlaneUpTo(w, r, c, h)|
            && |Scanned(w, r, c, y, x + 2)| == |Scanned(w, r, c, y, x)| + 1
    ensures Rank(w, Pixel(y, x)) < |image|
    ensures Filled(image, w, h, planes + [image[Rank(w, Pixel(y, x))]], before + Scanned(w, r, c, y, x + 2))
  {
    hide Filled, Scanned, PlaneUpTo;
    ScanLeavesRoom(w, h, r, c, y, x);
    ScanSteps(w, r, c, y, x);
    FilledMore(image, w, h, planes, before + Scanned(w, r, c, y, x), Pixel(y, x));
    assert before + Scanned(w, r, c, y, x) + [Pixel(y, x)] == before + Scanned(w, r, c, y, x + 2);
  }

  /** The inner loop of splitBayerImage: one row of a plane. */
  method SplitRow(image: seq<byte>, w: nat, h: nat, r: nat, c: nat, y: nat, output: array<byte>, start: nat,
                  ghost before: seq<Pixel>)
    returns (offset: nat)
    requires IsImage(image, w, h) && c < 2 && y < h && HasParity(y, r)
    requires start == |before| + |PlaneUpTo(w, r, c, y)| && |before| + |PlaneUpTo(w, r, c, h)| <= output.Length
    requires start <= output.Length && Filled(image, w, h, output[..start], before + PlaneUpTo(w, r, c, y))
    modifies output
    ensures offset == |before| + |PlaneUpTo(w, r, c, y + 2)| <= output.Length
    ensures Filled(image, w, h, output[..offset], before + PlaneUpTo(w, r, c, y + 2))
  {
    hide Filled, PlaneUpTo, RowUpTo, Scanned, HasParity, Rank, IsImage;
    offset := start;
    var x: nat := c;
    RowStarts(w, r, c, y);
    while x < w
      invariant x <= w + 1 && HasParity(x, c)
      invariant offset == |before| + |Scanned(w, r, c, y, x)| <= output.Length
      invariant Filled(image, w, h, output[..offset], before + Scanned(w, r, c, y, x))
    {
      ghost var planes := output[..offset];
      ScanNext(image, w, h, r, c, y, x, planes, before);
      var value := image[Rank(w, Pixel(y, x))];
      output[offset] := value;
      assert output[..offset + 1] == planes + [value];
      offset := offset + 1;
      ParityNext(x, c);
      x := x + 2;
    }
    RowEnds(w, r, c, y, x);
  }

  method SplitPlane(image: seq<byte>, w: nat, h: nat, r: nat, c: nat, output: array<byte>, start: nat,
                    ghost before: seq<Pixel>)
    returns (offset: nat)
    requires IsImage(image, w, h) && r < 2 && c < 2
    requires start == |before| && start + |PlaneUpTo(w, r, c, h)| <= output.Length
    requires Filled(image, w, h, output[..start], before)
    modifies output
    ensures offset == start + |PlaneUpTo(w, r, c, h)|
    ensures Filled(image, w, h, output[..offset], before + PlaneUpTo(w, r, c, h))
  {
    hide Filled, PlaneUpTo, RowUpTo, HasParity, IsImage;
    offset := start;
    var y: nat := r;
    PlaneStarts(w, r, c, before);
    while y < h
      invariant y <= h + 1 && HasParity(y, r)
      invariant offset == start + |PlaneUpTo(w, r, c, y)| <= output.Length
      invariant Filled(image, w, h, output[..offset], before + PlaneUpTo(w, r, c, y))
    {
      offset := SplitRow(image, w, h, r, c, y, output, offset, before);
      ParityNext(y, r);
      y := y + 2;
    }
    PlaneEnds(w, r, c, h, y);
  }

  lemma PlaneStarts(w: nat, r: nat, c: nat, before: seq<Pixel>)
    requires r < 2
    ensures HasParity(r, r) && |PlaneUpTo(w, r, c, r)| == 0 && before + PlaneUpTo(w, r, c, r) == before
  {
  }

  lemma RowStarts(w: nat, r: nat, c: nat, y: nat)
    requires c < 2
    ensures HasParity(c, c) && Scanned(w, r, c, y, c) == PlaneUpTo(w, r, c, y)
  {
    assert RowUpTo(y, c, c) == [];
  }

  lemma RowEnds(w: nat, r: nat, c: nat, y: nat, x: nat)
    requires w <= x <= w + 1 && HasParity(x, c) && HasParity(y, r)
    ensures Scanned(w, r, c, y, x) == PlaneUpTo(w, r, c, y + 2)
  {
    if x == w + 1 { assert RowUpTo(y, c, x) == RowUpTo(y, c, w); }
  }

  lemma PlaneEnds(w: nat, r: nat, c: nat, h: nat, y: nat)
    requires h <= y <= h + 1 && HasParity(y, r)
    ensures PlaneUpTo(w, r, c, y) == PlaneUpTo(w, r, c, h)
  {
  }

  /** splitBayerImage. */
  method SplitBayerImage(image: seq<byte>, w: nat, h: nat) returns (output: array<byte>)
    requires IsImage(image, w, h)
    ensures fresh(output) && output[..] == Split(image, w, h)
  {
    output := new byte[h * w];
    hide PlaneUpTo;
    OrderFillsImage(w, h);
    assert Filled(image, w, h, output[..0], []);
    hide Filled;
    var r := SplitPlane(image, w, h, 0, 0, output, 0, []);
    assert [] + PlaneUpTo(w, 0, 0, h) == PlaneUpTo(w, 0, 0, h);
    var g := SplitPlane(image, w, h, 0, 1, output, r, PlaneUpTo(w, 0, 0, h));
    var g' := SplitPlane(image, w, h, 1, 0, output, g, PlaneUpTo(w, 0, 0, h) + PlaneUpTo(w, 0, 1, h));
    var b := SplitPlane(image, w, h, 1, 1, output, g',
                        PlaneUpTo(w, 0, 0, h) + PlaneUpTo(w, 0, 1, h) + PlaneUpTo(w, 1, 0, h));
    assert output[..b] == output[..];
    FilledIsSplit(image, w, h, output[..]);
  }

  lemma FilledIsSplit(image: seq<byte>, w: nat, h: nat, planes: seq<byte>)
    requires IsImage(image, w, h) && Filled(image, w, h, planes, Order(w, h))
    ensures planes == Split(image, w, h)
  {
    hide Order;
  }

  /** C's remainder, which takes the sign of its left operand. */
  function CRemainder(a: int, m: nat): int
    requires m > 0
  {
    if a >= 0 then a % m else -((-a) % m)
  }

  /** Conversion to uint8_t. */
  function ToByte(a: int): byte { a % 256 }

  method ComputeDifferences(input: seq<byte>) returns (output: array<byte>)
    requires |input| > 0
    ensures fresh(output) && output[..] == Differences(input, 256)
  {
    hide Differences, CRemainder, ToByte;
    output := new byte[|input|];
    output[0] := input[0];
    FirstDifference(input);
    for i := 1 to |input|
      invariant output[..i] == Differences(input, 256)[..i]
    {
      output[i] := ToByte(CRemainder(input[i] as int - input[i - 1] as int, 256));
      RemainderIsDifference(input, i);
    }
  }

  lemma FirstDifference(s: seq<byte>)
    requires s != []
    ensures Differences(s, 256)[0] == s[0]
  {
  }

  lemma RemainderIsDifference(s: seq<byte>, i: nat)
    requires 0 < i < |s|
    ensures Differences(s, 256)[i] == ToByte(CRemainder(s[i] as int - s[i - 1] as int, 256))
  {
    ByteOfRemainder(s[i] as int - s[i - 1] as int);
    hide CRemainder, ToByte;
  }

  lemma ByteOfRemainder(a: int)
    ensures ToByte(CRemainder(a, 256)) == a % 256
  {
    if a >= 0 {
      Small(a % 256, 256);
    } else {
      var q, r := (-a) / 256, (-a) % 256;
      assert a == -q * 256 - r;
      hide CRemainder;
      assert CRemainder(a, 256) == -r by { CRemainderOfNegative(a); }
      if r == 0 {
        Divide(a, 256, -q, 0);
        Small(0, 256);
      } else {
        Divide(a, 256, -q - 1, 256 - r);
        Divide(-r, 256, -1, 256 - r);
      }
    }
  }

  lemma CRemainderOfNegative(a: int)
    requires a < 0
    ensures CRemainder(a, 256) == -((-a) % 256)
  {
  }

  /** What the encoder hands to zstd. */
  ghost function Encoded(image: seq<byte>, w: nat, h: nat): (content: seq<byte>)
    requires IsImage(image, w, h)
    ensures |content| == |image|
  {
    Differences(Split(image, w, h), 256)
  }

  method CompressBayerImage(compress: Compressor, image: seq<byte>, w: nat, h: nat) returns (data: Option<seq<byte>>)
    requires IsImage(image, w, h) && image != []
    ensures data == compress(Encoded(image, w, h))
  {
    var planes := SplitBayerImage(image, w, h);
    var differences := ComputeDifferences(planes[..]);
    data := compress(differences[..]);
  }

  // ------------------------------------------------------------------ the decoder

  /** None of the pixels lies in the plane that starts at row r and column c. */
  ghost predicate Avoids(pixels: seq<Pixel>, r: nat, c: nat) {
    forall q :: q in pixels ==> !(HasParity(q.y, r) && HasParity(q.x, c))
  }

  lemma RankIsNew(image: seq<byte>, w: nat, h: nat, planes: seq<byte>, pixels: seq<Pixel>, q: Pixel, value: byte)
    requires IsImage(image, w, h) && Filled(image, w, h, planes, pixels) && InGrid(w, h, q) && q !in pixels
    ensures Rank(w, q) < |image|
    ensures Filled(image[Rank(w, q) := value], w, h, planes, pixels)
  {
    RankInImage(w, h, q);
    var written := image[Rank(w, q) := value];
    forall k: nat | k < |pixels|
      ensures Picked(written, w, h, pixels)[k] == planes[k]
    {
      var p := pixels[k];
      assert p in pixels;
      RankInImage(w, h, p);
      if Rank(w, p) == Rank(w, q) { RankIsInjective(w, p, q); }
      assert written[Rank(w, p)] == image[Rank(w, p)];
      assert Picked(image, w, h, pixels)[k] == image[Rank(w, p)];
    }
  }

  /** Writing the next pixel of a plane keeps the pixels written before. */
  lemma WriteNext(image: seq<byte>, w: nat, h: nat, r: nat, c: nat, y: nat, x: nat, planes: seq<byte>,
                  before: seq<Pixel>, value: byte)
    requires IsImage(image, w, h) && y < h && x < w && HasParity(y, r) && HasParity(x, c) && Avoids(before, r, c)
    requires Filled(image, w, h, planes, before + Scanned(w, r, c, y, x))
    ensures |Scanned(w, r, c, y, x)| < |PlaneUpTo(w, r, c, h)|
            && |Scanned(w, r, c, y, x + 2)| == |Scanned(w, r, c, y, x)| + 1
    ensures Rank(w, Pixel(y, x)) < |image|
    ensures Filled(image[Rank(w, Pixel(y, x)) := value], w, h, planes + [value], before + Scanned(w, r, c, y, x + 2))
  {
    var q := Pixel(y, x);
    InPlane(w, r, c, y, q);
    InRow(y, c, x, q);
    hide Filled, HasParity;
    RankIsNew(image, w, h, planes, before + Scanned(w, r, c, y, x), q, value);
    ScanNext(image[Rank(w, q) := value], w, h, r, c, y, x, planes, before);
  }

  method MergeRow(planes: seq<byte>, w: nat, h: nat, r: nat, c: nat, y: nat, image: array<byte>, start: nat,
                  ghost before: seq<Pixel>)
    returns (offset: nat)
    requires IsImage(image[..], w, h) && c < 2 && y < h && HasParity(y, r) && Avoids(before, r, c)
    requires start == |before| + |PlaneUpTo(w, r, c, y)| && |before| + |PlaneUpTo(w, r, c, h)| <= |planes|
    requires start <= |planes| && Filled(image[..], w, h, planes[..start], before + PlaneUpTo(w, r, c, y))
    modifies image
    ensures offset == |before| + |PlaneUpTo(w, r, c, y + 2)| <= |planes|
    ensures IsImage(image[..], w, h) && Filled(image[..], w, h, planes[..offset], before + PlaneUpTo(w, r, c, y + 2))
  {
    hide Filled, PlaneUpTo, RowUpTo, Scanned, HasParity, Avoids, Rank;
    offset := start;
    var x: nat := c;
    RowStarts(w, r, c, y);
    while x < w
      invariant x <= w + 1 && HasParity(x, c) && IsImage(image[..], w, h)
      invariant offset == |before| + |Scanned(w, r, c, y, x)| <= |planes|
      invariant Filled(image[..], w, h, planes[..offset], before + Scanned(w, r, c, y, x))
    {
      ScanLeavesRoom(w, h, r, c, y, x);
      WriteNext(image[..], w, h, r, c, y, x, planes[..offset], before, planes[offset]);
      ghost var written := image[..][Rank(w, Pixel(y, x)) := planes[offset]];
      image[Rank(w, Pixel(y, x))] := planes[offset];
      assert image[..] == written && planes[..offset + 1] == planes[..offset] + [planes[offset]];
      offset := offset + 1;
      ParityNext(x, c);
      x := x + 2;
    }
    RowEnds(w, r, c, y, x);
  }

  method MergePlane(planes: seq<byte>, w: nat, h: nat, r: nat, c: nat, image: array<byte>, start: nat,
                    ghost before: seq<Pixel>)
    returns (offset: nat)
    requires IsImage(image[..], w, h) && r < 2 && c < 2 && Avoids(before, r, c)
    requires start == |before| && start + |PlaneUpTo(w, r, c, h)| <= |planes|
    requires Filled(image[..], w, h, planes[..start], before)
    modifies image
    ensures offset == start + |PlaneUpTo(w, r, c, h)|
    ensures IsImage(image[..], w, h) && Filled(image[..], w, h, planes[..offset], before + PlaneUpTo(w, r, c, h))
  {
    hide Filled, PlaneUpTo, RowUpTo, HasParity, Avoids;
    offset := start;
    var y: nat := r;
    PlaneStarts(w, r, c, before);
    while y < h
      invariant y <= h + 1 && HasParity(y, r) && IsImage(image[..], w, h)
      invariant offset == start + |PlaneUpTo(w, r, c, y)| <= |planes|
      invariant Filled(image[..], w, h, planes[..offset], before + PlaneUpTo(w, r, c, y))
    {
      offset := MergeRow(planes, w, h, r, c, y, image, offset, before);
      ParityNext(y, r);
      y := y + 2;
    }
    PlaneEnds(w, r, c, h, y);
  }

  lemma PlaneAvoids(w: nat, h: nat, r: nat, c: nat, r': nat, c': nat)
    requires r != r' || c != c'
    ensures Avoids(PlaneUpTo(w, r, c, h), r', c')
  {
    forall q | q in PlaneUpTo(w, r, c, h)
      ensures !(HasParity(q.y, r') && HasParity(q.x, c'))
    {
      InPlane(w, r, c, h, q);
    }
  }

  /** Puts the planes back: afterwards they are what splitting the image gives. */
  method MergePlanes(planes: seq<byte>, w: nat, h: nat) returns (image: array<byte>)
    requires IsImage(planes, w, h)
    ensures fresh(image) && IsImage(image[..], w, h) && Split(image[..], w, h) == planes
  {
    image := new byte[h * w];
    ghost var p, q, s := PlaneUpTo(w, 0, 0, h), PlaneUpTo(w, 0, 1, h), PlaneUpTo(w, 1, 0, h);
    OrderFillsImage(w, h);
    PlaneAvoids(w, h, 0, 0, 0, 1);
    PlaneAvoids(w, h, 0, 0, 1, 0);
    PlaneAvoids(w, h, 0, 0, 1, 1);
    PlaneAvoids(w, h, 0, 1, 1, 0);
    PlaneAvoids(w, h, 0, 1, 1, 1);
    PlaneAvoids(w, h, 1, 0, 1, 1);
    assert Filled(image[..], w, h, planes[..0], []);
    hide PlaneUpTo, HasParity, Filled;
    assert [] + p == p;
    var offset := MergePlane(planes, w, h, 0, 0, image, 0, []);
    offset := MergePlane(planes, w, h, 0, 1, image, offset, p);
    offset := MergePlane(planes, w, h, 1, 0, image, offset, p + q);
    offset := MergePlane(planes, w, h, 1, 1, image, offset, p + q + s);
    assert planes[..offset] == planes;
    FilledIsSplit(image[..], w, h, planes);
  }

  /** Decoding: an error, or the image whose planes are the sums of the decompressed differences. */
  ghost predicate Decodes(decompress: Compressor, data: seq<byte>, w: nat, h: nat, r: Result<seq<byte>>) {
    match Decompressed(decompress, data, h * w)
    case Err => r == Err
    case Ok(content) => r.Ok? && IsImage(r.value, w, h) && Split(r.value, w, h) == Sums(content, 256)
  }

  method DecodeBayer(decompress: Compressor, data: seq<byte>, w: nat, h: nat) returns (r: Result<seq<byte>>)
    ensures Decodes(decompress, data, w, h, r)
  {
    var content := Decompressed(decompress, data, h * w);
    if content.Err? { return Err; }
    var image := MergePlanes(Sums(content.value, 256), w, h);
    return Ok(image[..]);
  }

  // ------------------------------------------------------------------ round trip

  /** Decoding an encoded image gives it back exactly when it is within the decoder's size bound. */
  lemma BayerRoundTrip(compress: Compressor, decompress: Compressor, image: seq<byte>, w: nat, h: nat, data: seq<byte>,
                       r: Result<seq<byte>>)
    requires Inverse(compress, decompress) && IsImage(image, w, h) && image != []
    requires compress(Encoded(image, w, h)) == Some(data) && Decodes(decompress, data, w, h, r)
    ensures r == if h * w <= MAX_FRAME_BYTES then Ok(image) else Err
  {
    var planes := Split(image, w, h);
    hide Split;
    assert Words(planes, 256);
    SumsUndoDifferences(planes, 256);
    DecompressedIff(compress, decompress, Encoded(image, w, h), data);
    if h * w <= MAX_FRAME_BYTES { SplitIsInjective(image, r.value, w, h); }
  }

  /** One pixel too many: a black image the encoder writes and the decoder refuses. */
  lemma OversizedImageIsRefused(compress: Compressor, decompress: Compressor, data: seq<byte>, r: Result<seq<byte>>)
    requires Inverse(compress, decompress)
    requires var w := MAX_FRAME_BYTES + 1;
             compress(Encoded(seq(w, _ => 0), w, 1)) == Some(data) && Decodes(decompress, data, w, 1, r)
    ensures r == Err
  {
    hide Encoded, Decodes;
    var w := MAX_FRAME_BYTES + 1;
    BayerRoundTrip(compress, decompress, seq(w, _ => 0), w, 1, data, r);
  }
}

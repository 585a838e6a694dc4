/** The map-image compiler (tools/mapbuilder.py): turns a PNG whose pixels encode terrain,
    the start pose and breadcrumb routes into the width, height, cell grid and routes of a
    game map. */
module MapBuilder {
  import opened Wrappers

  // ---------------------------------------------------------------------------------------
  // Colours

  /** A pixel colour as `rgba_to_int` packs it: alpha in bits 24-31, red in 16-23,
      green in 8-15 and blue in 0-7. */
  type Colour = bv32

  /** One channel of an `[R, G, B, A]` pixel vector. */
  type Byte = bv8

  /** `int_to_rgba`: byte n of the vector is bits `8*k` of the colour, for k in [2, 1, 0, 3]. */
  function IntToRgba(colour: Colour): (rgba: seq<Byte>)
    ensures |rgba| == 4
  {
    [ ((colour >> 16) & 0xFF) as Byte,
      ((colour >> 8) & 0xFF) as Byte,
      (colour & 0xFF) as Byte,
      ((colour >> 24) & 0xFF) as Byte ]
  }

  /** `rgba_to_int`: the sum of `rgba[n] << 8*i` for (i, n) in enumerate([2, 1, 0, 3]). */
  function RgbaToInt(rgba: seq<Byte>): Colour
    requires |rgba| == 4
  {
    (rgba[2] as Colour)
    + ((rgba[1] as Colour) << 8)
    + ((rgba[0] as Colour) << 16)
    + ((rgba[3] as Colour) << 24)
  }

  lemma ColourRoundTrip(colour: Colour)
    ensures RgbaToInt(IntToRgba(colour)) == colour
  {
  }

  lemma RgbaRoundTrip(rgba: seq<Byte>)
    requires |rgba| == 4
    ensures IntToRgba(RgbaToInt(rgba)) == rgba
  {
    var c := RgbaToInt(rgba);
    assert IntToRgba(c)[0] == rgba[0] && IntToRgba(c)[1] == rgba[1];
    assert IntToRgba(c)[2] == rgba[2] && IntToRgba(c)[3] == rgba[3];
  }

  /** The byte layout is ARGB in the integer and [R, G, B, A] in the vector. */
  lemma ByteLayoutExamples()
    ensures IntToRgba(0xFF000000) == [0, 0, 0, 255] && RgbaToInt([0, 0, 0, 255]) == 0xFF000000
    ensures IntToRgba(0x00FF0000) == [255, 0, 0, 0] && RgbaToInt([255, 0, 0, 0]) == 0x00FF0000
    ensures IntToRgba(0x0000FF00) == [0, 255, 0, 0] && RgbaToInt([0, 255, 0, 0]) == 0x0000FF00
    ensures IntToRgba(0x000000FF) == [0, 0, 255, 0] && RgbaToInt([0, 0, 255, 0]) == 0x000000FF
  {
  }

  // Marker and terrain colours of `MapPng`.
  const Start: Colour := 0xFF00FF00
  const StartLookAt: Colour := 0xFF008800
  const BreadcrumbMask: Colour := 0xFF0000FF
  const TerrainColour: Colour := 0xFF000000
  const FinishColour: Colour := 0xFFFF0000
  const InterferenceColour: Colour := 0xFFFFFF00

  /** `(colour >> 8) & 0xFF`, the green byte. */
  function Green(colour: Colour): Colour
  {
    (colour >> 8) & 0xFF
  }

  /** `MapPng.is_breadcrumb`. */
  predicate IsBreadcrumb(colour: Colour)
  {
    colour & BreadcrumbMask == BreadcrumbMask
  }

  /** A breadcrumb is any colour whose alpha and blue bytes are both 0xFF. */
  lemma BreadcrumbIffAlphaAndBlue(colour: Colour)
    ensures IsBreadcrumb(colour) <==> IntToRgba(colour)[3] == 0xFF && IntToRgba(colour)[2] == 0xFF
  {
  }

  // ---------------------------------------------------------------------------------------
  // The image

  /** A pixel position `[x, y]`. */
  datatype Point = Point(x: int, y: int)

  /** `MapPng`: `data[x][y]` is the colour of column x, row y (the image transposed on load). */
  datatype MapPng = MapPng(data: seq<seq<Colour>>)

  /** A non-empty rectangular image, as `MapPng.load` produces. */
  predicate Valid(m: MapPng)
  {
    |m.data| > 0 && forall x :: 0 <= x < |m.data| ==> |m.data[x]| == |m.data[0]|
  }

  function Width(m: MapPng): nat
  {
    |m.data|
  }

  function Height(m: MapPng): nat
    requires Valid(m)
  {
    |m.data[0]|
  }

  predicate InBounds(m: MapPng, p: Point)
    requires Valid(m)
  {
    0 <= p.x < Width(m) && 0 <= p.y < Height(m)
  }

  function Pixel(m: MapPng, p: Point): Colour
    requires Valid(m) && InBounds(m, p)
  {
    m.data[p.x][p.y]
  }

  /** The order in which numpy's `where` lists the matches of a 2-d array: x outer, y inner. */
  predicate XMajorBefore(p: Point, q: Point)
  {
    p.x < q.x || (p.x == q.x && p.y < q.y)
  }

  /** `data == pixel`, or `(data & mask) == pixel` when a mask is given. */
  predicate Matches(m: MapPng, p: Point, pixel: Colour, mask: Option<Colour>)
    requires Valid(m) && InBounds(m, p)
  {
    (if mask.None? then Pixel(m, p) else Pixel(m, p) & mask.value) == pixel
  }

  /** The matches in column x from row y down. */
  function ColumnMatches(m: MapPng, pixel: Colour, mask: Option<Colour>, x: nat, y: nat): (r: seq<Point>)
    requires Valid(m) && x < Width(m) && y <= Height(m)
    ensures forall i :: 0 <= i < |r| ==>
      r[i].x == x && y <= r[i].y < Height(m) && Matches(m, r[i], pixel, mask)
    ensures forall yy :: y <= yy < Height(m) && Matches(m, Point(x, yy), pixel, mask) ==> Point(x, yy) in r
    ensures forall i, j :: 0 <= i < j < |r| ==> r[i].y < r[j].y
    decreases Height(m) - y
  {
    if y == Height(m) then []
    else (if Matches(m, Point(x, y), pixel, mask) then [Point(x, y)] else [])
         + ColumnMatches(m, pixel, mask, x, y + 1)
  }

  /** The matches in columns x and beyond. */
  function MatchesFrom(m: MapPng, pixel: Colour, mask: Option<Colour>, x: nat): (r: seq<Point>)
    requires Valid(m) && x <= Width(m)
    ensures forall i :: 0 <= i < |r| ==> x <= r[i].x && InBounds(m, r[i]) && Matches(m, r[i], pixel, mask)
    ensures forall p :: InBounds(m, p) && x <= p.x && Matches(m, p, pixel, mask) ==> p in r
    ensures forall i, j :: 0 <= i < j < |r| ==> XMajorBefore(r[i], r[j])
    decreases Width(m) - x
  {
    if x == Width(m) then []
    else
      var col := ColumnMatches(m, pixel, mask, x, 0);
      var rest := MatchesFrom(m, pixel, mask, x + 1);
      assert forall p :: InBounds(m, p) && x == p.x && Matches(m, p, pixel, mask) ==> p == Point(x, p.y);
      col + rest
  }

  /** `find_pixels`: every matching position exactly once, in x-major order. */
  function FindPixels(m: MapPng, pixel: Colour, mask: Option<Colour>): (r: seq<Point>)
    requires Valid(m)
    ensures forall p :: p in r <==> InBounds(m, p) && Matches(m, p, pixel, mask)
    ensures forall i, j :: 0 <= i < j < |r| ==> XMajorBefore(r[i], r[j])
  {
    MatchesFrom(m, pixel, mask, 0)
  }

  // ---------------------------------------------------------------------------------------
  // Errors the compiler raises

  datatype MapError =
    | StartCount(found: nat)              // find_start: not exactly one START pixel
    | StartLookAtCount(found: nat)        // find_start_look_at: not exactly one START_LOOK_AT pixel
    | NoBreadcrumbs                       // find_breadcrumbs: no breadcrumb pixel at all
    | BadGreen(colour: Colour)            // filter_breadcrumbs: green byte not 0x00, 0x88 or 0xFF
    | IndexOutOfRange(x: int, y: int)     // numpy IndexError in get_neighbour_colour
    | AmbiguousColour(x: int, y: int)     // get_neighbour_colour: tie for the most common colour
    | BadPixel(colour: Colour, x: int, y: int) // get_cell: unknown colour
    | UndefinedAttribute(name: string)    // AttributeError while formatting an error message

  // ---------------------------------------------------------------------------------------
  // Start pose

  /** `p` is the one and only pixel of this colour. */
  ghost predicate OnlyPixel(m: MapPng, colour: Colour, p: Point)
    requires Valid(m)
  {
    InBounds(m, p) && Pixel(m, p) == colour
    && forall q :: InBounds(m, q) && Pixel(m, q) == colour ==> q == p
  }

  /** `find_start`. */
  function FindStart(m: MapPng): Result<Point, MapError>
    requires Valid(m)
  {
    var starts := FindPixels(m, Start, None);
    if |starts| != 1 then Failure(StartCount(|starts|)) else Success(starts[0])
  }

  /** `find_start_look_at`. */
  function FindStartLookAt(m: MapPng): Result<Point, MapError>
    requires Valid(m)
  {
    var lookAt := FindPixels(m, StartLookAt, None);
    if |lookAt| != 1 then Failure(StartLookAtCount(|lookAt|)) else Success(lookAt[0])
  }

  /** The search for a marker finds exactly `[p]` iff p is the only pixel of that colour. */
  lemma {:induction false} SingleMatch(m: MapPng, colour: Colour, p: Point)
    requires Valid(m)
    ensures FindPixels(m, colour, None) == [p] <==> OnlyPixel(m, colour, p)
  {
    var found := FindPixels(m, colour, None);
    if OnlyPixel(m, colour, p) {
      assert p in found;
      forall i | 0 <= i < |found| ensures found[i] == p {
        assert found[i] in found;
      }
      assert |found| >= 2 ==> XMajorBefore(found[0], found[1]);
      assert found == [p];
    }
  }

  /** `find_start` succeeds with p exactly when p is the only START pixel; otherwise it raises. */
  lemma FindStartExactlyOne(m: MapPng, p: Point)
    requires Valid(m)
    ensures FindStart(m) == Success(p) <==> OnlyPixel(m, Start, p)
  {
    SingleMatch(m, Start, p);
  }

  /** `find_start_look_at` succeeds with p exactly when p is the only START_LOOK_AT pixel. */
  lemma FindStartLookAtExactlyOne(m: MapPng, p: Point)
    requires Valid(m)
    ensures FindStartLookAt(m) == Success(p) <==> OnlyPixel(m, StartLookAt, p)
  {
    SingleMatch(m, StartLookAt, p);
  }

  // ---------------------------------------------------------------------------------------
  // Breadcrumbs

  /** `find_breadcrumbs`: every breadcrumb pixel in x-major order; raises when there is none. */
  function FindBreadcrumbs(m: MapPng): (r: Result<seq<Point>, MapError>)
    requires Valid(m)
    ensures r.Success? ==> AllInBounds(m, r.value)
  {
    var crumbs := FindPixels(m, BreadcrumbMask, Some(BreadcrumbMask));
    if |crumbs| == 0 then Failure(NoBreadcrumbs) else Success(crumbs)
  }

  /** `find_breadcrumbs` as written: the message of its ValueError names `self.BREADCRUMB`,
      which `MapPng` does not define, so the AttributeError from formatting it is what escapes. */
  function FindBreadcrumbsAsWritten(m: MapPng): (r: Result<seq<Point>, MapError>)
    requires Valid(m)
    ensures r.Success? <==> FindBreadcrumbs(m).Success?
    ensures r.Success? ==> r == FindBreadcrumbs(m)
  {
    var crumbs := FindPixels(m, BreadcrumbMask, Some(BreadcrumbMask));
    if |crumbs| == 0 then Failure(UndefinedAttribute("BREADCRUMB")) else Success(crumbs)
  }

  /** A 1x1 blank map has no breadcrumb: the code as written raises AttributeError, not the
      ValueError it was written to raise. */
  lemma MissingBreadcrumbRaisesAttributeError()
    ensures FindBreadcrumbsAsWritten(MapPng([[0]])) == Failure(UndefinedAttribute("BREADCRUMB"))
    ensures FindBreadcrumbs(MapPng([[0]])) == Failure(NoBreadcrumbs)
  {
    var m := MapPng([[0]]);
    FindBreadcrumbsMeaning(m);
    assert !IsBreadcrumb(Pixel(m, Point(0, 0)));
    assert forall q :: q in FindPixels(m, BreadcrumbMask, Some(BreadcrumbMask)) ==> q == Point(0, 0);
  }

  lemma FindBreadcrumbsMeaning(m: MapPng)
    requires Valid(m)
    ensures FindBreadcrumbs(m).Failure? ==>
      forall p :: InBounds(m, p) ==> !IsBreadcrumb(Pixel(m, p))
    ensures FindBreadcrumbs(m).Success? ==> |FindBreadcrumbs(m).value| > 0
    ensures FindBreadcrumbs(m).Success? ==>
      forall p :: p in FindBreadcrumbs(m).value <==> InBounds(m, p) && IsBreadcrumb(Pixel(m, p))
  {
    var crumbs := FindPixels(m, BreadcrumbMask, Some(BreadcrumbMask));
    forall p | InBounds(m, p)
      ensures Matches(m, p, BreadcrumbMask, Some(BreadcrumbMask)) == IsBreadcrumb(Pixel(m, p))
    {
    }
    forall p
      ensures p in crumbs <==> InBounds(m, p) && IsBreadcrumb(Pixel(m, p))
    {
    }
  }

  /** The green byte the route keeps besides 0xFF: 0x88 for the alternative route, else 0x00. */
  function SelectedGreen(alternative: bool): Colour
  {
    if alternative then 0x88 else 0x00
  }

  predicate ValidGreen(green: Colour)
  {
    green == 0x00 || green == 0x88 || green == 0xFF
  }

  predicate Kept(green: Colour, alternative: bool)
  {
    green == 0xFF || green == SelectedGreen(alternative)
  }

  predicate AllInBounds(m: MapPng, points: seq<Point>)
    requires Valid(m)
  {
    forall i :: 0 <= i < |points| ==> InBounds(m, points[i])
  }

  /** The breadcrumb at p has a green byte the route builder accepts / keeps. */
  predicate GreenValidAt(m: MapPng, p: Point)
    requires Valid(m) && InBounds(m, p)
  {
    ValidGreen(Green(Pixel(m, p)))
  }

  predicate KeptAt(m: MapPng, p: Point, alternative: bool)
    requires Valid(m) && InBounds(m, p)
  {
    Kept(Green(Pixel(m, p)), alternative)
  }

  /** What `filter_breadcrumbs` returns or raises for the first |crumbs| breadcrumbs. */
  function Filtered(m: MapPng, crumbs: seq<Point>, alternative: bool): Result<seq<Point>, MapError>
    requires Valid(m) && AllInBounds(m, crumbs)
    decreases |crumbs|
  {
    if crumbs == [] then Success([])
    else
      var last := crumbs[|crumbs| - 1];
      var kept :- Filtered(m, crumbs[..|crumbs| - 1], alternative);
      if !GreenValidAt(m, last) then Failure(BadGreen(Pixel(m, last)))
      else Success(kept + if KeptAt(m, last, alternative) then [last] else [])
  }

  /** `r` is `s` with some elements left out, order kept. */
  predicate IsSubsequence<T(==)>(r: seq<T>, s: seq<T>)
    decreases |s|
  {
    if r == [] then true
    else if |s| < |r| then false
    else if r[|r| - 1] == s[|s| - 1] then IsSubsequence(r[..|r| - 1], s[..|s| - 1])
    else IsSubsequence(r, s[..|s| - 1])
  }

  lemma {:induction false} SubsequenceExtend<T>(r: seq<T>, s: seq<T>, x: T)
    requires IsSubsequence(r, s)
    ensures IsSubsequence(r, s + [x]) && IsSubsequence(r + [x], s + [x])
    decreases |s|, 1
  {
    assert (r + [x])[..|r|] == r;
    assert (s + [x])[..|s|] == s;
    if r != [] && r[|r| - 1] == x {
      SubsequenceDropLast(r, s);
    }
  }

  lemma {:induction false} SubsequenceDropLast<T>(r: seq<T>, s: seq<T>)
    requires r != [] && IsSubsequence(r, s)
    ensures IsSubsequence(r[..|r| - 1], s)
    decreases |s|, 0
  {
    var init := r[..|r| - 1];
    if init == [] {
    } else if r[|r| - 1] == s[|s| - 1] {
      SubsequenceExtend(init, s[..|s| - 1], s[|s| - 1]);
      assert s[..|s| - 1] + [s[|s| - 1]] == s;
    } else {
      SubsequenceDropLast(r, s[..|s| - 1]);
      SubsequenceExtend(init, s[..|s| - 1], s[|s| - 1]);
      assert s[..|s| - 1] + [s[|s| - 1]] == s;
    }
  }

  /** `filter_breadcrumbs` raises exactly when some breadcrumb's green byte is not 0x00, 0x88
      or 0xFF, and then with the colour of the first such breadcrumb. */
  lemma {:induction false} FilteredFailure(m: MapPng, crumbs: seq<Point>, alternative: bool)
    requires Valid(m) && AllInBounds(m, crumbs)
    ensures Filtered(m, crumbs, alternative).Failure? <==>
      exists i :: 0 <= i < |crumbs| && !GreenValidAt(m, crumbs[i])
    ensures Filtered(m, crumbs, alternative).Failure? ==>
      exists i :: 0 <= i < |crumbs| && !GreenValidAt(m, crumbs[i])
        && (forall j :: 0 <= j < i ==> GreenValidAt(m, crumbs[j]))
        && Filtered(m, crumbs, alternative).error == BadGreen(Pixel(m, crumbs[i]))
    decreases |crumbs|
  {
    if crumbs != [] {
      var init := crumbs[..|crumbs| - 1];
      var last := crumbs[|crumbs| - 1];
      assert forall j :: 0 <= j < |init| ==> crumbs[j] == init[j];
      FilteredFailure(m, init, alternative);
      if Filtered(m, init, alternative).Failure? {
        var i :| 0 <= i < |init| && !GreenValidAt(m, init[i])
          && (forall j :: 0 <= j < i ==> GreenValidAt(m, init[j]))
          && Filtered(m, init, alternative).error == BadGreen(Pixel(m, init[i]));
        assert crumbs[i] == init[i];
      } else {
        assert forall j :: 0 <= j < |init| ==> GreenValidAt(m, crumbs[j]);
      }
    }
  }

  /** When `filter_breadcrumbs` returns, its result lists breadcrumbs of the input, in input
      order, each with green byte 0xFF or the selected one. */
  lemma {:induction false} FilteredIsSubsequence(m: MapPng, crumbs: seq<Point>, alternative: bool)
    requires Valid(m) && AllInBounds(m, crumbs)
    requires Filtered(m, crumbs, alternative).Success?
    ensures var kept := Filtered(m, crumbs, alternative).value;
      && IsSubsequence(kept, crumbs)
      && forall i :: 0 <= i < |kept| ==> kept[i] in crumbs && KeptAt(m, kept[i], alternative)
    decreases |crumbs|
  {
    if crumbs != [] {
      var init := crumbs[..|crumbs| - 1];
      var last := crumbs[|crumbs| - 1];
      assert crumbs == init + [last];
      assert AllInBounds(m, init);
      FilteredIsSubsequence(m, init, alternative);
      var kept := Filtered(m, init, alternative).value;
      SubsequenceExtend(kept, init, last);
      if KeptAt(m, last, alternative) {
        assert Filtered(m, crumbs, alternative).value == kept + [last];
      } else {
        assert Filtered(m, crumbs, alternative).value == kept;
      }
    }
  }

  /** ... and it keeps every such breadcrumb, as often as the input holds it. */
  lemma {:induction false} FilteredKeepsAll(m: MapPng, crumbs: seq<Point>, alternative: bool)
    requires Valid(m) && AllInBounds(m, crumbs)
    requires Filtered(m, crumbs, alternative).Success?
    ensures var kept := Filtered(m, crumbs, alternative).value;
      forall i :: 0 <= i < |crumbs| ==>
        multiset(kept)[crumbs[i]] == if KeptAt(m, crumbs[i], alternative) then multiset(crumbs)[crumbs[i]] else 0
    decreases |crumbs|
  {
    if crumbs != [] {
      var init := crumbs[..|crumbs| - 1];
      var last := crumbs[|crumbs| - 1];
      assert crumbs == init + [last];
      assert AllInBounds(m, init);
      FilteredKeepsAll(m, init, alternative);
      FilteredIsSubsequence(m, init, alternative);
      var kept := Filtered(m, init, alternative).value;
      var r := Filtered(m, crumbs, alternative).value;
      assert r == kept + if KeptAt(m, last, alternative) then [last] else [];
      assert multiset(crumbs) == multiset(init) + multiset{last};
      forall i | 0 <= i < |crumbs|
        ensures multiset(r)[crumbs[i]] ==
          if KeptAt(m, crumbs[i], alternative) then multiset(crumbs)[crumbs[i]] else 0
      {
        var p := crumbs[i];
        if p in init {
          var k :| 0 <= k < |init| && init[k] == p;
        } else {
          assert p !in kept;
          assert multiset(init)[p] == 0 && multiset(kept)[p] == 0;
        }
      }
    }
  }

  /** Once a prefix has raised, the whole list raises the same error. */
  lemma {:induction false} FilteredFailurePersists(m: MapPng, crumbs: seq<Point>, k: nat, alternative: bool)
    requires Valid(m) && AllInBounds(m, crumbs) && k <= |crumbs|
    requires Filtered(m, crumbs[..k], alternative).Failure?
    ensures Filtered(m, crumbs, alternative) == Filtered(m, crumbs[..k], alternative)
    decreases |crumbs| - k
  {
    if k < |crumbs| {
      var init := crumbs[..|crumbs| - 1];
      assert init[..k] == crumbs[..k];
      FilteredFailurePersists(m, init, k, alternative);
    } else {
      assert crumbs[..k] == crumbs;
    }
  }

  /** `filter_breadcrumbs`. */
  method FilterBreadcrumbs(m: MapPng, crumbs: seq<Point>, alternative: bool)
    returns (r: Result<seq<Point>, MapError>)
    requires Valid(m) && AllInBounds(m, crumbs)
    ensures r == Filtered(m, crumbs, alternative)
  {
    var result := [];
    var selectedGreen: Colour := if alternative then 0x88 else 0x00;
    for i := 0 to |crumbs|
      invariant Filtered(m, crumbs[..i], alternative) == Success(result)
    {
      ghost var prefix := crumbs[..i + 1];
      assert prefix[..i] == crumbs[..i] && prefix[i] == crumbs[i];
      var colour := m.data[crumbs[i].x][crumbs[i].y];
      var green := (colour >> 8) & 0xFF;
      assert green == Green(Pixel(m, crumbs[i]));
      if !(green == 0x00 || green == 0x88 || green == 0xFF) {
        FilteredFailurePersists(m, crumbs, i + 1, alternative);
        return Failure(BadGreen(colour));
      }
      assert Filtered(m, prefix, alternative)
        == Success(result + if KeptAt(m, crumbs[i], alternative) then [crumbs[i]] else []);
      ghost var before := result;
      if green == 0xFF || green == selectedGreen {
        result := result + [crumbs[i]];
      }
      assert KeptAt(m, crumbs[i], alternative) <==> green == 0xFF || green == selectedGreen;
      assert result == before + if KeptAt(m, crumbs[i], alternative) then [crumbs[i]] else [];
    }
    assert crumbs[..|crumbs|] == crumbs;
    return Success(result);
  }

  // ---------------------------------------------------------------------------------------
  // Routes

  /** `np.sum((breadcrumbs - order[-1]) ** 2, -1)` for one breadcrumb: the squared distance. */
  function Dist2(from: Point, to: Point): int
  {
    (to.x - from.x) * (to.x - from.x) + (to.y - from.y) * (to.y - from.y)
  }

  /** `np.argmin` of the distances from `from`: the first index of a nearest point. */
  function ArgMin(dist: (Point, Point) -> int, from: Point, points: seq<Point>): (i: nat)
    requires |points| > 0
    ensures i < |points|
    ensures forall j :: 0 <= j < |points| ==> dist(from, points[i]) <= dist(from, points[j])
    ensures forall j :: 0 <= j < i ==> dist(from, points[i]) < dist(from, points[j])
    decreases |points|
  {
    if |points| == 1 then 0
    else
      var best := ArgMin(dist, from, points[..|points| - 1]);
      if dist(from, points[|points| - 1]) < dist(from, points[best]) then |points| - 1 else best
  }

  /** `np.delete(points, i, axis=0)`. */
  function Remove(points: seq<Point>, i: nat): (r: seq<Point>)
    requires i < |points|
    ensures |r| == |points| - 1
    ensures multiset(r) + multiset{points[i]} == multiset(points)
  {
    assert points == points[..i] + [points[i]] + points[i + 1..];
    points[..i] + points[i + 1..]
  }

  /** The order in which the `get_route` loop visits `points`, starting next to `from`: the
      nearest remaining point first, then the nearest to that, and so on. */
  function Greedy(dist: (Point, Point) -> int, from: Point, points: seq<Point>): seq<Point>
    decreases |points|
  {
    if points == [] then []
    else
      var i := ArgMin(dist, from, points);
      [points[i]] + Greedy(dist, points[i], Remove(points, i))
  }

  /** The greedy order is a permutation of the points. */
  lemma {:induction false} GreedyPermutes(dist: (Point, Point) -> int, from: Point, points: seq<Point>)
    ensures |Greedy(dist, from, points)| == |points|
    ensures multiset(Greedy(dist, from, points)) == multiset(points)
    decreases |points|
  {
    if points != [] {
      var i := ArgMin(dist, from, points);
      GreedyPermutes(dist, points[i], Remove(points, i));
    }
  }

  /** Along the path `w`, each step goes to a point nearest to where it starts among the
      points not yet visited (those at or after it). */
  ghost predicate NearestSteps(dist: (Point, Point) -> int, w: seq<Point>)
  {
    forall k, j :: 1 <= k <= j < |w| ==> dist(w[k - 1], w[k]) <= dist(w[k - 1], w[j])
  }

  /** The first point of the greedy order is nearest to `from` among all the points. */
  lemma {:induction false} GreedyFirstNearest(dist: (Point, Point) -> int, from: Point, points: seq<Point>)
    requires points != []
    ensures var g := Greedy(dist, from, points);
      forall q :: q in g ==> dist(from, g[0]) <= dist(from, q)
  {
    var g := Greedy(dist, from, points);
    var i := ArgMin(dist, from, points);
    assert g[0] == points[i];
    GreedyPermutes(dist, from, points);
    forall q | q in g ensures dist(from, g[0]) <= dist(from, q) {
      assert q in multiset(g);
      assert q in points;
    }
  }

  /** The greedy order, walked from `from`, always moves to a nearest unvisited point. */
  lemma {:induction false} GreedyNearest(dist: (Point, Point) -> int, from: Point, points: seq<Point>)
    ensures NearestSteps(dist, [from] + Greedy(dist, from, points))
    decreases |points|
  {
    var w := [from] + Greedy(dist, from, points);
    if points != [] {
      var i := ArgMin(dist, from, points);
      var v := Greedy(dist, from, points);
      GreedyNearest(dist, points[i], Remove(points, i));
      GreedyFirstNearest(dist, from, points);
      assert v == [points[i]] + Greedy(dist, points[i], Remove(points, i));
      assert NearestSteps(dist, v);
      forall k, j | 1 <= k <= j < |w| ensures dist(w[k - 1], w[k]) <= dist(w[k - 1], w[j]) {
        assert w[k] == v[k - 1] && w[j] == v[j - 1] && w[k - 1] == if k == 1 then from else v[k - 2];
        if k == 1 {
          assert v[j - 1] in v;
        }
      }
    }
  }

  /** What `get_route` returns or raises: None when no breadcrumb survives the filter, else
      the start pixel followed by the survivors in greedy nearest-neighbour order. */
  function Route(m: MapPng, alternative: bool): Result<Option<seq<Point>>, MapError>
    requires Valid(m)
  {
    var crumbs :- FindBreadcrumbs(m);
    var kept :- Filtered(m, crumbs, alternative);
    if |kept| == 0 then Success(None)
    else
      var start :- FindStart(m);
      Success(Some([start] + Greedy(Dist2, start, kept)))
  }

  /** A route starts at the START pixel and then visits every surviving breadcrumb exactly
      once, each time moving to a nearest breadcrumb not yet visited. */
  lemma RouteShape(m: MapPng, alternative: bool)
    requires Valid(m)
    ensures Route(m, alternative).Success? && Route(m, alternative).value.Some? ==>
      var route := Route(m, alternative).value.value;
      var crumbs := FindBreadcrumbs(m).value;
      var kept := Filtered(m, crumbs, alternative).value;
      && FindStart(m) == Success(route[0])
      && |route| == |kept| + 1 >= 2
      && multiset(route[1..]) == multiset(kept)
      && NearestSteps(Dist2, route)
    ensures Route(m, alternative) == Success(None) <==>
      && FindBreadcrumbs(m).Success?
      && Filtered(m, FindBreadcrumbs(m).value, alternative) == Success([])
  {
    if Route(m, alternative).Success? && Route(m, alternative).value.Some? {
      var route := Route(m, alternative).value.value;
      var crumbs := FindBreadcrumbs(m).value;
      var kept := Filtered(m, crumbs, alternative).value;
      var start := FindStart(m).value;
      GreedyPermutes(Dist2, start, kept);
      GreedyNearest(Dist2, start, kept);
      assert route == [start] + Greedy(Dist2, start, kept);
    }
  }

  /** The `while len(breadcrumbs)` loop of `get_route`: repeatedly appends the remaining
      breadcrumb nearest to the last point of the order and deletes it. */
  method NearestNeighbourOrder(start: Point, crumbs: seq<Point>) returns (order: seq<Point>)
    ensures order == [start] + Greedy(Dist2, start, crumbs)
  {
    order := [start];
    var rest := crumbs;
    while |rest| > 0
      invariant |order| >= 1
      invariant order + Greedy(Dist2, order[|order| - 1], rest) == [start] + Greedy(Dist2, start, crumbs)
      decreases |rest|
    {
      var idx := ArgMin(Dist2, order[|order| - 1], rest);
      order := order + [rest[idx]];
      rest := Remove(rest, idx);
    }
  }

  /** `get_route`. */
  method GetRoute(m: MapPng, alternative: bool) returns (route: Result<Option<seq<Point>>, MapError>)
    requires Valid(m)
    ensures route == Route(m, alternative)
  {
    var found := FindBreadcrumbs(m);
    if found.Failure? {
      return Failure(found.error);
    }
    var filtered := FilterBreadcrumbs(m, found.value, alternative);
    if filtered.Failure? {
      return Failure(filtered.error);
    }
    var crumbs := filtered.value;
    if |crumbs| == 0 {
      return Success(None);
    }
    var start := FindStart(m);
    if start.Failure? {
      return Failure(start.error);
    }
    var order := NearestNeighbourOrder(start.value, crumbs);
    assert Route(m, alternative) == Success(Some(order));
    return Success(Some(order));
  }

  // ---------------------------------------------------------------------------------------
  // Neighbour vote

  /** numpy's indexing of one axis of length n: `-n <= i < 0` counts back from the end, and
      anything outside `[-n, n)` raises IndexError. */
  function AxisIndex(i: int, n: nat): (r: Option<nat>)
    ensures r.Some? <==> 0 <= i + n && i < n
    ensures r.Some? ==> r.value < n && (r.value == i || r.value == i + n)
  {
    if 0 <= i < n then Some(i as nat) else if 0 <= i + n && i < 0 then Some((i + n) as nat) else None
  }

  /** `self.data[xx, yy]` for any integers, as numpy reads it. */
  function At(m: MapPng, x: int, y: int): (r: Result<Colour, MapError>)
    requires Valid(m)
    ensures r.Success? <==> 0 <= x + Width(m) && x < Width(m) && 0 <= y + Height(m) && y < Height(m)
    ensures r.Failure? ==> r.error == IndexOutOfRange(x, y)
    ensures InBounds(m, Point(x, y)) ==> r == Success(Pixel(m, Point(x, y)))
  {
    var xi := AxisIndex(x, Width(m));
    var yi := AxisIndex(y, Height(m));
    if xi.None? || yi.None? then Failure(IndexOutOfRange(x, y))
    else Success(m.data[xi.value][yi.value])
  }

  /** The colours left, right, above and below (x, y), read in that order; the first index
      that numpy rejects is the error. */
  function NeighbourColours(m: MapPng, x: int, y: int): (r: Result<seq<Colour>, MapError>)
    requires Valid(m)
    ensures r.Success? ==> |r.value| == 4
  {
    var left :- At(m, x - 1, y);
    var right :- At(m, x + 1, y);
    var up :- At(m, x, y - 1);
    var down :- At(m, x, y + 1);
    Success([left, right, up, down])
  }

  /** How often `c` occurs in `cs`, as `collections.Counter` counts it. */
  function Count<T(==)>(cs: seq<T>, c: T): nat
  {
    multiset(cs)[c]
  }

  /** `c` occurs in `cs` more often than any other colour does. */
  predicate StrictlyMostCommon<T(==)>(cs: seq<T>, c: T)
  {
    c in cs && forall d :: d in cs && d != c ==> Count(cs, d) < Count(cs, c)
  }

  /** An index among the first n of cs whose colour is counted at least as often as any. */
  function MaxCountIndex<T(==)>(cs: seq<T>, n: nat): (i: nat)
    requires 0 < n <= |cs|
    ensures i < n
    ensures forall j :: 0 <= j < n ==> Count(cs, cs[j]) <= Count(cs, cs[i])
  {
    if n == 1 then 0
    else
      var i := MaxCountIndex(cs, n - 1);
      if Count(cs, cs[i]) < Count(cs, cs[n - 1]) then n - 1 else i
  }

  /** `Counter(cs).most_common()` followed by the tie test of `get_neighbour_colour`: the
      colour with the highest count, or None when two colours share the highest count. */
  function MostCommon<T(==,!new)>(cs: seq<T>): (r: Option<T>)
    requires |cs| > 0
    ensures r.Some? ==> StrictlyMostCommon(cs, r.value)
    ensures r.None? ==> forall c :: !StrictlyMostCommon(cs, c)
  {
    var top := cs[MaxCountIndex(cs, |cs|)];
    assert forall d :: d in cs ==> Count(cs, d) <= Count(cs, top);
    if exists j :: 0 <= j < |cs| && cs[j] != top && Count(cs, cs[j]) == Count(cs, top) then None
    else Some(top)
  }

  /** Two different colours together occur at most |cs| times. */
  lemma {:induction false} CountPairBound<T>(cs: seq<T>, c: T, d: T)
    requires c != d
    ensures multiset(cs)[c] + multiset(cs)[d] <= |cs|
  {
    if cs != [] {
      var tail := cs[1..];
      assert cs == [cs[0]] + tail;
      CountPairBound(tail, c, d);
    }
  }

  /** A colour held by more than half of the neighbours wins the vote. */
  lemma MajorityWins<T(!new)>(cs: seq<T>, c: T)
    requires 2 * Count(cs, c) > |cs|
    ensures |cs| > 0 && MostCommon(cs) == Some(c)
  {
    assert multiset(cs)[c] > 0;
    assert c in multiset(cs);
    forall d | d in cs && d != c ensures Count(cs, d) < Count(cs, c) {
      CountPairBound(cs, c, d);
    }
    assert StrictlyMostCommon(cs, c);
    var r := MostCommon(cs);
    assert r.Some? && StrictlyMostCommon(cs, r.value);
  }

  /** An even split between two colours is a tie. */
  lemma EvenSplitIsTie<T(!new)>(c: T, d: T)
    requires c != d
    ensures MostCommon([c, d, c, d]) == None
    ensures MostCommon([c, c, d, d]) == None
  {
    assert multiset([c, d, c, d]) == multiset{c, c, d, d} == multiset([c, c, d, d]);
    assert Count([c, d, c, d], c) == 2 && Count([c, d, c, d], d) == 2;
    assert Count([c, c, d, d], c) == 2 && Count([c, c, d, d], d) == 2;
  }

  /** `get_neighbour_colour`. */
  function GetNeighbourColour(m: MapPng, x: int, y: int): (r: Result<Colour, MapError>)
    requires Valid(m)
    ensures r.Success? ==>
      NeighbourColours(m, x, y).Success?
      && StrictlyMostCommon(NeighbourColours(m, x, y).value, r.value)
    ensures NeighbourColours(m, x, y).Success? && r.Failure? ==>
      && r.error == AmbiguousColour(x, y)
      && forall c :: !StrictlyMostCommon(NeighbourColours(m, x, y).value, c)
  {
    var cs :- NeighbourColours(m, x, y);
    match MostCommon(cs)
    case None => Failure(AmbiguousColour(x, y))
    case Some(c) => Success(c)
  }

  // ---------------------------------------------------------------------------------------
  // Cells

  /** `Cell`, with its enum values. */
  datatype Cell = Blank | Terrain | Finish | Interference
  {
    function Value(): (v: nat)
      ensures v <= 3
    {
      match this
      case Blank => 0
      case Terrain => 1
      case Finish => 2
      case Interference => 3
    }
  }

  /** The pixels `get_cell` replaces by the vote of their neighbours. */
  predicate IsMarker(colour: Colour)
  {
    colour == Start || colour == StartLookAt || IsBreadcrumb(colour)
  }

  /** The colour tests at the end of `get_cell`, for the colour it settled on. */
  function Classify(colour: Colour, x: int, y: int): Result<Cell, MapError>
  {
    if colour & 0xFF000000 == 0 then Success(Blank)
    else if colour == TerrainColour then Success(Terrain)
    else if colour == FinishColour then Success(Finish)
    else if colour == InterferenceColour then Success(Interference)
    else Failure(BadPixel(colour, x, y))
  }

  /** Fully transparent pixels are blank whatever their colour; the opaque terrain, finish and
      interference colours are those cells; every other colour is rejected. */
  lemma ClassifyMeaning(colour: Colour, x: int, y: int)
    ensures Classify(colour, x, y) == Success(Blank) <==> IntToRgba(colour)[3] == 0
    ensures Classify(colour, x, y) == Success(Terrain) <==> colour == TerrainColour
    ensures Classify(colour, x, y) == Success(Finish) <==> colour == FinishColour
    ensures Classify(colour, x, y) == Success(Interference) <==> colour == InterferenceColour
    ensures Classify(colour, x, y).Failure? <==>
      IntToRgba(colour)[3] != 0
      && colour !in {TerrainColour, FinishColour, InterferenceColour}
    ensures Classify(colour, x, y).Failure? ==> Classify(colour, x, y).error == BadPixel(colour, x, y)
  {
  }

  /** `get_cell`. */
  function GetCell(m: MapPng, x: int, y: int): Result<Cell, MapError>
    requires Valid(m) && InBounds(m, Point(x, y))
  {
    var pixel := Pixel(m, Point(x, y));
    var colour :- if IsMarker(pixel) then GetNeighbourColour(m, x, y) else Success(pixel);
    Classify(colour, x, y)
  }

  /** A pixel that is not a marker is classified by its own colour. */
  lemma GetCellPlain(m: MapPng, x: int, y: int)
    requires Valid(m) && InBounds(m, Point(x, y)) && !IsMarker(Pixel(m, Point(x, y)))
    ensures GetCell(m, x, y) == Classify(Pixel(m, Point(x, y)), x, y)
  {
  }

  /** A marker away from the right and bottom edges takes the colour held by at least three of
      its four neighbours. */
  lemma GetCellMarkerMajority(m: MapPng, x: int, y: int, c: Colour)
    requires Valid(m) && InBounds(m, Point(x, y)) && x + 1 < Width(m) && y + 1 < Height(m)
    requires IsMarker(Pixel(m, Point(x, y)))
    requires NeighbourColours(m, x, y).Success?
    requires 2 * Count(NeighbourColours(m, x, y).value, c) > 4
    ensures GetCell(m, x, y) == Classify(c, x, y)
  {
    MajorityWins(NeighbourColours(m, x, y).value, c);
  }

  /** Every neighbour of an interior pixel exists, so the vote itself decides the marker. */
  lemma InteriorNeighboursExist(m: MapPng, x: int, y: int)
    requires Valid(m) && InBounds(m, Point(x, y)) && x + 1 < Width(m) && y + 1 < Height(m)
    ensures NeighbourColours(m, x, y).Success?
    ensures 0 < x && 0 < y ==>
      NeighbourColours(m, x, y).value
        == [Pixel(m, Point(x - 1, y)), Pixel(m, Point(x + 1, y)),
            Pixel(m, Point(x, y - 1)), Pixel(m, Point(x, y + 1))]
  {
  }

  /** The left and top neighbours of pixels on the first column or row wrap around to the
      last column or row, as numpy's negative indices do. */
  lemma NeighboursWrapAround(m: MapPng, x: int, y: int)
    requires Valid(m) && InBounds(m, Point(x, y)) && x + 1 < Width(m) && y + 1 < Height(m)
    ensures x == 0 ==> NeighbourColours(m, x, y).value[0] == Pixel(m, Point(Width(m) - 1, y))
    ensures y == 0 ==> NeighbourColours(m, x, y).value[2] == Pixel(m, Point(x, Height(m) - 1))
  {
  }

  /** A marker on the last column, or on the last row, has no right or lower neighbour, and
      `get_cell` raises IndexError for it. */
  lemma MarkerOnFarEdgeRaises(m: MapPng, x: int, y: int)
    requires Valid(m) && InBounds(m, Point(x, y)) && IsMarker(Pixel(m, Point(x, y)))
    ensures x == Width(m) - 1 ==> GetCell(m, x, y) == Failure(IndexOutOfRange(x + 1, y))
    ensures x < Width(m) - 1 && y == Height(m) - 1 ==>
      GetCell(m, x, y) == Failure(IndexOutOfRange(x, y + 1))
  {
  }

  /** The cells of row y from column x on, as the inner `for x in range(width)` visits them;
      the first cell that raises is the error. */
  function RowCells(m: MapPng, y: nat, x: nat): (r: Result<seq<nat>, MapError>)
    requires Valid(m) && y < Height(m) && x <= Width(m)
    decreases Width(m) - x
  {
    if x == Width(m) then Success([])
    else
      var cell :- GetCell(m, x, y);
      var rest :- RowCells(m, y, x + 1);
      Success([cell.Value()] + rest)
  }

  /** The cells of rows y onward, rows outer and columns inner. */
  function GridCells(m: MapPng, y: nat): (r: Result<seq<nat>, MapError>)
    requires Valid(m) && y <= Height(m)
    decreases Height(m) - y
  {
    if y == Height(m) then Success([])
    else
      var row :- RowCells(m, y, 0);
      var rest :- GridCells(m, y + 1);
      Success(row + rest)
  }

  /** Row y from column x: each cell's value in column order, or a failure exactly when some
      cell of it fails. */
  lemma {:induction false} RowCellsLayout(m: MapPng, y: nat, x: nat)
    requires Valid(m) && y < Height(m) && x <= Width(m)
    ensures RowCells(m, y, x).Success? <==>
      forall xx :: x <= xx < Width(m) ==> GetCell(m, xx, y).Success?
    ensures RowCells(m, y, x).Success? ==>
      |RowCells(m, y, x).value| == Width(m) - x
      && forall xx :: x <= xx < Width(m) ==>
        RowCells(m, y, x).value[xx - x] == GetCell(m, xx, y).value.Value()
    decreases Width(m) - x
  {
    if x < Width(m) {
      RowCellsLayout(m, y, x + 1);
    }
  }

  /** Rows y onward fail exactly when one of their cells does. */
  lemma {:induction false} GridCellsSucceed(m: MapPng, y: nat)
    requires Valid(m) && y <= Height(m)
    ensures GridCells(m, y).Success? <==> CellsFrom(m, y)
    decreases Height(m) - y
  {
    if y < Height(m) {
      RowCellsLayout(m, y, 0);
      GridCellsSucceed(m, y + 1);
      CellsFromSplit(m, y);
    }
  }

  /** Every cell of rows y onward can be classified. */
  ghost predicate CellsFrom(m: MapPng, y: nat)
    requires Valid(m)
  {
    forall xx, yy :: 0 <= xx < Width(m) && y <= yy < Height(m) ==> GetCell(m, xx, yy).Success?
  }

  lemma CellsFromSplit(m: MapPng, y: nat)
    requires Valid(m) && y < Height(m)
    ensures CellsFrom(m, y) <==>
      (forall xx :: 0 <= xx < Width(m) ==> GetCell(m, xx, y).Success?) && CellsFrom(m, y + 1)
  {
  }

  /** The rows of a list of rows, one after the other. */
  function Flatten<T>(rows: seq<seq<T>>): seq<T>
  {
    if rows == [] then [] else rows[0] + Flatten(rows[1..])
  }

  lemma MulStep(k: nat, w: nat)
    ensures (k + 1) * w == w + k * w
  {
  }

  /** n rows of w values flatten to n * w values. */
  lemma {:induction false} FlattenLength<T>(rows: seq<seq<T>>, w: nat)
    requires forall k :: 0 <= k < |rows| ==> |rows[k]| == w
    ensures |Flatten(rows)| == |rows| * w
  {
    if rows != [] {
      FlattenLength(rows[1..], w);
      MulStep(|rows| - 1, w);
    }
  }

  /** Value x of row k lands at `k * w + x` once rows of w values are flattened. */
  lemma {:induction false} FlattenAt<T>(rows: seq<seq<T>>, w: nat, k: nat, x: nat)
    requires forall i :: 0 <= i < |rows| ==> |rows[i]| == w
    requires k < |rows| && x < w
    ensures k * w + x < |Flatten(rows)| && Flatten(rows)[k * w + x] == rows[k][x]
  {
    var f := Flatten(rows);
    assert f == rows[0] + Flatten(rows[1..]);
    if k == 0 {
      assert k * w + x == x;
    } else {
      FlattenAt(rows[1..], w, k - 1, x);
      MulStep(k - 1, w);
      assert k * w + x == w + ((k - 1) * w + x);
    }
  }

  /** The values of row yy, or nothing if a cell of it raises. */
  function RowValues(m: MapPng, yy: nat): seq<nat>
    requires Valid(m) && yy < Height(m)
  {
    var row := RowCells(m, yy, 0);
    if row.Success? then row.value else []
  }

  /** The rows from y on, each as the list of its cell values. */
  function Rows(m: MapPng, y: nat): seq<seq<nat>>
    requires Valid(m) && y <= Height(m)
  {
    seq(Height(m) - y, k requires 0 <= k < Height(m) - y => RowValues(m, y + k))
  }

  /** On success, the cells of rows y onward are those rows flattened. */
  lemma {:induction false} GridCellsFlatten(m: MapPng, y: nat)
    requires Valid(m) && y <= Height(m)
    ensures GridCells(m, y).Success? ==> GridCells(m, y).value == Flatten(Rows(m, y))
    decreases Height(m) - y
  {
    if y < Height(m) && GridCells(m, y).Success? {
      GridCellsFlatten(m, y + 1);
      assert Rows(m, y) == [RowValues(m, y)] + Rows(m, y + 1);
      assert Rows(m, y)[1..] == Rows(m, y + 1);
    }
  }

  /** Every row of a successful grid has one value per column, its cells' values in order. */
  lemma GridRows(m: MapPng)
    requires Valid(m) && GridCells(m, 0).Success?
    ensures |Rows(m, 0)| == Height(m)
    ensures forall k :: 0 <= k < Height(m) ==> |Rows(m, 0)[k]| == Width(m)
    ensures GridCells(m, 0).value == Flatten(Rows(m, 0))
  {
    GridCellsSucceed(m, 0);
    GridCellsFlatten(m, 0);
    forall k | 0 <= k < Height(m) ensures |Rows(m, 0)[k]| == Width(m) {
      RowCellsLayout(m, k, 0);
    }
  }

  /** The value of the cell at (x, y) sits at index `y * width + x` of `cells`. */
  ghost predicate CellAt(m: MapPng, cells: seq<nat>, x: nat, y: nat)
    requires Valid(m) && x < Width(m) && y < Height(m)
  {
    && y * Width(m) + x < |cells|
    && GetCell(m, x, y).Success?
    && cells[y * Width(m) + x] == GetCell(m, x, y).value.Value()
  }

  /** The cell at (x, y) of a successful grid sits at index `y * width + x`. */
  lemma GridCellAt(m: MapPng, x: nat, y: nat)
    requires Valid(m) && GridCells(m, 0).Success? && x < Width(m) && y < Height(m)
    ensures CellAt(m, GridCells(m, 0).value, x, y)
  {
    GridRows(m);
    FlattenAt(Rows(m, 0), Width(m), y, x);
    RowCellsLayout(m, y, 0);
  }

  /** `cells` lists the value of every cell of the map row by row: `width * height` values,
      the cell at (x, y) at index `y * width + x`. */
  ghost predicate RowMajor(m: MapPng, cells: seq<nat>)
    requires Valid(m)
  {
    && |cells| == Height(m) * Width(m)
    && forall x: nat, y: nat | x < Width(m) && y < Height(m) :: CellAt(m, cells, x, y)
  }

  /** On success, the cells come out row by row. */
  lemma GridCellsLayout(m: MapPng)
    requires Valid(m)
    ensures GridCells(m, 0).Success? ==> RowMajor(m, GridCells(m, 0).value)
  {
    if GridCells(m, 0).Success? {
      var cells := GridCells(m, 0).value;
      GridRows(m);
      FlattenLength(Rows(m, 0), Width(m));
      forall x: nat, y: nat | x < Width(m) && y < Height(m)
        ensures CellAt(m, cells, x, y)
      {
        GridCellAt(m, x, y);
      }
    }
  }

  // ---------------------------------------------------------------------------------------
  // Output

  /** The fields of `to_jsonable`. `look` is the START_LOOK_AT pixel minus the START pixel; the
      bearing the source derives from it with `arctan2` is not part of this model. */
  datatype MapJson = MapJson(
    width: nat, height: nat, start: Point, look: Point, routes: seq<seq<Point>>, cells: seq<nat>)

  /** The routes that exist, the ordinary one before the alternative one. */
  function ExistingRoutes(ordinary: Option<seq<Point>>, alternative: Option<seq<Point>>): (r: seq<seq<Point>>)
    ensures |r| == (if ordinary.Some? then 1 else 0) + (if alternative.Some? then 1 else 0)
    ensures ordinary.Some? ==> r[0] == ordinary.value
    ensures alternative.Some? ==> r[|r| - 1] == alternative.value
    ensures forall i :: 0 <= i < |r| ==>
      (ordinary.Some? && r[i] == ordinary.value) || (alternative.Some? && r[i] == alternative.value)
  {
    (if ordinary.Some? then [ordinary.value] else []) + (if alternative.Some? then [alternative.value] else [])
  }

  /** `to_jsonable`, raising what its steps raise in the order it takes them: start, look-at,
      the two routes, then the cells. */
  function ToJsonable(m: MapPng): Result<MapJson, MapError>
    requires Valid(m)
  {
    Assemble(Width(m), Height(m), FindStart(m), FindStartLookAt(m), Route(m, false), Route(m, true), GridCells(m, 0))
  }

  /** The body of `to_jsonable` over the results of its steps, the first failure winning. */
  function Assemble(width: nat, height: nat, start: Result<Point, MapError>, lookAt: Result<Point, MapError>,
                    ordinary: Result<Option<seq<Point>>, MapError>, alternative: Result<Option<seq<Point>>, MapError>,
                    cells: Result<seq<nat>, MapError>): (r: Result<MapJson, MapError>)
    ensures r.Success? <==>
      start.Success? && lookAt.Success? && ordinary.Success? && alternative.Success? && cells.Success?
    ensures r.Success? ==>
      && r.value.width == width && r.value.height == height
      && r.value.start == start.value
      && Point(r.value.start.x + r.value.look.x, r.value.start.y + r.value.look.y) == lookAt.value
      && r.value.routes == ExistingRoutes(ordinary.value, alternative.value)
      && r.value.cells == cells.value
  {
    var s :- start;
    var l :- lookAt;
    var o :- ordinary;
    var a :- alternative;
    var c :- cells;
    Success(MapJson(width, height, s, Point(l.x - s.x, l.y - s.y), ExistingRoutes(o, a), c))
  }

  /** The compiled map: its size, the START pixel `find_start` finds (by
      `FindStartExactlyOne`, the only one), the offset to the START_LOOK_AT pixel
      `find_start_look_at` finds, and every cell flattened row by row. */
  lemma ToJsonableShape(m: MapPng)
    requires Valid(m)
    ensures ToJsonable(m).Success? ==>
      var j := ToJsonable(m).value;
      && j.width == Width(m) && j.height == Height(m)
      && FindStart(m) == Success(j.start)
      && FindStartLookAt(m) == Success(Point(j.start.x + j.look.x, j.start.y + j.look.y))
      && RowMajor(m, j.cells)
  {
    GridCellsLayout(m);
  }

  /** The compiled map has one or two routes, each leaving from the START pixel. */
  lemma ToJsonableRoutes(m: MapPng)
    requires Valid(m)
    ensures ToJsonable(m).Success? ==>
      var j := ToJsonable(m).value;
      && 1 <= |j.routes| <= 2
      && forall i :: 0 <= i < |j.routes| ==> |j.routes[i]| >= 2 && j.routes[i][0] == j.start
  {
    if ToJsonable(m).Success? {
      var j := ToJsonable(m).value;
      assert j.routes == ExistingRoutes(Route(m, false).value, Route(m, true).value);
      RouteLeavesStart(m, false);
      RouteLeavesStart(m, true);
      RoutesNotBothMissing(m);
    }
  }

  /** An existing route has at least two points and begins at the START pixel. */
  lemma RouteLeavesStart(m: MapPng, alternative: bool)
    requires Valid(m)
    ensures Route(m, alternative).Success? && Route(m, alternative).value.Some? ==>
      var route := Route(m, alternative).value.value;
      |route| >= 2 && FindStart(m) == Success(route[0])
  {
    RouteShape(m, alternative);
  }

  /** Once the start pose and both routes are found, compiling fails exactly when some cell
      cannot be classified. */
  lemma ToJsonableFailsOnCells(m: MapPng)
    requires Valid(m)
    requires FindStart(m).Success? && FindStartLookAt(m).Success?
    requires Route(m, false).Success? && Route(m, true).Success?
    ensures ToJsonable(m).Success? <==>
      forall x, y :: 0 <= x < Width(m) && 0 <= y < Height(m) ==> GetCell(m, x, y).Success?
  {
    GridCellsSucceed(m, 0);
  }

  /** Each breadcrumb that passes the green check survives at least one of the two filters:
      green 0xFF both, 0x00 the ordinary one and 0x88 the alternative one. */
  lemma {:induction false} SomeFilterKeeps(m: MapPng, crumbs: seq<Point>)
    requires Valid(m) && AllInBounds(m, crumbs) && |crumbs| > 0
    requires Filtered(m, crumbs, false).Success? && Filtered(m, crumbs, true).Success?
    ensures |Filtered(m, crumbs, false).value| > 0 || |Filtered(m, crumbs, true).value| > 0
  {
    FilteredFailure(m, crumbs, false);
    FilteredKeepsAll(m, crumbs, false);
    FilteredKeepsAll(m, crumbs, true);
    var first := crumbs[0];
    assert GreenValidAt(m, first);
    assert KeptAt(m, first, false) || KeptAt(m, first, true);
    assert first in multiset(crumbs);
    if KeptAt(m, first, false) {
      assert first in Filtered(m, crumbs, false).value;
    } else {
      assert first in Filtered(m, crumbs, true).value;
    }
  }

  /** When both routes are computed without error, at least one of them exists. */
  lemma RoutesNotBothMissing(m: MapPng)
    requires Valid(m)
    ensures Route(m, false).Success? && Route(m, true).Success? ==>
      Route(m, false).value.Some? || Route(m, true).value.Some?
  {
    if Route(m, false).Success? && Route(m, true).Success? {
      SomeFilterKeeps(m, FindBreadcrumbs(m).value);
    }
  }
}

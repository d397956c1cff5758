/** The result post-processing of `EasyOCREngine` in src/ocr/easy_engine.py. The reader is
    not modelled: its output, or the fact that it raised, is the input. Coordinates and
    confidences are exact reals. */
module EasyEngine {
  import opened Strings

  datatype Point = Point(x: real, y: real)

  /** One `(bbox, text, confidence)` triple of `readtext`. */
  datatype ReaderResult = ReaderResult(bbox: seq<Point>, text: string, confidence: real)

  /** What the reader produced, or that something on the way raised. */
  datatype ReadOutcome = Read(results: seq<ReaderResult>) | ReaderFailed

  datatype BBox = BBox(x: real, y: real, width: real, height: real)

  /** `{"text", "confidence", "bbox"}` */
  datatype Detection = Detection(text: string, confidence: real, bbox: BBox)

  function Minimum(xs: seq<real>): (m: real)
    requires xs != []
    ensures m in xs && forall x :: x in xs ==> m <= x
  {
    if |xs| == 1 then xs[0]
    else
      var rest := Minimum(xs[1..]);
      assert forall x :: x in xs ==> x == xs[0] || x in xs[1..];
      if xs[0] <= rest then xs[0] else rest
  }

  function Maximum(xs: seq<real>): (m: real)
    requires xs != []
    ensures m in xs && forall x :: x in xs ==> x <= m
  {
    if |xs| == 1 then xs[0]
    else
      var rest := Maximum(xs[1..]);
      assert forall x :: x in xs ==> x == xs[0] || x in xs[1..];
      if xs[0] >= rest then xs[0] else rest
  }

  function Xs(pts: seq<Point>): seq<real> { seq(|pts|, i requires 0 <= i < |pts| => pts[i].x) }
  function Ys(pts: seq<Point>): seq<real> { seq(|pts|, i requires 0 <= i < |pts| => pts[i].y) }

  /** `min`/`max` raise on an empty polygon; every polygon here has a point. */
  predicate Drawable(rs: seq<ReaderResult>) {
    forall i :: 0 <= i < |rs| ==> rs[i].bbox != []
  }

  /** The axis-aligned box of a polygon. */
  function BoxOf(pts: seq<Point>): BBox
    requires pts != []
  {
    var xs, ys := Xs(pts), Ys(pts);
    BBox(Minimum(xs), Minimum(ys), Maximum(xs) - Minimum(xs), Maximum(ys) - Minimum(ys))
  }

  function ToDetection(r: ReaderResult): Detection
    requires r.bbox != []
  {
    Detection(r.text, r.confidence, BoxOf(r.bbox))
  }

  function TotalConfidence(rs: seq<ReaderResult>): real {
    if rs == [] then 0.0 else TotalConfidence(rs[..|rs| - 1]) + rs[|rs| - 1].confidence
  }

  function Texts(rs: seq<ReaderResult>): seq<string> { seq(|rs|, i requires 0 <= i < |rs| => rs[i].text) }

  function DetectionTexts(ds: seq<Detection>): seq<string> { seq(|ds|, i requires 0 <= i < |ds| => ds[i].text) }

  /** One detection per result, in order. */
  function Detections(rs: seq<ReaderResult>): seq<Detection>
    requires Drawable(rs)
  {
    seq(|rs|, i requires 0 <= i < |rs| => ToDetection(rs[i]))
  }

  /** What `extract_with_confidence` returns: `("", 0.0, [])` for no results or on an
      exception, otherwise the joined text, the mean confidence and one detection per result. */
  function ConfidenceExtraction(outcome: ReadOutcome): (string, real, seq<Detection>) {
    match outcome
    case ReaderFailed => ("", 0.0, [])
    case Read(rs) =>
      if rs == [] || !Drawable(rs) then ("", 0.0, [])
      else (Join(Texts(rs), " "), TotalConfidence(rs) / |rs| as real, Detections(rs))
  }

  /** One more drawable result extends the detections and the total by that result. */
  lemma CollectStep(rs: seq<ReaderResult>, i: nat)
    requires i < |rs| && Drawable(rs[..i]) && rs[i].bbox != []
    ensures Drawable(rs[..i + 1])
    ensures Detections(rs[..i + 1]) == Detections(rs[..i]) + [ToDetection(rs[i])]
    ensures TotalConfidence(rs[..i + 1]) == TotalConfidence(rs[..i]) + rs[i].confidence
  {
    assert rs[..i + 1][..i] == rs[..i];
    assert forall j :: 0 <= j < i ==> rs[..i + 1][j] == rs[..i][j];
  }

  /** The loop of `extract_with_confidence`: the detections and the confidence total, or
      `drawable == false` where `min` would raise on an empty polygon. */
  method CollectDetections(results: seq<ReaderResult>) returns (detections: seq<Detection>, totalConfidence: real, drawable: bool)
    ensures drawable <==> Drawable(results)
    ensures drawable ==> detections == Detections(results) && totalConfidence == TotalConfidence(results)
  {
    detections := [];
    totalConfidence := 0.0;
    var i := 0;
    while i < |results|
      invariant 0 <= i <= |results|
      invariant Drawable(results[..i])
      invariant detections == Detections(results[..i])
      invariant totalConfidence == TotalConfidence(results[..i])
    {
      var r := results[i];
      if r.bbox == [] {
        assert !Drawable(results) by { assert results[i].bbox == []; }
        return [], 0.0, false;
      }
      CollectStep(results, i);
      detections := detections + [ToDetection(r)];
      totalConfidence := totalConfidence + r.confidence;
      i := i + 1;
    }
    assert results[..i] == results;
    drawable := true;
  }

  lemma TextsOfDetections(rs: seq<ReaderResult>)
    requires Drawable(rs)
    ensures DetectionTexts(Detections(rs)) == Texts(rs)
  {
  }

  /** `extract_with_confidence` */
  method ExtractWithConfidence(outcome: ReadOutcome) returns (fullText: string, avgConfidence: real, detections: seq<Detection>)
    ensures (fullText, avgConfidence, detections) == ConfidenceExtraction(outcome)
  {
    if outcome.ReaderFailed? {
      return "", 0.0, [];
    }
    var results := outcome.results;
    if results == [] {
      return "", 0.0, [];
    }
    var totalConfidence, drawable;
    detections, totalConfidence, drawable := CollectDetections(results);
    if !drawable {
      return "", 0.0, [];
    }
    avgConfidence := totalConfidence / |results| as real;
    TextsOfDetections(results);
    fullText := Join(DetectionTexts(detections), " ");
  }

  /** `extract`: the texts joined by single spaces, `""` on an exception. */
  function ExtractText(outcome: ReadOutcome): string {
    match outcome
    case ReaderFailed => ""
    case Read(rs) => Join(Texts(rs), " ")
  }

  /** Both entry points build the same text, unless a polygon is empty: `extract` never
      looks at the polygons. */
  lemma SameText(outcome: ReadOutcome)
    requires outcome.Read? && Drawable(outcome.results)
    ensures ConfidenceExtraction(outcome).0 == ExtractText(outcome)
  {
  }

  /** One detection per result, in order, with its text and confidence. */
  lemma DetectionsFollowResults(rs: seq<ReaderResult>)
    requires rs != [] && Drawable(rs)
    ensures var ds := ConfidenceExtraction(Read(rs)).2;
      |ds| == |rs| && forall i :: 0 <= i < |rs| ==> ds[i].text == rs[i].text && ds[i].confidence == rs[i].confidence
  {
  }

  /** The box starts at the polygon's minima, contains every point, and has no negative side. */
  lemma BoxContainsPolygon(pts: seq<Point>)
    requires pts != []
    ensures var b := BoxOf(pts);
      b.width >= 0.0 && b.height >= 0.0
      && (exists i :: 0 <= i < |pts| && pts[i].x == b.x) && (exists i :: 0 <= i < |pts| && pts[i].y == b.y)
      && forall i :: 0 <= i < |pts| ==>
        b.x <= pts[i].x <= b.x + b.width && b.y <= pts[i].y <= b.y + b.height
  {
    var xs, ys := Xs(pts), Ys(pts);
    assert forall i :: 0 <= i < |pts| ==> xs[i] == pts[i].x && xs[i] in xs;
    assert forall i :: 0 <= i < |pts| ==> ys[i] == pts[i].y && ys[i] in ys;
  }

  lemma {:induction false} TotalBounds(rs: seq<ReaderResult>, lo: real, hi: real)
    requires forall i :: 0 <= i < |rs| ==> lo <= rs[i].confidence <= hi
    ensures |rs| as real * lo <= TotalConfidence(rs) <= |rs| as real * hi
  {
    if rs != [] {
      TotalBounds(rs[..|rs| - 1], lo, hi);
    }
  }

  /** The mean of confidences in `[lo, hi]` is in `[lo, hi]`. */
  lemma AverageWithinBounds(rs: seq<ReaderResult>, lo: real, hi: real)
    requires rs != [] && Drawable(rs)
    requires forall i :: 0 <= i < |rs| ==> lo <= rs[i].confidence <= hi
    ensures lo <= ConfidenceExtraction(Read(rs)).1 <= hi
  {
    TotalBounds(rs, lo, hi);
    QuotientBounds(TotalConfidence(rs), |rs| as real, lo, hi);
  }

  lemma QuotientBounds(t: real, n: real, lo: real, hi: real)
    requires n > 0.0 && n * lo <= t <= n * hi
    ensures lo <= t / n <= hi
  {
    var q := t / n;
    assert q * n == t;
    if q < lo {
      ScaleStrict(q, lo, n);
    }
    if q > hi {
      ScaleStrict(hi, q, n);
    }
  }

  lemma ScaleStrict(a: real, b: real, n: real)
    requires a < b && n > 0.0
    ensures a * n < b * n
  {
    assert b * n - a * n == (b - a) * n;
  }

  /** No results, a failure, or an empty polygon all give `("", 0.0, [])`. */
  lemma EmptyOrFailed(outcome: ReadOutcome)
    requires outcome.ReaderFailed? || outcome.results == [] || !Drawable(outcome.results)
    ensures ConfidenceExtraction(outcome) == ("", 0.0, [])
    ensures outcome.ReaderFailed? ==> ExtractText(outcome) == ""
  {
  }
}

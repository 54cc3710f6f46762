/**
 * `LoadSwfPackFromJson`: the translation of a parsed manifest into an
 * `SwfPack`. Every missing or wrongly typed member falls back to its default,
 * member by member; the only things a manifest can make fail are the reading
 * and the parsing of the file, and then the pack is empty.
 *
 * The functions state what each record becomes; the methods build the
 * records the way the loader does, filling arrays allocated to the size of
 * the JSON arrays in nested loops, and are proved to produce those values.
 */
module Loader {
  import opened Wrappers
  import opened CJson
  import opened Pack

  /** A point `{x, y}`: each coordinate is the number given, or 0.0. */
  function PointOf(p: Json): Pt
  {
    Pt(NumberOr(GetObjectItem(p, "x"), 0.0), NumberOr(GetObjectItem(p, "y"), 0.0))
  }

  function PointsOf(items: seq<Json>): seq<Pt>
  {
    seq(|items|, k requires 0 <= k < |items| => PointOf(items[k]))
  }

  /** One element of a list of polygons: an array of points, or no points at all. */
  function PolyOf(arr: Json): Poly
  {
    if arr.Arr? then Poly(PointsOf(arr.items)) else Poly([])
  }

  /**
   * The `poly` member under its two schemas: a non-empty array whose first
   * element is an object is ONE polygon whose points are the elements;
   * any other array is a list of polygons; anything else is no polygon.
   */
  function PolysOf(poly: Option<Json>): seq<Poly>
  {
    match poly
    case Some(Arr(items)) =>
      if |items| > 0 && items[0].Obj? then [Poly(PointsOf(items))]
      else seq(|items|, i requires 0 <= i < |items| => PolyOf(items[i]))
    case _ => []
  }

  /** A frame: integer members default to 0, except `duration`, which defaults to 1. */
  function FrameOf(fr: Json): Frame
  {
    Frame(
      IntOr(GetObjectItem(fr, "idx"), 0), IntOr(GetObjectItem(fr, "page"), 0),
      IntOr(GetObjectItem(fr, "x"), 0), IntOr(GetObjectItem(fr, "y"), 0),
      IntOr(GetObjectItem(fr, "w"), 0), IntOr(GetObjectItem(fr, "h"), 0),
      IntOr(GetObjectItem(fr, "ox"), 0), IntOr(GetObjectItem(fr, "oy"), 0),
      IntOr(GetObjectItem(fr, "duration"), 1),
      PolysOf(GetObjectItem(fr, "poly")))
  }

  function FramesOf(items: seq<Json>): seq<Frame>
  {
    seq(|items|, i requires 0 <= i < |items| => FrameOf(items[i]))
  }

  /** A symbol: its string `name` or "symbol", and its `frames` in array order. */
  function SymbolOf(sym: Json): Symbol
  {
    var name := GetObjectItem(sym, "name");
    Symbol(
      if name.Some? && name.value.Str? then name.value.s else "symbol",
      FramesOf(ArrayItems(GetObjectItem(sym, "frames"))))
  }

  /** `doc` is the parsed manifest, or `None` when it was missing or did not parse. */
  function FpsOf(doc: Option<Json>): real
  {
    match doc
    case None => 0.0
    case Some(root) => NumberOr(GetObjectItem(root, "fps"), 24.0)
  }

  function PageEntries(doc: Option<Json>): seq<Json>
  {
    match doc
    case None => []
    case Some(root) => ArrayItems(GetObjectItem(root, "pages"))
  }

  function SymbolEntries(doc: Option<Json>): seq<Json>
  {
    match doc
    case None => []
    case Some(root) => ArrayItems(GetObjectItem(root, "symbols"))
  }

  function SymbolsOf(doc: Option<Json>): seq<Symbol>
  {
    var entries := SymbolEntries(doc);
    seq(|entries|, i requires 0 <= i < |entries| => SymbolOf(entries[i]))
  }

  // ---------------------------------------------------------------------
  // The loader's loops

  /** The point loop: one point per element, in order. */
  method LoadPoints(items: seq<Json>) returns (pts: seq<Pt>)
    ensures |pts| == |items|
    ensures forall k :: 0 <= k < |items| ==> pts[k] == PointOf(items[k])
  {
    var a := new Pt[|items|];
    for k := 0 to |items|
      invariant forall i :: 0 <= i < k ==> a[i] == PointOf(items[i])
    {
      a[k] := PointOf(items[k]);
    }
    pts := a[..];
  }

  /** The `poly` member: the single-polygon case, or one polygon per element. */
  method LoadPolys(poly: Option<Json>) returns (polys: seq<Poly>)
    ensures polys == PolysOf(poly)
  {
    if poly.Some? && poly.value.Arr? {
      var items := poly.value.items;
      var outerCount := |items|;
      if outerCount > 0 && items[0].Obj? {
        var pts := LoadPoints(items);
        assert pts == PointsOf(items);
        polys := [Poly(pts)];
      } else {
        var a := new Poly[outerCount];
        for pi := 0 to outerCount
          invariant forall i :: 0 <= i < pi ==> a[i] == PolyOf(items[i])
        {
          if !items[pi].Arr? {
            a[pi] := Poly([]);
          } else {
            var pts := LoadPoints(items[pi].items);
            assert pts == PointsOf(items[pi].items);
            a[pi] := Poly(pts);
          }
        }
        polys := a[..];
      }
    } else {
      polys := [];
    }
  }

  /**
   * One frame: every member starts at 0 as in `Frame f = {0}` and is
   * overwritten when the manifest gives a number; a non-numeric `duration`
   * is set to 1 instead.
   */
  method LoadFrame(fr: Json) returns (f: Frame)
    ensures f == FrameOf(fr)
  {
    var idx := ReadInt(fr, "idx", 0);
    var page := ReadInt(fr, "page", 0);
    var x := ReadInt(fr, "x", 0);
    var y := ReadInt(fr, "y", 0);
    var w := ReadInt(fr, "w", 0);
    var h := ReadInt(fr, "h", 0);
    var ox := ReadInt(fr, "ox", 0);
    var oy := ReadInt(fr, "oy", 0);
    var duration := ReadInt(fr, "duration", 1);
    var polys := LoadPolys(GetObjectItem(fr, "poly"));
    f := Frame(idx, page, x, y, w, h, ox, oy, duration, polys);
  }

  /** `v = cJSON_GetObjectItem(fr, key); if (cJSON_IsNumber(v)) field = (int)v->valuedouble;` */
  method ReadInt(fr: Json, key: string, field: int) returns (r: int)
    ensures r == IntOr(GetObjectItem(fr, key), field)
  {
    r := field;
    var v := GetObjectItem(fr, key);
    if IsNumber(v) {
      r := Trunc(v.value.value);
    }
  }

  /** The frame loop: one frame per element, kept in array order. */
  method LoadFrames(items: seq<Json>) returns (frames: seq<Frame>)
    ensures |frames| == |items|
    ensures forall i :: 0 <= i < |items| ==> frames[i] == FrameOf(items[i])
  {
    var a := new Frame[|items|];
    for fi := 0 to |items|
      invariant forall i :: 0 <= i < fi ==> a[i] == FrameOf(items[i])
    {
      var f := LoadFrame(items[fi]);
      a[fi] := f;
    }
    frames := a[..];
  }

  /** One symbol: its string `name` or "symbol", and its `frames` array, if any. */
  method LoadSymbol(sym: Json) returns (symbol: Symbol)
    ensures symbol == SymbolOf(sym)
  {
    var name := GetObjectItem(sym, "name");
    var symName := if name.Some? && name.value.Str? then name.value.s else "symbol";
    var frames: seq<Frame> := [];
    var framesItem := GetObjectItem(sym, "frames");
    if framesItem.Some? && framesItem.value.Arr? {
      frames := LoadFrames(framesItem.value.items);
    }
    symbol := Symbol(symName, frames);
  }

  /** The symbol loop: one symbol per element, in order. */
  method LoadSymbols(items: seq<Json>) returns (symbols: seq<Symbol>)
    ensures |symbols| == |items|
    ensures forall i :: 0 <= i < |items| ==> symbols[i] == SymbolOf(items[i])
  {
    var a := new Symbol[|items|];
    for si := 0 to |items|
      invariant forall i :: 0 <= i < si ==> a[i] == SymbolOf(items[i])
    {
      var symbol := LoadSymbol(items[si]);
      a[si] := symbol;
    }
    symbols := a[..];
  }

  /**
   * The page loop: a string entry is handed to the texture provider, any
   * other entry leaves an empty slot. The textures obtained are new, so no
   * two slots share one.
   */
  method LoadPages(items: seq<Json>, gpu: TextureProvider) returns (pages: seq<PageId>)
    requires gpu.Valid()
    modifies gpu
    ensures gpu.Valid() && gpu.released == old(gpu.released)
    ensures |pages| == |items|
    ensures forall i :: 0 <= i < |items| ==> (pages[i] != 0 <==> items[i].Str? && gpu.loads(items[i].s))
    ensures DistinctPages(pages)
    ensures old(gpu.live) !! LiveSet(pages)
    ensures gpu.live == old(gpu.live) + LiveSet(pages)
  {
    var a := new PageId[|items|];
    for i := 0 to |items|
      invariant gpu.Valid() && gpu.released == old(gpu.released)
      invariant old(gpu.lastId) <= gpu.lastId
      invariant forall k :: 0 <= k < i ==> (a[k] != 0 <==> items[k].Str? && gpu.loads(items[k].s))
      invariant forall k :: 0 <= k < i && a[k] != 0 ==> old(gpu.lastId) < a[k] <= gpu.lastId
      invariant forall k, l :: 0 <= k < l < i && a[k] != 0 && a[l] != 0 ==> a[k] < a[l]
      invariant gpu.live == old(gpu.live) + LiveSet(a[..i])
    {
      assert a[..i + 1] == a[..i] + [a[i]];
      if items[i].Str? {
        a[i] := gpu.Load(items[i].s);
      } else {
        a[i] := 0;
      }
      assert a[..i + 1] == a[..i] + [a[i]];
    }
    pages := a[..];
    assert a[..|items|] == pages;
  }

  /**
   * `LoadSwfPackFromJson`. With no document the pack is `(SwfPack){0}`,
   * whose `fps` is 0.0; a document without a numeric `fps` gets 24.0.
   */
  method LoadSwfPackFromJson(doc: Option<Json>, gpu: TextureProvider) returns (sw: SwfPack)
    requires gpu.Valid()
    modifies gpu
    ensures gpu.Valid() && gpu.released == old(gpu.released)
    ensures doc.None? ==> sw == EmptyPack && gpu.live == old(gpu.live)
    ensures sw.fps == FpsOf(doc)
    ensures sw.symbols == SymbolsOf(doc)
    ensures |sw.pages| == |PageEntries(doc)|
    ensures forall i :: 0 <= i < |sw.pages| ==>
              (sw.pages[i] != 0 <==> PageEntries(doc)[i].Str? && gpu.loads(PageEntries(doc)[i].s))
    ensures DistinctPages(sw.pages)
    ensures old(gpu.live) !! LiveSet(sw.pages)
    ensures gpu.live == old(gpu.live) + LiveSet(sw.pages)
  {
    if doc.None? {
      sw := EmptyPack;
      return;
    }
    var root := doc.value;
    var fpsItem := GetObjectItem(root, "fps");
    var fps := if IsNumber(fpsItem) then fpsItem.value.value else 24.0;
    var pages: seq<PageId> := [];
    var pagesItem := GetObjectItem(root, "pages");
    if pagesItem.Some? && pagesItem.value.Arr? {
      pages := LoadPages(pagesItem.value.items, gpu);
    }
    var symbols: seq<Symbol> := [];
    var symbolsItem := GetObjectItem(root, "symbols");
    if symbolsItem.Some? && symbolsItem.value.Arr? {
      symbols := LoadSymbols(symbolsItem.value.items);
    }
    sw := SwfPack(fps, pages, symbols);
  }

  // ---------------------------------------------------------------------
  // Properties of the translation

  /** A manifest without a numeric `fps` plays at 24 frames per second. */
  lemma FpsDefault(root: Json)
    requires !IsNumber(GetObjectItem(root, "fps"))
    ensures FpsOf(Some(root)) == 24.0
  {
  }

  /** A numeric `fps` is taken as given, even when it is not positive. */
  lemma FpsFromManifest(root: Json, v: real)
    requires GetObjectItem(root, "fps") == Some(Num(v))
    ensures FpsOf(Some(root)) == v
  {
  }

  /**
   * Member names are compared ignoring case and the first match wins:
   * `{"FPS": 30, "fps": 12}` plays at 30.
   */
  lemma FpsKeyIgnoresCase()
    ensures FpsOf(Some(Obj([Member("FPS", Num(30.0)), Member("fps", Num(12.0))]))) == 30.0
  {
    assert Text.EqualsIgnoreCase("FPS", "fps");
  }

  /** A member lookup in an object without numeric members finds no number. */
  lemma NoNumberFound(fr: Json, key: string)
    requires fr.Obj? ==> forall i :: 0 <= i < |fr.members| ==> !fr.members[i].value.Num?
    ensures !IsNumber(GetObjectItem(fr, key))
  {
    if fr.Obj? {
      var found := FindMember(fr.members, key);
      if found.Some? {
        assert !fr.members[found.value].value.Num?;
      }
    }
  }

  /**
   * A frame object without numeric members is the frame at the origin of
   * page 0 that holds for exactly one tick.
   */
  lemma FrameDefaults(fr: Json)
    requires fr.Obj? ==> forall i :: 0 <= i < |fr.members| ==> !fr.members[i].value.Num?
    ensures FrameOf(fr) == Frame(0, 0, 0, 0, 0, 0, 0, 0, 1, PolysOf(GetObjectItem(fr, "poly")))
  {
    NoNumberFound(fr, "idx");
    NoNumberFound(fr, "page");
    NoNumberFound(fr, "x");
    NoNumberFound(fr, "y");
    NoNumberFound(fr, "w");
    NoNumberFound(fr, "h");
    NoNumberFound(fr, "ox");
    NoNumberFound(fr, "oy");
    NoNumberFound(fr, "duration");
  }

  /** A numeric member is truncated toward zero: a `duration` of 2.9 holds for 2 ticks. */
  lemma FrameDurationTruncated(fr: Json, v: real)
    requires GetObjectItem(fr, "duration") == Some(Num(v))
    ensures FrameOf(fr).duration == Trunc(v)
    ensures v >= 0.0 ==> FrameOf(fr).duration as real <= v < FrameOf(fr).duration as real + 1.0
  {
  }

  /** A point coordinate that is missing or not a number is 0.0. */
  lemma PointDefaults(p: Json)
    ensures !IsNumber(GetObjectItem(p, "x")) ==> PointOf(p).x == 0.0
    ensures !IsNumber(GetObjectItem(p, "y")) ==> PointOf(p).y == 0.0
  {
  }

  /**
   * `poly: [{x,y}, ...]`: exactly one polygon, with one point per element
   * (an element that is not an object becomes the point (0, 0)).
   */
  lemma SinglePolygon(items: seq<Json>)
    requires |items| > 0 && items[0].Obj?
    ensures |PolysOf(Some(Arr(items)))| == 1
    ensures |PolysOf(Some(Arr(items)))[0].pts| == |items|
    ensures forall k :: 0 <= k < |items| ==> PolysOf(Some(Arr(items)))[0].pts[k] == PointOf(items[k])
  {
  }

  /**
   * `poly: [[{x,y}, ...], ...]`, or any array not starting with an object:
   * one polygon per element; an element that is not an array has no points.
   */
  lemma MultiPolygon(items: seq<Json>)
    requires |items| == 0 || !items[0].Obj?
    ensures |PolysOf(Some(Arr(items)))| == |items|
    ensures forall i :: 0 <= i < |items| && !items[i].Arr? ==> PolysOf(Some(Arr(items)))[i].pts == []
    ensures forall i :: 0 <= i < |items| && items[i].Arr? ==>
              |PolysOf(Some(Arr(items)))[i].pts| == |items[i].items| &&
              forall k :: 0 <= k < |items[i].items| ==> PolysOf(Some(Arr(items)))[i].pts[k] == PointOf(items[i].items[k])
  {
  }

  /** A missing or non-array `poly` gives a frame without polygons. */
  lemma NoPolygon(poly: Option<Json>)
    requires poly.None? || !poly.value.Arr?
    ensures PolysOf(poly) == []
  {
  }

  /**
   * A symbol keeps its string `name` (else "symbol") and has one frame per
   * element of its `frames` array, in array order, not sorted by `idx`.
   */
  lemma SymbolShape(sym: Json)
    ensures GetObjectItem(sym, "name").Some? && GetObjectItem(sym, "name").value.Str? ==>
              SymbolOf(sym).name == GetObjectItem(sym, "name").value.s
    ensures !(GetObjectItem(sym, "name").Some? && GetObjectItem(sym, "name").value.Str?) ==>
              SymbolOf(sym).name == "symbol"
    ensures |SymbolOf(sym).frames| == |ArrayItems(GetObjectItem(sym, "frames"))|
    ensures forall i :: 0 <= i < |SymbolOf(sym).frames| ==>
              SymbolOf(sym).frames[i] == FrameOf(ArrayItems(GetObjectItem(sym, "frames"))[i])
  {
  }

  /**
   * One unnamed symbol whose one frame is `{}`: the frame holds for one tick
   * and has no polygon to hit.
   */
  lemma ManifestWithoutPoly()
    ensures var doc := Obj([Member("symbols", Arr([Obj([Member("frames", Arr([Obj([])]))])]))]);
            FpsOf(Some(doc)) == 24.0 &&
            SymbolsOf(Some(doc)) == [Symbol("symbol", [Frame(0, 0, 0, 0, 0, 0, 0, 0, 1, [])])]
  {
    var frame := Obj([]);
    var sym := Obj([Member("frames", Arr([frame]))]);
    var doc := Obj([Member("symbols", Arr([sym]))]);
    assert Text.EqualsIgnoreCase("symbols", "symbols");
    assert Text.EqualsIgnoreCase("frames", "frames");
    assert !Text.EqualsIgnoreCase("symbols", "fps");
    assert !Text.EqualsIgnoreCase("frames", "name");
    assert SymbolOf(sym).frames == [FrameOf(frame)];
  }
}

/**
 * The state `main` of test-render/main.c keeps across the frames of its
 * loop, and what each event of a frame does to it: the space key and the
 * Play/Pause button, the R key and the Restart button, the animation
 * update, the pack and symbol dropdowns, the polygon hover test, and the
 * final unload.
 *
 * Each frame `main` runs, in this order: keys (`ToggleOffsets`,
 * `TogglePlaying`, `RestartKey`), `Tick`, `PackDropdown`, `SymbolDropdown`,
 * the buttons (`TogglePlaying`, `Restart`), then `Hover`. The drawing itself
 * is not modelled.
 */
module Viewer {
  import opened Wrappers
  import opened Text
  import opened Catalog
  import opened CJson
  import opened Pack
  import opened Loader
  import opened Playback
  import opened HitTest

  /** The anchor `P` of the preview, `previewScale` and `speed`: fixed in `main`. */
  const Anchor := Pt(640.0, 580.0)
  const PreviewScale := 1.0
  const Speed := 1.0

  function SymbolNames(pack: SwfPack): (r: seq<string>)
    ensures |r| == |pack.symbols|
    ensures forall i :: 0 <= i < |r| ==> r[i] == pack.symbols[i].name
  {
    seq(|pack.symbols|, i requires 0 <= i < |pack.symbols| => pack.symbols[i].name)
  }

  /**
   * The page slots a load of `doc` fills when the texture provider loads
   * exactly the paths `loads` accepts: one slot per entry of `pages`, holding
   * a texture exactly when the entry is such a path.
   */
  ghost predicate PagesLoadedFrom(pages: seq<PageId>, doc: Option<Json>, loads: string -> bool)
  {
    |pages| == |PageEntries(doc)| &&
    forall i :: 0 <= i < |pages| ==>
      (pages[i] != 0 <==> PageEntries(doc)[i].Str? && loads(PageEntries(doc)[i].s))
  }

  /**
   * The symbol dropdown offers exactly the indices the viewer accepts: one
   * item per symbol, or a single empty item for a pack without symbols,
   * provided no symbol name contains the separator.
   */
  lemma SymbolDropdownItems(pack: SwfPack)
    requires forall i :: 0 <= i < |pack.symbols| ==> ';' !in pack.symbols[i].name
    ensures forall s: nat :: s < |Split(Join(SymbolNames(pack)))| <==> SymbolIndexOk(pack, s)
  {
    if |pack.symbols| > 0 {
      SplitJoin(SymbolNames(pack));
    } else {
      assert Split(Join(SymbolNames(pack))) == [""];
    }
  }

  /**
   * A dropdown list built from the symbol names as they are: a symbol whose
   * name contains the separator adds an item past the last symbol, and
   * selecting it picks an index that names no symbol.
   */
  lemma SeparatorInNameAddsItem()
    ensures var pack := SwfPack(24.0, [], [Symbol("a;b", [])]);
      |Split(Join(SymbolNames(pack)))| == 2 && !SymbolIndexOk(pack, 1)
  {
    var pack := SwfPack(24.0, [], [Symbol("a;b", [])]);
    assert SymbolNames(pack) == ["a;b"];
    LastIndexAt("a;b", ';', 1);
    assert LastIndex("a", ';') == None;
    assert "a;b"[..1] == "a" && "a;b"[2..] == "b";
    assert Split("a") == ["a"];
    assert Split("a;b") == ["a", "b"];
  }

  /**
   * A pack list built from the entry names as they are: a root entry named
   * `a;b.json` is one pack, yet the dropdown shows two items for it, and
   * selecting the second reads past the end of the pack list.
   */
  lemma SeparatorInPackNameAddsItem()
    ensures var packNames := JsonPacks([Entry("a;b.json", false)]);
      packNames == ["a;b.json"] && |Split(Join(packNames))| == 2 && 2 > |packNames|
  {
    SeparatorNameIsPack();
    SeparatorNameSplits();
  }

  lemma SeparatorNameIsPack()
    ensures JsonPacks([Entry("a;b.json", false)]) == ["a;b.json"]
  {
    LastIndexAt("a;b.json", '.', 3);
    assert "a;b.json"[3..] == ".json";
    assert IsPack(Entry("a;b.json", false));
    assert [Entry("a;b.json", false)][..0] == [];
  }

  lemma SeparatorNameSplits()
    ensures Split(Join(["a;b.json"])) == ["a", "b.json"]
  {
    LastIndexAt("a;b.json", ';', 1);
    assert LastIndex("a", ';') == None;
    assert "a;b.json"[..1] == "a" && "a;b.json"[2..] == "b.json";
    assert Split("a") == ["a"];
  }

  /**
   * A name as a dropdown item: every separator, and every line break (which
   * raygui also splits at), becomes a ','.
   */
  function ItemText(name: string): (r: string)
    ensures |r| == |name| && ';' !in r && '\n' !in r
    ensures forall i :: 0 <= i < |name| && name[i] != ';' && name[i] != '\n' ==> r[i] == name[i]
  {
    seq(|name|, i requires 0 <= i < |name| => if name[i] == ';' || name[i] == '\n' then ',' else name[i])
  }

  function ItemTexts(names: seq<string>): (r: seq<string>)
    ensures |r| == |names|
    ensures forall i :: 0 <= i < |r| ==> r[i] == ItemText(names[i])
  {
    seq(|names|, i requires 0 <= i < |names| => ItemText(names[i]))
  }

  /**
   * With the separators taken out of the names, the symbol dropdown offers
   * exactly the indices the viewer accepts, whatever the names are.
   */
  lemma ItemTextsMatchSymbols(pack: SwfPack)
    ensures forall s: nat :: s < |Split(Join(ItemTexts(SymbolNames(pack))))| <==> SymbolIndexOk(pack, s)
  {
    if |pack.symbols| > 0 {
      SplitJoin(ItemTexts(SymbolNames(pack)));
    } else {
      assert Split(Join(ItemTexts(SymbolNames(pack)))) == [""];
    }
  }

  /**
   * With the separators taken out of the entry names, the pack dropdown
   * offers exactly one item per pack, so every selection indexes the list.
   */
  lemma ItemTextsMatchPacks(entries: seq<Entry>)
    requires |JsonPacks(entries)| > 0
    ensures |Split(Join(ItemTexts(JsonPacks(entries))))| == |JsonPacks(entries)|
  {
    SplitJoin(ItemTexts(JsonPacks(entries)));
  }

  /** The screen position of a frame's top-left corner: `P` plus the scaled offset unless offsets are ignored. */
  function DrawOrigin(f: Frame, ignoreOffsets: bool): (r: Pt)
    ensures ignoreOffsets ==> r == Anchor
    ensures !ignoreOffsets ==> r == Placed(Pt(f.ox as real, f.oy as real), Anchor.x, Anchor.y, PreviewScale)
  {
    Pt(Anchor.x + (if ignoreOffsets then 0.0 else f.ox as real * PreviewScale),
       Anchor.y + (if ignoreOffsets then 0.0 else f.oy as real * PreviewScale))
  }

  /** The R key reads `frames[0]` of the selected symbol whenever the pack has symbols. */
  predicate RestartKeyDefined(symbols: seq<Symbol>, sym: nat)
  {
    |symbols| == 0 || (sym < |symbols| && |symbols[sym].frames| > 0)
  }

  /**
   * A manifest whose only symbol is an empty object yields a symbol named
   * "symbol" without frames, selected at start-up: the R key then reads the
   * first element of a null frame array.
   */
  lemma RestartKeyUndefinedForEmptySymbol()
    ensures SymbolsOf(Some(Obj([Member("symbols", Arr([Obj([])]))]))) == [Symbol("symbol", [])]
    ensures !RestartKeyDefined(SymbolsOf(Some(Obj([Member("symbols", Arr([Obj([])]))]))), 0)
  {
    var doc := Some(Obj([Member("symbols", Arr([Obj([])]))]));
    assert GetObjectItem(doc.value, "symbols") == Some(Arr([Obj([])]));
    assert SymbolOf(Obj([])) == Symbol("symbol", []);
  }

  /** `dt * fps * speed`: the ticks a frame time `dt` is worth; never negative. */
  function Gain(dt: real, fps: real): (r: real)
    requires dt >= 0.0 && fps > 1.0
    ensures r >= 0.0
    ensures dt > 0.0 ==> r > 0.0
  {
    dt * fps * Speed
  }

  class Viewer {
    const gpu: TextureProvider
    /** The parsed manifest at each path, `None` when it is missing or does not parse. */
    const manifest: string -> Option<Json>
    /** The display names of the packs and the dropdown text `ddPacks`. */
    const packNames: seq<string>
    const packList: string
    /** `ddPack` and the static `lastPack` of the reload check. */
    var packIndex: nat
    var lastPack: int
    /** `sw` and the dropdown text `ddSyms`. */
    var pack: SwfPack
    var symbolList: string
    /** `ddSym` and the static `lastSym` of the reset check. */
    var sym: nat
    var lastSym: int
    /** `curFrame` and `curFrameDurationLeft`. */
    var curFrame: nat
    var durationLeft: int
    var fps: real
    var playing: bool
    /** The static accumulator of the animation update, in ticks. */
    var acc: real
    /** `gIgnoreOffsets`, toggled by the O key. */
    var ignoreOffsets: bool

    ghost predicate Valid()
      reads this, gpu
    {
      gpu.Valid() &&
      0 < |packNames| && packIndex < |packNames| && packList == Join(packNames) &&
      (lastPack == -1 || lastPack == packIndex) &&
      symbolList == Join(SymbolNames(pack)) &&
      SymbolIndexOk(pack, sym) &&
      (if |SymbolFrames(pack, sym)| > 0 then curFrame < |SymbolFrames(pack, sym)| else curFrame == 0) &&
      fps == EffectiveFps(pack.fps) &&
      acc >= 0.0 &&
      DistinctPages(pack.pages) && gpu.live == LiveSet(pack.pages)
    }

    function ClockOf(): Clock
      reads this
    {
      Clock(curFrame, durationLeft)
    }

    /** The animation update runs: a symbol with frames is selected and playback is on. */
    predicate Animating()
      reads this
      requires SymbolIndexOk(pack, sym)
    {
      |SymbolFrames(pack, sym)| > 0 && playing
    }

    /**
     * Start-up with at least one pack at the archive root: the packs found,
     * their dropdown text, the first pack loaded from its manifest, its
     * symbol list, the clock on frame 0 of symbol 0, the effective rate,
     * playback on. (With no pack `main` exits.)
     */
    constructor (entries: seq<Entry>, manifest: string -> Option<Json>, loads: string -> bool)
      requires |JsonPacks(entries)| > 0
      ensures Valid() && fresh(gpu) && gpu.loads == loads && gpu.released == []
      ensures packNames == JsonPacks(entries) && this.manifest == manifest
      ensures packIndex == 0 && lastPack == -1
      ensures pack.fps == FpsOf(manifest(packNames[0])) && pack.symbols == SymbolsOf(manifest(packNames[0]))
      ensures PagesLoadedFrom(pack.pages, manifest(packNames[0]), loads)
      ensures sym == 0 && lastSym == -1 && ClockOf() == StartClock(pack, 0)
      ensures fps == EffectiveFps(FpsOf(manifest(packNames[0]))) && playing && acc == 0.0 && !ignoreOffsets
    {
      var found := FindRootJsonPacks(entries);
      var g := new TextureProvider(loads);
      var joined, _ := JoinNames(found);
      var sw := LoadSwfPackFromJson(manifest(found[0]), g);
      var names, _ := JoinNames(SymbolNames(sw));
      gpu := g;
      this.manifest := manifest;
      packNames := found;
      packList := joined;
      packIndex, lastPack := 0, -1;
      pack, symbolList := sw, names;
      sym, lastSym := 0, -1;
      curFrame := 0;
      durationLeft := if |sw.symbols| > 0 && |sw.symbols[0].frames| > 0 then sw.symbols[0].frames[0].duration else 1;
      fps := if sw.fps > 1.0 then sw.fps else 24.0;
      playing, acc, ignoreOffsets := true, 0.0, false;
    }

    /** The space key and the Play/Pause button. */
    method TogglePlaying()
      requires Valid()
      modifies this
      ensures Valid() && playing == !old(playing)
      ensures pack == old(pack) && sym == old(sym) && ClockOf() == old(ClockOf()) && acc == old(acc)
      ensures packIndex == old(packIndex) && lastPack == old(lastPack) && lastSym == old(lastSym)
      ensures ignoreOffsets == old(ignoreOffsets)
    {
      playing := !playing;
    }

    /** The O key. */
    method ToggleOffsets()
      requires Valid()
      modifies this
      ensures Valid() && ignoreOffsets == !old(ignoreOffsets)
      ensures pack == old(pack) && sym == old(sym) && ClockOf() == old(ClockOf()) && acc == old(acc)
      ensures playing == old(playing) && packIndex == old(packIndex) && lastPack == old(lastPack) && lastSym == old(lastSym)
    {
      ignoreOffsets := !ignoreOffsets;
    }

    /**
     * The R key as written: frame 0 and the duration of `frames[0]` of the
     * selected symbol whenever the pack has symbols, without checking that
     * the symbol has frames.
     */
    method RestartKey()
      requires Valid() && RestartKeyDefined(pack.symbols, sym)
      modifies this
      ensures Valid() && ClockOf() == StartClock(pack, sym)
      ensures pack == old(pack) && sym == old(sym) && playing == old(playing) && acc == old(acc)
      ensures packIndex == old(packIndex) && lastPack == old(lastPack) && lastSym == old(lastSym)
      ensures ignoreOffsets == old(ignoreOffsets)
    {
      curFrame := 0;
      durationLeft := if |pack.symbols| > 0 then pack.symbols[sym].frames[0].duration else 1;
    }

    /** The Restart button: the same reset, guarded for a symbol without frames. */
    method Restart()
      requires Valid()
      modifies this
      ensures Valid() && ClockOf() == StartClock(pack, sym)
      ensures pack == old(pack) && sym == old(sym) && playing == old(playing) && acc == old(acc)
      ensures packIndex == old(packIndex) && lastPack == old(lastPack) && lastSym == old(lastSym)
      ensures ignoreOffsets == old(ignoreOffsets)
    {
      curFrame := 0;
      durationLeft :=
        if |pack.symbols| > 0 && |pack.symbols[sym].frames| > 0 then pack.symbols[sym].frames[0].duration else 1;
    }

    /**
     * The animation update of one frame of `main` with frame time `dt`: the
     * accumulator gains `dt * fps * speed` and every whole unit in it is one
     * tick of the clock; nothing moves, the accumulator included, unless a
     * symbol with frames is selected and playback is on.
     */
    method Tick(dt: real)
      requires Valid() && dt >= 0.0
      modifies this
      ensures Valid()
      ensures pack == old(pack) && sym == old(sym) && fps == old(fps) && playing == old(playing)
      ensures packIndex == old(packIndex) && lastPack == old(lastPack) && lastSym == old(lastSym)
      ensures ignoreOffsets == old(ignoreOffsets)
      ensures Animating() ==>
        (ClockOf(), acc) == Advance(old(ClockOf()), old(acc), Gain(dt, fps), SymbolFrames(pack, sym))
      ensures !Animating() ==> ClockOf() == old(ClockOf()) && acc == old(acc)
    {
      if |pack.symbols| > 0 {
        var frames := pack.symbols[sym].frames;
        if |frames| > 0 && playing {
          var next, rest := Drain(ClockOf(), acc, Gain(dt, fps), frames);
          curFrame, durationLeft, acc := next.frame, next.left, rest;
        } else {
          assert !Animating();
        }
      }
    }

    /**
     * The pack dropdown once closed: when the selection differs from the
     * last pack seen, the current pack is unloaded (its textures released),
     * the selected one loaded from its manifest (`None` when it cannot
     * be read or parsed), the symbol list rebuilt, symbol 0 selected, the
     * clock reset and the rate derived again; playback and the accumulator
     * carry over.
     */
    method PackDropdown(k: nat)
      requires Valid() && k < |packNames|
      modifies this, gpu
      ensures Valid() && packIndex == k && lastPack == k
      ensures playing == old(playing) && acc == old(acc) && lastSym == old(lastSym)
      ensures ignoreOffsets == old(ignoreOffsets)
      ensures old(lastPack) == k ==>
        pack == old(pack) && sym == old(sym) && ClockOf() == old(ClockOf()) && fps == old(fps) &&
        gpu.live == old(gpu.live) && gpu.released == old(gpu.released)
      ensures old(lastPack) != k ==>
        pack.fps == FpsOf(manifest(packNames[k])) && pack.symbols == SymbolsOf(manifest(packNames[k])) &&
        PagesLoadedFrom(pack.pages, manifest(packNames[k]), gpu.loads) &&
        sym == 0 && ClockOf() == StartClock(pack, 0) && fps == EffectiveFps(FpsOf(manifest(packNames[k]))) &&
        gpu.released == old(gpu.released) + LivePages(old(pack.pages))
    {
      if lastPack != k {
        var sw, names := SwapPack(pack, manifest(packNames[k]), gpu);
        Install(k, sw, names);
      }
    }

    /** The viewer state right after a pack switch to pack `k`, loaded as `sw`. */
    method Install(k: nat, sw: SwfPack, names: string)
      requires k < |packNames| && 0 < |packNames| && packList == Join(packNames) && acc >= 0.0
      requires gpu.Valid() && gpu.live == LiveSet(sw.pages) && DistinctPages(sw.pages)
      requires names == Join(SymbolNames(sw))
      modifies this
      ensures Valid() && packIndex == k && lastPack == k && pack == sw && sym == 0
      ensures ClockOf() == StartClock(sw, 0) && fps == EffectiveFps(sw.fps)
      ensures playing == old(playing) && acc == old(acc) && lastSym == old(lastSym)
      ensures ignoreOffsets == old(ignoreOffsets)
    {
      var start := if |sw.symbols| > 0 && |sw.symbols[0].frames| > 0 then sw.symbols[0].frames[0].duration else 1;
      var rate := if sw.fps > 1.0 then sw.fps else 24.0;
      packIndex, lastPack, pack, symbolList := k, k, sw, names;
      sym, curFrame, durationLeft, fps := 0, 0, start, rate;
    }

    /**
     * The symbol dropdown once closed, with selection `s`: when it differs
     * from the last symbol seen, the clock is reset on that symbol. The rate
     * is left as it is.
     */
    method SymbolDropdown(s: nat)
      requires Valid() && SymbolIndexOk(pack, s)
      requires s == lastSym ==> s == sym
      modifies this
      ensures Valid() && sym == s && lastSym == s
      ensures pack == old(pack) && fps == old(fps) && playing == old(playing) && acc == old(acc)
      ensures packIndex == old(packIndex) && lastPack == old(lastPack) && ignoreOffsets == old(ignoreOffsets)
      ensures old(lastSym) != s ==> ClockOf() == StartClock(pack, s)
      ensures old(lastSym) == s ==> ClockOf() == old(ClockOf())
    {
      sym := s;
      if lastSym != s {
        lastSym := s;
        curFrame := 0;
        durationLeft :=
          if |pack.symbols| > 0 && |pack.symbols[s].frames| > 0 then pack.symbols[s].frames[0].duration else 1;
      }
    }

    /**
     * The hover test: `None` when no frame is drawn (no symbol with frames,
     * or the frame's page is not a page of the pack); otherwise whether the
     * mouse is inside some polygon of the current frame, placed at the
     * frame's origin and scale.
     */
    method Hover(mouse: Pt) returns (hit: Option<bool>)
      requires Valid()
      ensures hit.Some? <==>
        |SymbolFrames(pack, sym)| > 0 && 0 <= SymbolFrames(pack, sym)[curFrame].page < |pack.pages|
      ensures hit.Some? ==>
        var f := SymbolFrames(pack, sym)[curFrame];
        var o := DrawOrigin(f, ignoreOffsets);
        (hit.value <==> exists k :: 0 <= k < |f.polys| && InPolygon(mouse, f.polys[k].pts, o.x, o.y, PreviewScale))
    {
      if |pack.symbols| > 0 && |pack.symbols[sym].frames| > 0 {
        var f := pack.symbols[sym].frames[curFrame];
        if f.page >= 0 && f.page < |pack.pages| {
          var offx := Anchor.x + (if ignoreOffsets then 0.0 else f.ox as real * PreviewScale);
          var offy := Anchor.y + (if ignoreOffsets then 0.0 else f.oy as real * PreviewScale);
          var hovered := AnyPolyHit(mouse, f.polys, offx, offy, PreviewScale);
          return Some(hovered);
        }
      }
      return None;
    }

    /** The clean-up after the loop: the current pack is unloaded; no texture stays loaded. */
    method Shutdown()
      requires Valid()
      modifies this, gpu
      ensures gpu.live == {}
      ensures gpu.released == old(gpu.released) + LivePages(old(pack.pages))
      ensures pack == EmptyPack
    {
      var cleared := UnloadSwfPack(pack, gpu);
      pack := cleared;
    }
  }

  /**
   * The reload of a pack switch: every texture of the current pack is
   * released, the new pack loaded, and its symbol list rebuilt.
   */
  method SwapPack(current: SwfPack, doc: Option<Json>, gpu: TextureProvider) returns (next: SwfPack, names: string)
    requires gpu.Valid() && gpu.live == LiveSet(current.pages)
    modifies gpu
    ensures gpu.Valid() && gpu.live == LiveSet(next.pages) && DistinctPages(next.pages)
    ensures gpu.released == old(gpu.released) + LivePages(current.pages)
    ensures next.fps == FpsOf(doc) && next.symbols == SymbolsOf(doc)
    ensures PagesLoadedFrom(next.pages, doc, gpu.loads)
    ensures names == Join(SymbolNames(next))
  {
    var cleared := UnloadSwfPack(current, gpu);
    next := LoadSwfPackFromJson(doc, gpu);
    var total;
    names, total := JoinNames(SymbolNames(next));
  }

  /**
   * The viewer started on a manifest whose only symbol has no frames is in
   * a valid state where the R key's read of `frames[0]` is out of bounds.
   */
  method EmptySymbolViewer(entries: seq<Entry>, loads: string -> bool) returns (v: Viewer)
    requires |JsonPacks(entries)| > 0
    ensures v.Valid() && !RestartKeyDefined(v.pack.symbols, v.sym)
  {
    RestartKeyUndefinedForEmptySymbol();
    v := new Viewer(entries, _ => Some(Obj([Member("symbols", Arr([Obj([])]))])), loads);
  }

  /**
   * Start-up followed by the first frame of `main`: `lastPack` is still -1,
   * so pack 0 is unloaded and loaded again from the same manifest. The pack
   * read back has the rate, the symbols and the occupied page slots of the
   * start-up pack; only the texture ids are new.
   */
  method StartThenFirstFrame(entries: seq<Entry>, manifest: string -> Option<Json>, loads: string -> bool)
    returns (v: Viewer, startPack: SwfPack)
    requires |JsonPacks(entries)| > 0
    ensures v.Valid() && v.packIndex == 0 && v.lastPack == 0
    ensures v.pack.fps == startPack.fps && v.pack.symbols == startPack.symbols
    ensures |v.pack.pages| == |startPack.pages|
    ensures forall i :: 0 <= i < |v.pack.pages| ==> (v.pack.pages[i] != 0 <==> startPack.pages[i] != 0)
    ensures v.gpu.released == LivePages(startPack.pages)
  {
    v := new Viewer(entries, manifest, loads);
    startPack := v.pack;
    v.PackDropdown(0);
  }
}

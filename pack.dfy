/**
 * The in-memory animation pack (`Pt`, `Poly`, `Frame`, `Symbol`, `SwfPack`
 * of test-render/main.c), the texture provider that backs its pages, and
 * `UnloadSwfPack`, which hands every live page back to the provider.
 *
 * A page is identified by the id of its texture; 0 is the empty texture
 * `(Texture2D){0}` stored when a page could not be loaded.
 */
module Pack {

  type PageId = nat

  datatype Pt = Pt(x: real, y: real)

  /** A closed ring of points; `count` of the C struct is `|pts|`. */
  datatype Poly = Poly(pts: seq<Pt>)

  datatype Frame = Frame(
    idx: int, page: int,
    x: int, y: int, w: int, h: int,
    ox: int, oy: int,
    duration: int,
    polys: seq<Poly>)

  datatype Symbol = Symbol(name: string, frames: seq<Frame>)

  datatype SwfPack = SwfPack(fps: real, pages: seq<PageId>, symbols: seq<Symbol>)

  /** `(SwfPack){0}`: what a failed load returns and what an unload leaves. */
  const EmptyPack := SwfPack(0.0, [], [])

  /** The ids of the slots that hold a texture, in slot order. */
  function LivePages(pages: seq<PageId>): (r: seq<PageId>)
    ensures 0 !in r
    ensures forall id :: id in r <==> id in pages && id != 0
  {
    if |pages| == 0 then []
    else
      var init := pages[..|pages| - 1];
      assert pages == init + [pages[|pages| - 1]];
      LivePages(init) + (if pages[|pages| - 1] != 0 then [pages[|pages| - 1]] else [])
  }

  function LiveSet(pages: seq<PageId>): set<PageId>
  {
    set id | id in pages && id != 0
  }

  /** No texture id is stored in two slots. */
  predicate DistinctPages(pages: seq<PageId>)
  {
    forall i, j :: 0 <= i < j < |pages| && pages[i] != 0 ==> pages[i] != pages[j]
  }

  /**
   * When slots never share a texture, releasing the live slots releases
   * every live texture exactly once.
   */
  lemma {:induction false} LivePagesOnce(pages: seq<PageId>)
    requires DistinctPages(pages)
    ensures forall id :: multiset(LivePages(pages))[id] == (if id in LiveSet(pages) then 1 else 0)
  {
    if |pages| > 0 {
      var init, last := pages[..|pages| - 1], pages[|pages| - 1];
      assert pages == init + [last];
      LivePagesOnce(init);
      assert last != 0 ==> last !in init;
    }
  }

  /**
   * The texture provider: `LoadTextureFromPak` and `UnloadTexture`. Whether a
   * page path yields a texture (the file is in a mounted archive, decodes, and
   * uploads) is fixed by `loads`; every texture it hands out gets a fresh
   * non-zero id. `released` records the calls to `UnloadTexture` in order.
   */
  class TextureProvider {
    const loads: string -> bool
    var lastId: nat
    var live: set<PageId>
    var released: seq<PageId>

    ghost predicate Valid()
      reads this
    {
      0 !in live && forall id :: id in live ==> id <= lastId
    }

    constructor (loads: string -> bool)
      ensures Valid() && this.loads == loads
      ensures lastId == 0 && live == {} && released == []
    {
      this.loads := loads;
      lastId, live, released := 0, {}, [];
    }

    method Load(path: string) returns (id: PageId)
      requires Valid()
      modifies this
      ensures Valid() && released == old(released)
      ensures id != 0 <==> loads(path)
      ensures id != 0 ==> id == lastId == old(lastId) + 1 && live == old(live) + {id}
      ensures id == 0 ==> lastId == old(lastId) && live == old(live)
    {
      if loads(path) {
        lastId := lastId + 1;
        id := lastId;
        live := live + {id};
      } else {
        id := 0;
      }
    }

    method Unload(id: PageId)
      requires Valid()
      modifies this
      ensures Valid() && lastId == old(lastId)
      ensures live == old(live) - {id}
      ensures released == old(released) + [id]
    {
      live := live - {id};
      released := released + [id];
    }
  }

  /**
   * `UnloadSwfPack`: every page slot that holds a texture is unloaded, in slot
   * order, and the pack is zeroed. The polygon, frame and name buffers it
   * frees have no counterpart among Dafny values.
   */
  method UnloadSwfPack(sw: SwfPack, gpu: TextureProvider) returns (cleared: SwfPack)
    requires gpu.Valid()
    modifies gpu
    ensures gpu.Valid() && gpu.lastId == old(gpu.lastId)
    ensures gpu.released == old(gpu.released) + LivePages(sw.pages)
    ensures gpu.live == old(gpu.live) - LiveSet(sw.pages)
    ensures cleared == EmptyPack
  {
    var pages := sw.pages;
    for i := 0 to |pages|
      invariant gpu.Valid() && gpu.lastId == old(gpu.lastId)
      invariant gpu.released == old(gpu.released) + LivePages(pages[..i])
      invariant gpu.live == old(gpu.live) - LiveSet(pages[..i])
    {
      assert pages[..i + 1] == pages[..i] + [pages[i]];
      assert pages[..i + 1][..i] == pages[..i];
      if pages[i] != 0 {
        gpu.Unload(pages[i]);
      }
    }
    assert pages[..|pages|] == pages;
    cleared := EmptyPack;
  }
}

/**
 * `FindRootJsonPacks` of test-render/main.c: the packs offered by the viewer
 * are the plain files at the root of the mounted archives whose extension
 * (from the last '.') is ".json" in any case. Both the name shown in the
 * dropdown and the path read are the entry name itself.
 */
module Catalog {
  import opened Wrappers
  import opened Text

  /** An entry of `PHYSFS_enumerateFiles("/")`, in enumeration order. */
  datatype Entry = Entry(name: string, isDir: bool)

  predicate IsPack(e: Entry)
  {
    !e.isDir && IsJsonPackName(e.name)
  }

  /** The names of the pack entries, in enumeration order. */
  function JsonPacks(entries: seq<Entry>): seq<string>
  {
    if |entries| == 0 then []
    else
      var last := entries[|entries| - 1];
      JsonPacks(entries[..|entries| - 1]) + (if IsPack(last) then [last.name] else [])
  }

  /** `FindRootJsonPacks`: one `PushPack` per matching entry, in order. */
  method FindRootJsonPacks(entries: seq<Entry>) returns (packs: seq<string>)
    ensures packs == JsonPacks(entries)
  {
    packs := [];
    for i := 0 to |entries|
      invariant packs == JsonPacks(entries[..i])
    {
      assert entries[..i + 1][..i] == entries[..i];
      var name := entries[i].name;
      if !entries[i].isDir {
        var dot := LastIndex(name, '.');
        if dot.Some? && EqualsIgnoreCase(name[dot.value..], ".json") {
          packs := packs + [name];
        }
      }
    }
    assert entries[..|entries|] == entries;
  }

  /**
   * A name is offered exactly when some plain-file entry carries it and it
   * passes the extension test; no more packs are offered than entries exist.
   */
  lemma {:induction false} JsonPacksAreThePackEntries(entries: seq<Entry>)
    ensures |JsonPacks(entries)| <= |entries|
    ensures forall name :: name in JsonPacks(entries) <==>
      exists i :: 0 <= i < |entries| && IsPack(entries[i]) && entries[i].name == name
  {
    if |entries| > 0 {
      var init := entries[..|entries| - 1];
      JsonPacksAreThePackEntries(init);
      assert forall i :: 0 <= i < |init| ==> init[i] == entries[i];
    }
  }

  /** The extension test, spelled as in the source, on two sample names. */
  lemma PackNameExamples()
    ensures IsJsonPackName("431.JSON")
    ensures !IsJsonPackName("431.json.bak")
  {
    assert LastIndex("431.JSON", '.') == Some(3);
    assert LastIndex("431.json.bak", '.') == Some(8) by {
      LastIndexAt("431.json.bak", '.', 8);
    }
  }
}

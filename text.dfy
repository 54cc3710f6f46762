/**
 * Small string helpers of test-render/main.c: `EndsWith`, the last-dot
 * ".json" filter used when listing the packs at the archive root, and the
 * ';'-separated item list handed to the dropdown boxes, built with `strcat`
 * into a buffer sized in advance.
 *
 * C strings are modelled by their contents up to the terminating NUL.
 */
module Text {
  import opened Wrappers

  /** `tolower` of the C library in the "C" locale: only 'A'..'Z' change. */
  function Lower(c: char): char
  {
    if 'A' <= c <= 'Z' then (c as int + 32) as char else c
  }

  function LowerString(s: string): (r: string)
    ensures |r| == |s|
    ensures forall i :: 0 <= i < |s| ==> r[i] == Lower(s[i])
  {
    seq(|s|, i requires 0 <= i < |s| => Lower(s[i]))
  }

  /** `strcasecmp(a, b) == 0`. */
  predicate EqualsIgnoreCase(a: string, b: string)
  {
    |a| == |b| && forall i :: 0 <= i < |a| ==> Lower(a[i]) == Lower(b[i])
  }

  /** `EndsWith(s, suf)`: `suf` is a suffix of `s`. */
  function EndsWith(s: string, suf: string): (r: bool)
    ensures r ==> |suf| <= |s| && s == s[..|s| - |suf|] + suf
    ensures forall p: string {:trigger p + suf} :: s == p + suf ==> r
  {
    |s| >= |suf| && s[|s| - |suf|..] == suf
  }

  /** `strrchr(s, c)`: the index of the last occurrence of `c`, if any. */
  function LastIndex(s: string, c: char): (r: Option<nat>)
    ensures r.None? <==> c !in s
    ensures r.Some? ==> r.value < |s| && s[r.value] == c && c !in s[r.value + 1..]
  {
    if |s| == 0 then None
    else if s[|s| - 1] == c then Some(|s| - 1)
    else
      var r := LastIndex(s[..|s| - 1], c);
      assert s == s[..|s| - 1] + [s[|s| - 1]];
      r
  }

  /**
   * The pack filter of `FindRootJsonPacks`: the name has a '.' and the text
   * from the LAST '.' on equals ".json" ignoring case.
   */
  predicate IsJsonPackName(name: string)
  {
    match LastIndex(name, '.')
    case None => false
    case Some(dot) => EqualsIgnoreCase(name[dot..], ".json")
  }

  /** Looking at the last dot only is the same as a case-folded suffix test. */
  lemma JsonPackNameIsSuffix(name: string)
    ensures IsJsonPackName(name) <==> EndsWith(LowerString(name), ".json")
  {
    if IsJsonPackName(name) {
      JsonPackNameHasSuffix(name);
    }
    if EndsWith(LowerString(name), ".json") {
      SuffixMakesJsonPackName(name);
    }
  }

  lemma JsonPackNameHasSuffix(name: string)
    requires IsJsonPackName(name)
    ensures EndsWith(LowerString(name), ".json")
  {
    var n, lower := |name|, LowerString(name);
    var dot := LastIndex(name, '.').value;
    assert n - dot == 5;
    forall k | 0 <= k < 5 ensures lower[n - 5..][k] == ".json"[k] {
      assert Lower(name[dot..][k]) == Lower(".json"[k]);
    }
  }

  /** The last five characters of a name whose lower-cased form ends with ".json" lower to ".json". */
  lemma LowerTail(name: string)
    requires EndsWith(LowerString(name), ".json")
    ensures |name| >= 5
    ensures Lower(name[|name| - 5]) == '.' && Lower(name[|name| - 4]) == 'j'
    ensures Lower(name[|name| - 3]) == 's' && Lower(name[|name| - 2]) == 'o' && Lower(name[|name| - 1]) == 'n'
  {
    var n, lower := |name|, LowerString(name);
    assert lower[n - 5..] == ".json";
    assert lower[n - 5] == '.' && lower[n - 4] == 'j' && lower[n - 3] == 's';
    assert lower[n - 2] == 'o' && lower[n - 1] == 'n';
  }

  /** Only '.' lowers to '.'. */
  lemma LowerDot(c: char)
    ensures Lower(c) == '.' <==> c == '.'
  {
  }

  /** The fifth character from the end is the last '.' of such a name. */
  lemma DotBeforeTail(name: string)
    requires EndsWith(LowerString(name), ".json")
    ensures |name| >= 5 && name[|name| - 5] == '.' && '.' !in name[|name| - 4..]
  {
    LowerTail(name);
    var n := |name|;
    LowerDot(name[n - 5]);
    LowerDot(name[n - 4]);
    LowerDot(name[n - 3]);
    LowerDot(name[n - 2]);
    LowerDot(name[n - 1]);
    assert name[n - 4..] == [name[n - 4], name[n - 3], name[n - 2], name[n - 1]];
  }

  /** ".json" is already in lower case. */
  lemma JsonIsLower()
    ensures forall k :: 0 <= k < 5 ==> Lower(".json"[k]) == ".json"[k]
  {
  }

  lemma TailMatches(name: string)
    requires EndsWith(LowerString(name), ".json")
    ensures |name| >= 5 && EqualsIgnoreCase(name[|name| - 5..], ".json")
  {
    var n, lower := |name|, LowerString(name);
    JsonIsLower();
    var tail := name[n - 5..];
    forall k | 0 <= k < 5 ensures Lower(tail[k]) == Lower(".json"[k]) {
      assert lower[n - 5..][k] == lower[n - 5 + k];
    }
  }

  lemma SuffixMakesJsonPackName(name: string)
    requires EndsWith(LowerString(name), ".json")
    ensures IsJsonPackName(name)
  {
    DotBeforeTail(name);
    TailMatches(name);
    LastIndexAt(name, '.', |name| - 5);
  }

  /** An occurrence with no later occurrence is the one `strrchr` finds. */
  lemma LastIndexAt(s: string, c: char, k: nat)
    requires k < |s| && s[k] == c && c !in s[k + 1..]
    ensures LastIndex(s, c) == Some(k)
  {
  }

  /** The dropdown text: the names separated by ';' (no trailing ';'). */
  function Join(names: seq<string>): string
  {
    if |names| == 0 then ""
    else if |names| == 1 then names[0]
    else Join(names[..|names| - 1]) + ";" + names[|names| - 1]
  }

  /** The dropdown's reading of its text: the pieces between ';'s. */
  function Split(s: string): (r: seq<string>)
    ensures |r| > 0
    decreases |s|
  {
    match LastIndex(s, ';')
    case None => [s]
    case Some(k) => Split(s[..k]) + [s[k + 1..]]
  }

  /** Σ (|name| + 1): the bytes added to `total` for the names. */
  function NameBytes(names: seq<string>): nat
  {
    if |names| == 0 then 0
    else NameBytes(names[..|names| - 1]) + |names[|names| - 1]| + 1
  }

  /**
   * The dropdown shows exactly the given names, in order, provided no name
   * contains the separator.
   */
  lemma {:induction false} SplitJoin(names: seq<string>)
    requires |names| > 0
    requires forall i :: 0 <= i < |names| ==> ';' !in names[i]
    ensures Split(Join(names)) == names
  {
    if |names| > 1 {
      var init, last := names[..|names| - 1], names[|names| - 1];
      var head := Join(init);
      var s := head + ";" + last;
      assert s[|head|] == ';';
      assert s[|head| + 1..] == last;
      LastIndexAt(s, ';', |head|);
      assert s[..|head|] == head;
      SplitJoin(init);
      assert init + [last] == names;
    }
  }

  lemma {:induction false} NameBytesPrefix(names: seq<string>, i: nat)
    requires i <= |names|
    ensures NameBytes(names[..i]) <= NameBytes(names)
    decreases |names| - i
  {
    if i < |names| {
      assert names[..i + 1][..i] == names[..i];
      NameBytesPrefix(names, i + 1);
    } else {
      assert names[..i] == names;
    }
  }

  /**
   * `strcat(buf, s)` on a buffer whose text is `buf[..len]`, terminated by
   * the NUL at `len`: the caller must leave room for `s` and a new NUL.
   */
  method StrCat(buf: array<char>, len: nat, s: string) returns (newLen: nat)
    requires len + |s| < buf.Length && buf[len] == '\0'
    modifies buf
    ensures newLen == len + |s|
    ensures buf[..newLen] == old(buf[..len]) + s
    ensures buf[newLen] == '\0'
    ensures buf[newLen + 1..] == old(buf[newLen + 1..])
  {
    for k := 0 to |s|
      invariant buf[..len + k] == old(buf[..len]) + s[..k]
      invariant buf[len + |s| + 1..] == old(buf[len + |s| + 1..])
    {
      buf[len + k] := s[k];
    }
    newLen := len + |s|;
    buf[newLen] := '\0';
  }

  /**
   * The dropdown list of `main`: `total` starts at 1 and adds |name| + 1 per
   * name; the buffer of that size is cleared and the names are appended with
   * `strcat`, with a ';' after every name but the last. Every write, the
   * terminating NUL included, lands inside the buffer, and exactly one byte
   * of it stays unused when there is at least one name.
   */
  method JoinNames(names: seq<string>) returns (joined: string, total: nat)
    ensures joined == Join(names)
    ensures total == 1 + NameBytes(names)
    ensures total == |joined| + (if |names| == 0 then 1 else 2)
  {
    total := 1;
    for i := 0 to |names|
      invariant total == 1 + NameBytes(names[..i])
    {
      assert names[..i + 1][..i] == names[..i];
      total := total + |names[i]| + 1;
    }
    assert names[..|names|] == names;
    var buf := new char[total];
    buf[0] := '\0';
    var len: nat := 0;
    for i := 0 to |names|
      invariant buf.Length == total
      invariant len < total
      invariant i < |names| ==> len == NameBytes(names[..i])
      invariant i == |names| > 0 ==> len + 1 == NameBytes(names)
      invariant i == 0 ==> buf[..len] == ""
      invariant 0 < i < |names| ==> buf[..len] == Join(names[..i]) + ";"
      invariant 0 < i == |names| ==> buf[..len] == Join(names)
      invariant buf[len] == '\0'
    {
      assert names[..i + 1][..i] == names[..i];
      NameBytesPrefix(names, i + 1);
      ghost var before := buf[..len];
      len := StrCat(buf, len, names[i]);
      if i < |names| - 1 {
        len := StrCat(buf, len, ";");
      }
      if i + 1 == |names| {
        assert names[..i + 1] == names;
      }
    }
    joined := buf[..len];
  }
}

/** Section headers: a `#` run, then either a plain name or a fenced one,
    then an optional template reference. */
module Sections {
  import opened Chars
  import opened Tokens
  import opened Patterns
  import opened Fences

  const SectionStops: set<char> := {'\n', '<'}

  /** An unfenced section name: `[^\s<`][^\n<]*?` without trailing blanks. */
  predicate SectionName(name: string) {
    && name != [] && !IsSpace(name[0]) && name[0] != '<' && name[0] != '`'
    && !IsSpace(name[|name| - 1])
    && forall i :: 0 <= i < |name| ==> name[i] !in SectionStops
  }

  /** Where the lazy section name stops once the tail has to follow. */
  function SectionLength(t: string): (n: nat)
    requires |t| > 0 && !IsSpace(t[0]) && t[0] != '<' && t[0] != '`'
    ensures 1 <= n <= |t| && SectionName(t[..n])
  {
    var m := StopAt(t, 1, SectionStops);
    var n := Trimmed(t[..m]);
    assert t[..m][0] == t[0];
    assert forall i :: 0 <= i < n ==> t[..n][i] == t[i];
    n
  }

  /** The `#` run with the `(?!#)` that makes it maximal. */
  predicate Hashes(s: string, hashes: string) {
    && hashes != [] && AllChar(hashes, '#')
    && Prefix(s, hashes)
    && (|hashes| < |s| ==> s[|hashes|] != '#')
  }

  /** `(#{1,})(?!#)(\s*)`: the part every section pattern starts with. */
  predicate HeadShape(s: string, hashes: string, space: string) {
    && Hashes(s, hashes) && AllSpace(space)
    && |hashes| + |space| <= |s| && s[|hashes|..][..|space|] == space
  }

  /** Where the head of a section line ends. */
  function HeadLength(s: string): (k: nat)
    requires CharRun(s, '#') > 0
    ensures CharRun(s, '#') <= k <= |s|
  {
    CharRun(s, '#') + SpaceRun(s[CharRun(s, '#')..])
  }

  /** The head `HeadLength` reads is the maximal `#` run and the blanks
      after it. */
  lemma HeadLengthShape(s: string)
    requires CharRun(s, '#') > 0
    ensures HeadShape(s, s[..CharRun(s, '#')], s[CharRun(s, '#')..HeadLength(s)])
  {
    var h := CharRun(s, '#');
    var w := SpaceRun(s[h..]);
    assert s[h..h + w] == s[h..][..w];
  }

  /** A section with a plain name: hashes, blanks, name, tail. */
  datatype Section = Section(hashes: string, space: string, name: string, tail: Tail)

  predicate SectionShape(s: string, x: Section) {
    && HeadShape(s, x.hashes, x.space)
    && NamedAt(s, |x.hashes| + |x.space|, x.name, x.tail)
  }

  /** From `k` on, `s` is a plain section name and a section tail. */
  predicate NamedAt(s: string, k: nat, name: string, tail: Tail) {
    && k <= |s| && SectionName(name) && Prefix(s[k..], name)
    && SectionTailShape(s[k..][|name|..], tail)
  }

  /** `(#{1,})(?!#)(\s*)([^\s<`][^\n<]*?)(\s*)` then the section tail. */
  function SectionOf(s: string): Option<Section> {
    if CharRun(s, '#') == 0 then None
    else
      var h := CharRun(s, '#');
      var k := HeadLength(s);
      var t := s[k..];
      if t == [] || t[0] == '<' || t[0] == '`' then None
      else
        var n := SectionLength(t);
        match SectionTailOf(t[n..])
        case None => None
        case Some(tail) => Some(Section(s[..h], s[h..k], t[..n], tail))
  }

  /** What `SectionOf` reads is a section of the plain shape. */
  lemma SectionSound(s: string)
    requires SectionOf(s).Some?
    ensures SectionShape(s, SectionOf(s).value)
  {
    var k := HeadLength(s);
    HeadLengthShape(s);
    SectionIntro(s, CharRun(s, '#'), k, SectionLength(s[k..]), SectionOf(s).value.tail);
  }

  lemma SectionIntro(s: string, h: nat, k: nat, n: nat, tail: Tail)
    requires h <= k && k + n <= |s| && HeadShape(s, s[..h], s[h..k])
    requires SectionName(s[k..][..n]) && SectionTailShape(s[k..][n..], tail)
    ensures SectionShape(s, Section(s[..h], s[h..k], s[k..][..n], tail))
  {
    assert |s[..h]| + |s[h..k]| == k;
  }

  lemma FencedSectionIntro(table: Table, s: string, h: nat, k: nat, fe: Fence, tail: Tail)
    requires h <= k <= |s| && HeadShape(s, s[..h], s[h..k])
    requires FenceShape(table, SectionFollow, s[k..], fe, tail)
    ensures FencedSectionShape(table, s, FencedSection(s[..h], s[h..k], fe, tail))
  {
    assert |s[..h]| + |s[h..k]| == k;
  }

  /** The `#` run and the blanks after it are read as the shape has them
      when a non-blank character follows. */
  lemma HeadComplete(s: string, hashes: string, space: string)
    requires HeadShape(s, hashes, space) && |hashes| + |space| < |s| && !IsSpace(s[|hashes| + |space|])
    ensures CharRun(s, '#') == |hashes| && HeadLength(s) == |hashes| + |space|
  {
    CharRunUnique(s, '#', |hashes|);
    assert s[|hashes|..][|space|] == s[|hashes| + |space|];
    SpaceRunUnique(s[|hashes|..], |space|);
  }

  lemma PrefixFirst(t: string, p: string)
    requires Prefix(t, p) && p != []
    ensures t != [] && t[0] == p[0]
  {
    assert t[..|p|][0] == t[0];
  }

  /** Where a plain section name ends when blanks and then `<` (or the end of
      the line) follow it. */
  lemma SectionLengthIs(t: string, name: string, e: nat)
    requires SectionName(name) && Prefix(t, name)
    requires |name| <= e <= |t| && AllSpace(t[|name|..e]) && (e < |t| ==> t[e] in SectionStops)
    ensures |t| > 0 && !IsSpace(t[0]) && t[0] != '<' && t[0] != '`' && SectionLength(t) == |name|
  {
    assert t[0] == name[0];
    assert forall i :: 1 <= i < |name| ==> t[i] == name[i];
    assert t[|name| - 1] == name[|name| - 1];
    TrimmedStop(t, SectionStops, |name|, e);
  }

  /** Every line of the plain section shape is read as that section. */
  lemma SectionComplete(s: string, x: Section)
    requires SectionShape(s, x)
    ensures SectionOf(s) == Some(x)
  {
    var k := |x.hashes| + |x.space|;
    SectionHead(s, x.hashes, x.space, x.name);
    SectionHashes(s, x);
    SectionNameSteps(s[k..], x.name, x.tail);
    SectionOfIs(s, x, k);
  }

  /** Each step of `SectionOf` on a line of the plain section shape reads
      the corresponding part of `x`. */
  predicate NameSteps(t: string, name: string, tail: Tail) {
    && |t| > 0 && t[0] != '<' && t[0] != '`' && !IsSpace(t[0])
    && SectionLength(t) == |name| && SectionTailOf(t[|name|..]) == Some(tail)
    && t[..|name|] == name
  }

  lemma SectionNameSteps(t: string, name: string, tail: Tail)
    requires SectionName(name) && Prefix(t, name) && SectionTailShape(t[|name|..], tail)
    ensures NameSteps(t, name, tail)
  {
    SectionNameEnd(t, name, tail);
    SectionTailComplete(t[|name|..], tail);
  }

  /** The head of a section line is read as the shape has it when a
      section name follows it. */
  lemma SectionHead(s: string, hashes: string, space: string, name: string)
    requires HeadShape(s, hashes, space) && SectionName(name) && Prefix(s[|hashes| + |space|..], name)
    ensures 0 < |hashes| == CharRun(s, '#')
    ensures |hashes| + |space| == HeadLength(s) < |s|
  {
    PrefixFirst(s[|hashes| + |space|..], name);
    assert s[|hashes| + |space|..][0] == s[|hashes| + |space|];
    HeadComplete(s, hashes, space);
  }

  /** The `#` run and the blanks after it, as slices of the line. */
  lemma SectionHashes(s: string, x: Section)
    requires SectionShape(s, x)
    ensures s[..|x.hashes|] == x.hashes
    ensures s[|x.hashes|..|x.hashes| + |x.space|] == x.space
  {
    assert s[|x.hashes|..|x.hashes| + |x.space|] == s[|x.hashes|..][..|x.space|];
  }

  /** `SectionOf` on a line whose steps read the parts of `x`. */
  lemma SectionOfIs(s: string, x: Section, k: nat)
    requires 0 < |x.hashes| == CharRun(s, '#') && k == HeadLength(s) < |s|
    requires NameSteps(s[k..], x.name, x.tail)
    requires s[..|x.hashes|] == x.hashes && s[|x.hashes|..k] == x.space
    ensures SectionOf(s) == Some(x)
  {
    SectionOfSteps(s, |x.hashes|, k, |x.name|, x.tail);
  }

  /** `SectionOf` once each of its steps is known. */
  lemma SectionOfSteps(s: string, h: nat, k: nat, n: nat, tail: Tail)
    requires 0 < h == CharRun(s, '#') && k == HeadLength(s) && k < |s|
    requires s[k..][0] != '<' && s[k..][0] != '`' && !IsSpace(s[k..][0])
    requires SectionLength(s[k..]) == n && SectionTailOf(s[k..][n..]) == Some(tail)
    ensures SectionOf(s) == Some(Section(s[..h], s[h..k], s[k..][..n], tail))
  {}

  /** The lazy name stops where the shape's name does. */
  lemma SectionNameEnd(t: string, name: string, tail: Tail)
    requires SectionName(name) && Prefix(t, name) && SectionTailShape(t[|name|..], tail)
    ensures |t| > 0 && !IsSpace(t[0]) && t[0] != '<' && t[0] != '`' && SectionLength(t) == |name|
  {
    var u := t[|name|..];
    var e := |name| + |tail.gap|;
    if tail.operator == [] {
      assert t[|name|..|t|] == u;
      SectionLengthIs(t, name, |t|);
    } else {
      assert u[..|tail.gap| + |tail.operator|] == tail.gap + tail.operator;
      assert u[..|tail.gap|] == tail.gap;
      assert t[|name|..e] == u[..|tail.gap|];
      assert t[e] == u[|tail.gap|] == tail.operator[0];
      SectionLengthIs(t, name, e);
    }
  }

  /** A section with a fenced name. */
  datatype FencedSection = FencedSection(hashes: string, space: string, fence: Fence, tail: Tail)

  predicate FencedSectionShape(table: Table, s: string, x: FencedSection) {
    && HeadShape(s, x.hashes, x.space)
    && FenceShape(table, SectionFollow, s[|x.hashes| + |x.space|..], x.fence, x.tail)
  }

  /** `(#{1,})(?!#)(\s*)` then a fenced name and the section tail. */
  function FencedSectionOf(table: Table, s: string): Option<FencedSection> {
    if CharRun(s, '#') == 0 then None
    else
      var h := CharRun(s, '#');
      var k := HeadLength(s);
      var m := FencedOf(table, SectionFollow, s[k..]);
      if m.None? then None
      else Some(FencedSection(s[..h], s[h..k], m.value.0, m.value.1))
  }

  /** What `FencedSectionOf` reads is a fenced section of the shape. */
  lemma FencedSectionSound(table: Table, s: string)
    requires FencedSectionOf(table, s).Some?
    ensures FencedSectionShape(table, s, FencedSectionOf(table, s).value)
  {
    var h := CharRun(s, '#');
    var k := HeadLength(s);
    HeadLengthShape(s);
    FencedSound(table, SectionFollow, s[k..]);
    var m := FencedOf(table, SectionFollow, s[k..]).value;
    FencedSectionIntro(table, s, h, k, m.0, m.1);
  }

  /** Every line of the fenced section shape is read as a fenced section
      with the same head, whose run is at least as long as the shape's: the
      search prefers the longest run. */
  lemma FencedSectionComplete(table: Table, s: string, x: FencedSection)
    requires FencedSectionShape(table, s, x)
    ensures FencedSectionOf(table, s).Some?
    ensures FencedSectionOf(table, s).value.hashes == x.hashes
    ensures FencedSectionOf(table, s).value.space == x.space
    ensures |FencedSectionOf(table, s).value.fence.run| >= |x.fence.run|
  {
    var k := |x.hashes| + |x.space|;
    assert k < |s| && s[k] == '`' by {
      FenceSlices(s[k..], x.fence);
      assert s[k..][..|x.fence.run|][0] == s[k];
    }
    FencedHead(s, x.hashes, x.space);
    FencedComplete(table, SectionFollow, s[k..], x.fence, x.tail);
    FencedSectionOfIs(table, s, |x.hashes|, k);
  }

  /** A fenced name opens with a backtick, so the head before it is read as
      the shape has it. */
  lemma FencedHead(s: string, hashes: string, space: string)
    requires HeadShape(s, hashes, space)
    requires |hashes| + |space| < |s| && s[|hashes| + |space|] == '`'
    ensures CharRun(s, '#') == |hashes| && HeadLength(s) == |hashes| + |space|
    ensures s[..|hashes|] == hashes && s[|hashes|..|hashes| + |space|] == space
  {
    HeadComplete(s, hashes, space);
    assert s[|hashes|..|hashes| + |space|] == s[|hashes|..][..|space|];
  }

  /** `FencedSectionOf` once its head is known. */
  lemma FencedSectionOfIs(table: Table, s: string, h: nat, k: nat)
    requires 0 < h == CharRun(s, '#') && k == HeadLength(s)
    requires FencedOf(table, SectionFollow, s[k..]).Some?
    ensures FencedSectionOf(table, s)
         == Some(FencedSection(s[..h], s[h..k], FencedOf(table, SectionFollow, s[k..]).value.0,
                               FencedOf(table, SectionFollow, s[k..]).value.1))
  {}
}

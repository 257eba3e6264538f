/** The tokens of a line spell the line: every character a rule consumes is
    in exactly one token, in order, except the blanks the non-capturing
    `(?:\s*$)` swallows at the end of the line. */
module Coverage {
  import opened Chars
  import opened Tokens
  import opened Patterns
  import opened Fences
  import opened Sections
  import opened Lexer
  import opened Scanning

  /** The tokens `ts` spell the first `n` characters of `s`, up to blanks at
      the end of the line. */
  predicate Covers(s: string, n: nat, ts: seq<Token>) {
    && 1 <= n <= |s|
    && EndsInSpace(s[..n], Texts(ts))
    && (n < |s| ==> Texts(ts) == s[..n])
  }

  // ----------------------------------------------------------- tails and fences

  function TailText(t: Tail): string {
    t.gap + t.operator + t.space + t.value
  }

  lemma TailCovers(u: string, t: Tail, dotted: bool)
    requires TailShape(u, t, dotted)
    ensures EndsInSpace(u, TailText(t))
  {
    EndsInSpaceJoin(u, t.gap + t.operator, t.space + t.value);
    assert (t.gap + t.operator) + (t.space + t.value) == t.gap + t.operator + t.space + t.value;
  }

  lemma SectionTailCovers(u: string, t: Tail)
    requires SectionTailShape(u, t)
    ensures t.operator == [] ==> t.space == [] && t.value == []
    ensures EndsInSpace(u, TailText(t))
  {
    if t.operator == [] {
      assert t.gap + t.operator + t.space + t.value == u;
      assert u[..|u|] == u;
    } else {
      TailCovers(u, t, false);
    }
  }

  lemma FollowCovers(table: Table, follow: Follow, u: string, t: Tail)
    requires FollowShape(table, follow, u, t)
    ensures t.operator == [] ==> t.space == [] && t.value == []
    ensures EndsInSpace(u, TailText(t))
  {
    match follow
    case KeyFollow(sep) => TailCovers(u, t, true);
    case SectionFollow => SectionTailCovers(u, t);
  }

  /** The text of a tail's tokens, when an absent operator has no value. */
  lemma TailTexts(t: Tail, operator: Kind, value: Kind)
    requires t.operator == [] ==> t.space == [] && t.value == []
    ensures Texts(TailTokens(t, operator, value)) == TailText(t)
  {
    var middle := if t.operator == [] then [] else [Token(operator, t.operator), Token(Text, t.space)];
    TextsAppend([Token(Text, t.gap)] + middle, Optional(value, t.value));
    TextsAppend([Token(Text, t.gap)], middle);
    Texts1(Token(Text, t.gap));
    if t.operator != [] { Texts2(Token(operator, t.operator), Token(Text, t.space)); }
    if t.value != [] { Texts1(Token(value, t.value)); }
  }

  function FenceText(fe: Fence): string {
    fe.run + fe.before + fe.name + fe.after + fe.run
  }

  lemma FenceTexts(fe: Fence, begin: Kind, name: Kind, end: Kind)
    ensures Texts(FenceTokens(fe, begin, name, end)) == FenceText(fe)
  {
    Texts5(Token(begin, fe.run), Token(Text, fe.before), Token(name, fe.name),
           Token(Text, fe.after), Token(end, fe.run));
  }

  lemma FenceCovers(table: Table, follow: Follow, s: string, fe: Fence, t: Tail)
    requires FenceShape(table, follow, s, fe, t)
    ensures t.operator == [] ==> t.space == [] && t.value == []
    ensures EndsInSpace(s, FenceText(fe) + TailText(t))
  {
    assert |FenceText(fe)| == FenceLength(fe);
    FollowCovers(table, follow, s[FenceLength(fe)..], t);
    EndsInSpaceJoin(s, FenceText(fe), TailText(t));
  }

  // ------------------------------------------------------------------- hits

  lemma FieldCovers(s: string, d: Dash)
    requires DashShape(s, d)
    ensures Covers(s, |s|, HitTokens(FieldHit(d)))
  {
    Texts3(Token(FieldBegin, d.operator), Token(Text, d.space), Token(FieldName, d.key));
    EndsInSpaceJoin(s, d.operator, d.space + d.key);
    assert d.operator + (d.space + d.key) == d.operator + d.space + d.key;
    assert s[..|s|] == s;
  }

  /** Marker, blanks and an optional value: items and continuations. */
  lemma MarkedCovers(s: string, marker: Kind, v: Valued, value: Kind)
    requires |s| > 0 && ValuedShape(s[1..], v, true)
    ensures Covers(s, |s|, [Token(marker, [s[0]]), Token(Text, v.space)] + Optional(value, v.value))
  {
    TextsAppend([Token(marker, [s[0]]), Token(Text, v.space)], Optional(value, v.value));
    Texts2(Token(marker, [s[0]]), Token(Text, v.space));
    if v.value != [] { Texts1(Token(value, v.value)); }
    assert s[..1] == [s[0]];
    EndsInSpaceJoin(s, [s[0]], v.space + v.value);
    assert [s[0]] + (v.space + v.value) == [s[0]] + v.space + v.value;
    assert s[..|s|] == s;
  }

  lemma SectionTexts(x: Section)
    requires x.tail.operator == [] ==> x.tail.space == [] && x.tail.value == []
    ensures Texts(HitTokens(SectionHit(x))) == (x.hashes + x.space + x.name) + TailText(x.tail)
  {
    var head := [Token(SectionMarker, x.hashes), Token(Text, x.space), Token(SectionName, x.name)];
    Texts3(head[0], head[1], head[2]);
    TailTexts(x.tail, SectionTemplateMarker, SectionTemplate);
    TextsAppend(head, TailTokens(x.tail, SectionTemplateMarker, SectionTemplate));
  }

  lemma HeadPrefix(s: string, hashes: string, space: string)
    requires HeadShape(s, hashes, space)
    ensures Prefix(s, hashes + space)
  {
    assert s[..|hashes| + |space|] == s[..|hashes|] + s[|hashes|..][..|space|];
  }

  lemma SectionPrefix(s: string, x: Section)
    requires SectionShape(s, x)
    ensures Prefix(s, x.hashes + x.space + x.name)
    ensures s[|x.hashes + x.space + x.name|..] == s[|x.hashes| + |x.space|..][|x.name|..]
  {
    var k := |x.hashes| + |x.space|;
    HeadPrefix(s, x.hashes, x.space);
    assert s[..k + |x.name|] == s[..k] + s[k..][..|x.name|];
  }

  lemma SectionCovers(s: string, x: Section)
    requires SectionShape(s, x)
    ensures Covers(s, |s|, HitTokens(SectionHit(x)))
  {
    var named := x.hashes + x.space + x.name;
    SectionPrefix(s, x);
    SectionTailCovers(s[|named|..], x.tail);
    SectionTexts(x);
    CoversJoin(s, named, TailText(x.tail), HitTokens(SectionHit(x)));
  }

  /** A line that opens with `head` and goes on with `rest` and blanks is
      covered by tokens that spell `head + rest`. */
  lemma CoversJoin(s: string, head: string, rest: string, ts: seq<Token>)
    requires head != [] && Prefix(s, head) && EndsInSpace(s[|head|..], rest)
    requires Texts(ts) == head + rest
    ensures Covers(s, |s|, ts)
  {
    EndsInSpaceJoin(s, head, rest);
    assert s[..|s|] == s;
  }

  lemma BareKeyCovers(s: string, k: string)
    requires EndsInSpace(s, k) && k != []
    ensures Covers(s, |s|, HitTokens(BareKeyHit(k)))
  {
    Texts1(Token(EmptyName, k));
    assert s[..|s|] == s;
  }

  lemma KeyCovers(table: Table, sep: Sep, s: string, k: string, t: Tail)
    requires k != [] && Prefix(s, k) && KeyTailShape(table, sep, s[|k|..], t)
    ensures Covers(s, |s|, HitTokens(KeyHit(sep, k, t)))
  {
    TailCovers(s[|k|..], t, true);
    TailTexts(t, OperatorKind(sep), ValueKind(sep));
    TextsAppend([Token(NameKind(sep), k)], TailTokens(t, OperatorKind(sep), ValueKind(sep)));
    Texts1(Token(NameKind(sep), k));
    EndsInSpaceJoin(s, k, TailText(t));
    assert s[..|s|] == s;
  }

  lemma FencedKeyCovers(table: Table, sep: Sep, s: string, fe: Fence, t: Tail)
    requires FenceShape(table, KeyFollow(sep), s, fe, t)
    ensures Covers(s, |s|, HitTokens(FencedKeyHit(sep, fe, t)))
  {
    FenceCovers(table, KeyFollow(sep), s, fe, t);
    FenceTexts(fe, KeyEscapeBegin, NameKind(sep), KeyEscapeEnd);
    TailTexts(t, OperatorKind(sep), ValueKind(sep));
    TextsAppend(FenceTokens(fe, KeyEscapeBegin, NameKind(sep), KeyEscapeEnd),
                TailTokens(t, OperatorKind(sep), ValueKind(sep)));
    assert s[..|s|] == s;
  }

  lemma FencedSectionTexts(x: FencedSection)
    requires x.tail.operator == [] ==> x.tail.space == [] && x.tail.value == []
    ensures Texts(HitTokens(FencedSectionHit(x)))
         == (x.hashes + x.space) + (FenceText(x.fence) + TailText(x.tail))
  {
    var head := [Token(SectionMarker, x.hashes), Token(Text, x.space)];
    var fence := FenceTokens(x.fence, SectionEscapeBegin, SectionName, SectionEscapeEnd);
    var tail := TailTokens(x.tail, SectionTemplateMarker, SectionTemplate);
    FenceTexts(x.fence, SectionEscapeBegin, SectionName, SectionEscapeEnd);
    TailTexts(x.tail, SectionTemplateMarker, SectionTemplate);
    Texts2(head[0], head[1]);
    TextsAppend(head + fence, tail);
    TextsAppend(head, fence);
    Assoc(x.hashes + x.space, FenceText(x.fence), TailText(x.tail));
  }

  lemma FencedSectionCovers(table: Table, s: string, x: FencedSection)
    requires FencedSectionShape(table, s, x)
    ensures Covers(s, |s|, HitTokens(FencedSectionHit(x)))
  {
    var head := x.hashes + x.space;
    var rest := FenceText(x.fence) + TailText(x.tail);
    FenceCovers(table, SectionFollow, s[|head|..], x.fence, x.tail);
    FencedSectionTexts(x);
    HeadPrefix(s, x.hashes, x.space);
    EndsInSpaceJoin(s, head, rest);
    assert s[..|s|] == s;
  }

  /** Whatever rule matches, its tokens spell what it consumed. */
  lemma HitCovers(table: Table, rule: Rule, s: string, h: Hit)
    requires Try(table, rule, s) == Some(h)
    ensures Covers(s, Consumed(h, s), HitTokens(h))
  {
    if rule.CommentRule? || rule.FieldRule? || rule.ItemRule? || rule.SectionRule? || rule.ContinuationRule? {
      LineHitCovers(table, rule, s, h);
    } else {
      KeyHitCovers(table, rule, s, h);
    }
  }

  /** The comment, begin, item, section and continuation rules. */
  lemma LineHitCovers(table: Table, rule: Rule, s: string, h: Hit)
    requires Try(table, rule, s) == Some(h)
    requires rule.CommentRule? || rule.FieldRule? || rule.ItemRule? || rule.SectionRule? || rule.ContinuationRule?
    ensures Covers(s, Consumed(h, s), HitTokens(h))
  {
    if rule.CommentRule? {
      var c := CommentOf(s).value;
      Texts1(Token(Comment, c));
      assert s[..|c|][..|c|] == c;
    } else if rule.FieldRule? {
      FieldCovers(s, DashOf(s).value);
    } else if rule.ItemRule? {
      assert s[0] == '-';
      assert [s[0]] == "-";
      MarkedCovers(s, ItemMarker, ItemOf(s).value, ItemValue);
    } else if rule.SectionRule? {
      SectionSound(s);
      SectionCovers(s, SectionOf(s).value);
    } else {
      MarkedCovers(s, ContinuationMarker, ContinuationOf(s).value, ContinuationValue);
    }
  }

  /** The key rules, fenced or not, the fenced section and the fallback. */
  lemma KeyHitCovers(table: Table, rule: Rule, s: string, h: Hit)
    requires Try(table, rule, s) == Some(h)
    requires rule.BareKeyRule? || rule.KeyRule? || rule.FencedKeyRule? || rule.FencedSectionRule? || rule.IllegalRule?
    ensures Covers(s, Consumed(h, s), HitTokens(h))
  {
    if rule.BareKeyRule? {
      BareKeyCovers(s, BareKeyOf(s).value);
    } else if rule.KeyRule? {
      var kt := KeyOf(table, rule.sep, s).value;
      KeyCovers(table, rule.sep, s, kt.0, kt.1);
    } else if rule.FencedKeyRule? {
      var ft := FencedOf(table, KeyFollow(rule.sep), s).value;
      FencedSound(table, KeyFollow(rule.sep), s);
      FencedKeyCovers(table, rule.sep, s, ft.0, ft.1);
    } else if rule.FencedSectionRule? {
      FencedSectionSound(table, s);
      FencedSectionCovers(table, s, FencedSectionOf(table, s).value);
    } else {
      Texts1(Token(Invalid, [s[0]]));
      assert s[..1] == [s[0]];
    }
  }

  /** The whole scan of the `start` state spells the line, up to trailing
      blanks. */
  lemma {:induction false} ScanCovers(table: Table, s: string)
    ensures EndsInSpace(s, Texts(ScanStart(table, s).tokens))
    decreases |s|
  {
    if s == [] {
    } else {
      var w := SpaceRun(s);
      if w > 0 {
        var rest := ScanStart(table, s[w..]);
        ScanCovers(table, s[w..]);
        TextsCons(Token(Text, s[..w]), rest.tokens);
        EndsInSpaceJoin(s, s[..w], Texts(rest.tokens));
      } else {
        ScanFront(table, s);
        var (i, h) := FirstHit(table, StartRules(table), s).value;
        HitCovers(table, StartRules(table)[i], s, h);
        var n := Consumed(h, s);
        if n < |s| {
          ScanCovers(table, s[n..]);
        } else {
          assert s[n..] == [];
        }
        JoinCovers(s, n, HitTokens(h), ScanStart(table, s[n..]).tokens);
      }
    }
  }

  /** A rule's tokens followed by the tokens of the rest of the line. */
  lemma JoinCovers(s: string, n: nat, ts: seq<Token>, rest: seq<Token>)
    requires Covers(s, n, ts)
    requires n < |s| ==> EndsInSpace(s[n..], Texts(rest))
    requires n == |s| ==> rest == []
    ensures EndsInSpace(s, Texts(ts + rest))
  {
    TextsAppend(ts, rest);
    if n < |s| {
      EndsInSpaceJoin(s, s[..n], Texts(rest));
    } else {
      assert s[..n] == s;
      assert Texts(ts) + [] == Texts(ts);
    }
  }

  /** Every line's tokens spell the line: in the field body the line itself,
      elsewhere the line up to trailing blanks. */
  lemma LineCovers(table: Table, line: string, snap: Snapshot)
    requires Ready(table, snap)
    ensures EndsInSpace(line, Texts(TokenizeLine(table, line, snap).tokens))
  {
    match snap.state
    case Start => ScanCovers(table, line);
    case Body => BodyCovers(table, line, snap);
  }

  /** Inside a field: the terminator's tokens spell it, anything else is
      the line itself. */
  lemma BodyCovers(table: Table, line: string, snap: Snapshot)
    requires Ready(table, snap)
    ensures EndsInSpace(line, Texts(BodyLine(table, line, snap).tokens))
    ensures !(DashOf(line).Some? && Closes(table, snap.stack, DashOf(line).value))
         ==> Texts(BodyLine(table, line, snap).tokens) == line
  {
    match DashOf(line)
    case Some(d) =>
      if Closes(table, snap.stack, d) {
        FieldCovers(line, d);
        assert line[..|line|] == line;
      } else {
        BodyContent(line);
      }
    case None => BodyContent(line);
  }

  lemma BodyContent(line: string)
    ensures Texts(Optional(Content, line)) == line
    ensures EndsInSpace(line, line)
  {
    if line != [] { Texts1(Token(Content, line)); }
    assert line[..|line|] == line;
  }
}

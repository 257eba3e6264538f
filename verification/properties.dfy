/** What the rule order and the multiline-field handlers promise, stated
    over whole lines and documents. */
module Properties {
  import opened Chars
  import opened Tokens
  import opened Patterns
  import opened Fences
  import opened Sections
  import opened Lexer
  import opened Scanning

  // ------------------------------------------------------------ rule order

  /** A comment line is one comment token, whatever follows the `>`: the
      comment rule comes first, so `> - x` is no item and `> -- x` opens no
      field. */
  lemma CommentLine(table: Table, line: string, snap: Snapshot)
    requires snap.state.Start? && |line| > 0 && line[0] == '>' && AllDot(line)
    ensures TokenizeLine(table, line, snap) == Lexed([Token(Comment, line)], snap)
  {
    var n := DotRun(line[1..]);
    assert n == |line| - 1;
    assert line[..1 + n] == line;
    var rules := StartRules(table);
    FirstAt(table, rules, line, 0);
    WholeLine(table, line, 0, CommentHit(line));
  }

  /** A line the begin pattern matches opens a field, before the item rule
      is ever tried: its three tokens are emitted and the body state name and
      its entry are pushed on the stack. */
  lemma DashLineOpens(table: Table, line: string, snap: Snapshot, d: Dash)
    requires snap.state.Start? && DashOf(line) == Some(d)
    ensures TokenizeLine(table, line, snap)
         == Lexed([Token(FieldBegin, d.operator), Token(Text, d.space), Token(FieldName, d.key)],
                  Snapshot(Body, [Str(BodyName(table)), Opening(table, d)] + snap.stack))
  {
    DashScan(table, line, d);
  }

  /** The scan of a begin line: the rule's three tokens, and the dash. */
  lemma DashScan(table: Table, line: string, d: Dash)
    requires DashOf(line) == Some(d)
    ensures ScanStart(table, line) == Scan(HitTokens(FieldHit(d)), Some(d))
  {
    DashFacts(line, d);
    var rules := StartRules(table);
    assert rules[0] == CommentRule && rules[1] == FieldRule;
    assert forall j | 0 <= j < 1 :: Try(table, rules[j], line).None?;
    RuleWins(table, line, 1, FieldHit(d));
  }

  /** The begin rule takes the whole line and the comment rule declines it. */
  lemma DashFacts(line: string, d: Dash)
    requires DashOf(line) == Some(d)
    ensures |line| > 0 && !IsSpace(line[0]) && Consumed(FieldHit(d), line) == |line|
    ensures forall table :: Try(table, FieldRule, line) == Some(FieldHit(d))
    ensures forall table :: Try(table, CommentRule, line).None?
  {
    assert line[0] == d.operator[0] == '-';
    assert CommentOf(line).None?;
  }

  /** A dash line the begin pattern refuses (a lone `-`, or a run with no
      key) is an item. */
  lemma ItemLine(table: Table, line: string, snap: Snapshot, v: Valued)
    requires snap.state.Start? && DashOf(line).None? && ItemOf(line) == Some(v)
    ensures TokenizeLine(table, line, snap) == Lexed(HitTokens(ItemHit(v)), snap)
  {
    ItemScan(table, line, v);
  }

  lemma ItemScan(table: Table, line: string, v: Valued)
    requires DashOf(line).None? && ItemOf(line) == Some(v)
    ensures ScanStart(table, line) == Scan(HitTokens(ItemHit(v)), None)
  {
    ItemFacts(line, v);
    var rules := StartRules(table);
    assert rules[0] == CommentRule && rules[1] == FieldRule && rules[2] == ItemRule;
    forall j | 0 <= j < 2 ensures Try(table, rules[j], line).None? {
      assert rules[j] == CommentRule || rules[j] == FieldRule;
    }
    RuleWins(table, line, 2, ItemHit(v));
  }

  /** The item rule takes the whole line, and the comment and begin rules
      decline it. */
  lemma ItemFacts(line: string, v: Valued)
    requires DashOf(line).None? && ItemOf(line) == Some(v)
    ensures |line| > 0 && !IsSpace(line[0]) && Consumed(ItemHit(v), line) == |line|
    ensures forall table :: Try(table, ItemRule, line) == Some(ItemHit(v))
    ensures forall table :: Try(table, CommentRule, line).None? && Try(table, FieldRule, line).None?
  {
    assert CommentOf(line).None?;
  }

  /** Only the section rules and the fallback accept a `#` at the front. */
  lemma HashRules(table: Table, rule: Rule, s: string)
    requires |s| > 0 && s[0] == '#' && Try(table, rule, s).Some?
    ensures rule == SectionRule || rule == FencedSectionRule || rule == IllegalRule
  {
    match rule
    case FieldRule =>
    case KeyRule(sep) =>
    case FencedKeyRule(sep) =>
    case _ =>
  }

  /** A line starting with `#` is a section header or an illegal character:
      never a key, an item or a comment. */
  lemma HashLine(table: Table, line: string, snap: Snapshot)
    requires snap.state.Start? && |line| > 0 && line[0] == '#'
    ensures var ts := TokenizeLine(table, line, snap).tokens;
      ts != [] && (ts[0].kind == SectionMarker || ts[0].kind == Invalid)
  {
    HashScan(table, line);
  }

  lemma HashScan(table: Table, line: string)
    requires |line| > 0 && line[0] == '#'
    ensures var ts := ScanStart(table, line).tokens;
      ts != [] && (ts[0].kind == SectionMarker || ts[0].kind == Invalid)
  {
    ScanFront(table, line);
    var rules := StartRules(table);
    var (i, h) := FirstHit(table, rules, line).value;
    HashRules(table, rules[i], line);
    HashHit(table, rules[i], line, h);
    HashTokens(h);
    var ts := ScanStart(table, line).tokens;
    assert ts[0] == HitTokens(h)[0];
  }

  /** The hits those rules yield. */
  lemma HashHit(table: Table, rule: Rule, s: string, h: Hit)
    requires Try(table, rule, s) == Some(h)
    requires rule == SectionRule || rule == FencedSectionRule || rule == IllegalRule
    ensures h.SectionHit? || h.FencedSectionHit? || h.IllegalHit?
  {}

  /** Their first token is the `#` run or the illegal character. */
  lemma HashTokens(h: Hit)
    requires h.SectionHit? || h.FencedSectionHit? || h.IllegalHit?
    ensures HitTokens(h) != [] && (HitTokens(h)[0].kind == SectionMarker || HitTokens(h)[0].kind == Invalid)
  {}

  /** `s` is an unfenced key and blanks. */
  lemma BareKeyParts(s: string, k: string)
    requires BareKeyOf(s) == Some(k)
    ensures |s| > 0 && KeyStart(s[0]) && KeyLength(s) == |k| && AllSpace(s[|k|..])
  {}

  /** The rules before the key rules refuse a line that opens with a key. */
  lemma FrontRulesFail(table: Table, line: string, k: string)
    requires BareKeyOf(line) == Some(k)
    ensures Try(table, CommentRule, line).None? && Try(table, FieldRule, line).None?
    ensures Try(table, ItemRule, line).None? && Try(table, SectionRule, line).None?
    ensures Try(table, ContinuationRule, line).None?
  {
    BareKeyParts(line, k);
    assert CharRun(line, '-') == 0;
    assert CharRun(line, '#') == 0;
  }

  /** The canonical table reads a key without separator as one name token. */
  lemma BareKeyCanonical(line: string, snap: Snapshot, k: string)
    requires snap.state.Start? && BareKeyOf(line) == Some(k)
    ensures TokenizeLine(Canonical, line, snap) == Lexed([Token(EmptyName, k)], snap)
  {
    BareKeyScan(line, k);
  }

  lemma BareKeyScan(line: string, k: string)
    requires BareKeyOf(line) == Some(k)
    ensures ScanStart(Canonical, line) == Scan([Token(EmptyName, k)], None)
  {
    BareKeyParts(line, k);
    FrontRulesFail(Canonical, line, k);
    var rules := StartRules(Canonical);
    forall j | 0 <= j < 5 ensures Try(Canonical, rules[j], line).None? {
      assert || rules[j] == CommentRule || rules[j] == FieldRule || rules[j] == ItemRule
             || rules[j] == SectionRule || rules[j] == ContinuationRule;
    }
    BareKeyFacts(line, k);
    assert rules[5] == BareKeyRule;
    RuleWins(Canonical, line, 5, BareKeyHit(k));
  }

  /** The bare key rule takes the whole line. */
  lemma BareKeyFacts(line: string, k: string)
    requires BareKeyOf(line) == Some(k)
    ensures |line| > 0 && !IsSpace(line[0]) && Consumed(BareKeyHit(k), line) == |line|
    ensures forall table :: Try(table, BareKeyRule, line) == Some(BareKeyHit(k))
  {
    BareKeyParts(line, k);
  }

  /** No key rule accepts a key that only blanks follow. */
  lemma NoSeparator(table: Table, sep: Sep, s: string, k: string)
    requires BareKeyOf(s) == Some(k)
    ensures KeyOf(table, sep, s).None?
  {
    BareKeyParts(s, k);
    var u := s[|k|..];
    SpaceRunUnique(u, |u|);
    assert u[|u|..] == [];
  }

  /** Neither the key rules nor the fenced ones accept a key without
      separator. */
  lemma KeyRulesFail(table: Table, line: string, k: string)
    requires BareKeyOf(line) == Some(k)
    ensures forall sep :: Try(table, KeyRule(sep), line).None? && Try(table, FencedKeyRule(sep), line).None?
    ensures Try(table, FencedSectionRule, line).None?
  {
    BareKeyParts(line, k);
    assert CharRun(line, '`') == 0;
    assert CharRun(line, '#') == 0;
    forall sep ensures Try(table, KeyRule(sep), line).None? {
      NoSeparator(table, sep, line, k);
    }
  }

  /** The bundled table has no rule for a key without separator: the line
      falls through every key rule to the illegal fallback. */
  lemma BareKeyBundled(line: string, snap: Snapshot, k: string)
    requires snap.state.Start? && BareKeyOf(line) == Some(k)
    ensures var ts := TokenizeLine(Bundled, line, snap).tokens;
      ts != [] && ts[0] == Token(Invalid, [line[0]])
  {
    BareKeyParts(line, k);
    BundledRulesFail(line, k);
    var rules := StartRules(Bundled);
    assert Try(Bundled, rules[12], line) == Some(IllegalHit(line[0]));
    FirstAt(Bundled, rules, line, 12);
    ScanFront(Bundled, line);
  }

  /** Every bundled rule before the fallback refuses such a line. */
  lemma BundledRulesFail(line: string, k: string)
    requires BareKeyOf(line) == Some(k)
    ensures |StartRules(Bundled)| == 13 && StartRules(Bundled)[12] == IllegalRule
    ensures forall j | 0 <= j < 12 :: Try(Bundled, StartRules(Bundled)[j], line).None?
  {
    FrontRulesFail(Bundled, line, k);
    KeyRulesFail(Bundled, line, k);
    var rules := StartRules(Bundled);
    forall j | 0 <= j < 12 ensures Try(Bundled, rules[j], line).None? {
      assert || rules[j] == CommentRule || rules[j] == FieldRule || rules[j] == ItemRule
             || rules[j] == SectionRule || rules[j] == ContinuationRule
             || rules[j].KeyRule? || rules[j].FencedKeyRule? || rules[j] == FencedSectionRule;
    }
  }

  // -------------------------------------------------- the multiline field

  /** Inside a field, a line ends it exactly when the begin pattern matches
      the whole line and the terminator handler's test of `state[1]`
      succeeds; then the two entries are shifted off and the three closing
      tokens emitted. Any other line is one content token and leaves the
      snapshot as it was. */
  lemma CloseIff(table: Table, line: string, snap: Snapshot)
    requires snap.state.Body? && Ready(table, snap)
    ensures var r := TokenizeLine(table, line, snap);
      && (r.next.state.Start? <==> DashOf(line).Some? && Closes(table, snap.stack, DashOf(line).value))
      && (r.next.state.Start? ==>
            var d := DashOf(line).value;
            && r.next.stack == snap.stack[2..] && |r.next.stack| == |snap.stack| - 2
            && r.tokens == [Token(FieldEnd, d.operator), Token(Text, d.space), Token(FieldName, d.key)])
      && (r.next.state.Body? ==> r == Lexed(Optional(Content, line), snap))
  {}

  /** After a begin line `d`, the canonical terminator needs the same
      operator and key, the bundled one the same key only. */
  lemma ClosesOpened(table: Table, d: Dash, e: Dash, below: seq<StackValue>)
    ensures Closes(table, [Str(BodyName(table)), Opening(table, d)] + below, e)
        <==> e.key == d.key && (table.Canonical? ==> e.operator == d.operator)
  {}

  /** A line that would not end the field opened on `stack`. */
  predicate Keeps(table: Table, line: string, stack: seq<StackValue>) {
    DashOf(line).Some? ==> !Closes(table, stack, DashOf(line).value)
  }

  /** Lines that do not end the field leave the snapshot alone, each one a
      single content token. */
  lemma {:induction false} BodyLinesKeep(table: Table, lines: seq<string>, snap: Snapshot)
    requires snap.state.Body? && Ready(table, snap)
    requires forall i | 0 <= i < |lines| :: Keeps(table, lines[i], snap.stack)
    ensures TokenizeLines(table, lines, snap).1 == snap
    ensures forall i | 0 <= i < |lines| :: TokenizeLines(table, lines, snap).0[i] == Optional(Content, lines[i])
  {
    if lines != [] {
      CloseIff(table, lines[0], snap);
      assert forall i | 0 <= i < |lines[1..]| :: Keeps(table, lines[1..][i], snap.stack) by {
        forall i | 0 <= i < |lines[1..]| ensures Keeps(table, lines[1..][i], snap.stack) {
          assert lines[1..][i] == lines[i + 1];
        }
      }
      BodyLinesKeep(table, lines[1..], snap);
      var rest := TokenizeLines(table, lines[1..], snap);
      forall i | 0 <= i < |lines| ensures TokenizeLines(table, lines, snap).0[i] == Optional(Content, lines[i]) {
        if i > 0 { assert rest.0[i - 1] == Optional(Content, lines[1..][i - 1]); }
      }
    }
  }

  /** Tokenizing a document in two parts is tokenizing it whole. */
  lemma {:induction false} LinesAppend(table: Table, a: seq<string>, b: seq<string>, snap: Snapshot)
    requires Ready(table, snap)
    ensures var ra := TokenizeLines(table, a, snap);
      var rb := TokenizeLines(table, b, ra.1);
      TokenizeLines(table, a + b, snap) == (ra.0 + rb.0, rb.1)
  {
    if a == [] {
      assert a + b == b;
      var rb := TokenizeLines(table, b, snap);
      assert TokenizeLines(table, a, snap) == ([], snap);
      assert [] + rb.0 == rb.0;
    } else {
      var first := TokenizeLine(table, a[0], snap);
      assert (a + b)[0] == a[0];
      assert (a + b)[1..] == a[1..] + b;
      LinesAppend(table, a[1..], b, first.next);
      var ra' := TokenizeLines(table, a[1..], first.next);
      var rb := TokenizeLines(table, b, ra'.1);
      assert TokenizeLines(table, a, snap) == ([first.tokens] + ra'.0, ra'.1);
      assert TokenizeLines(table, a + b, snap) == ([first.tokens] + (ra'.0 + rb.0), rb.1);
      Assoc([first.tokens], ra'.0, rb.0);
    }
  }

  /** A field opened, filled with lines that do not end it, and closed by a
      matching terminator brings the snapshot back to where it was. */
  lemma FieldRoundTrip(table: Table, open: string, body: seq<string>, close: string, snap: Snapshot)
    requires snap.state.Start? && Ready(table, snap)
    requires DashOf(open).Some? && DashOf(close).Some?
    requires DashOf(close).value.key == DashOf(open).value.key
    requires table.Canonical? ==> DashOf(close).value.operator == DashOf(open).value.operator
    requires forall i | 0 <= i < |body| ::
      Keeps(table, body[i], [Str(BodyName(table)), Opening(table, DashOf(open).value)] + snap.stack)
    ensures TokenizeLines(table, [open] + body + [close], snap).1 == snap
  {
    var d := DashOf(open).value;
    var inside := Snapshot(Body, [Str(BodyName(table)), Opening(table, d)] + snap.stack);
    DashLineOpens(table, open, snap, d);
    LinesAppend(table, [open] + body, [close], snap);
    LinesAppend(table, [open], body, snap);
    assert TokenizeLines(table, [open], snap).1 == inside;
    BodyLinesKeep(table, body, inside);
    CloseIff(table, close, inside);
    ClosesOpened(table, d, DashOf(close).value, snap.stack);
    assert inside.stack[2..] == snap.stack;
  }

  // ----------------------------------------------------------- the snapshot

  /** The snapshots a document reaches from the initial one: the `start`
      state with an empty stack, or the body state under the state name and
      the entry its table pushes. */
  predicate Settled(table: Table, snap: Snapshot) {
    || snap == Initial
    || (&& snap.state.Body? && |snap.stack| == 2 && snap.stack[0] == Str(BodyName(table))
        && (table.Canonical? ==> snap.stack[1].FrameValue?)
        && (table.Bundled? ==> snap.stack[1].Str?))
  }

  lemma SettledStep(table: Table, line: string, snap: Snapshot)
    requires Settled(table, snap)
    ensures Ready(table, snap) && Settled(table, TokenizeLine(table, line, snap).next)
  {
    if snap.state.Body? {
      CloseIff(table, line, snap);
    }
  }

  /** No document nests a field or leaves a stray stack entry. */
  lemma {:induction false} SettledLines(table: Table, lines: seq<string>, snap: Snapshot)
    requires Settled(table, snap)
    ensures Ready(table, snap) && Settled(table, TokenizeLines(table, lines, snap).1)
  {
    SettledStep(table, if lines == [] then [] else lines[0], snap);
    if lines != [] {
      SettledLines(table, lines[1..], TokenizeLine(table, lines[0], snap).next);
    }
  }

  /** A scan that opens a field ends with the begin rule's three tokens. */
  predicate EndsOpen(r: Scan) {
    r.begun.Some? ==>
      && |r.tokens| >= 3
      && r.tokens[|r.tokens| - 3..]
         == [Token(FieldBegin, r.begun.value.operator), Token(Text, r.begun.value.space),
             Token(FieldName, r.begun.value.key)]
  }

  /** Tokens in front do not change how a scan ends. */
  lemma EndsOpenFront(front: seq<Token>, r: Scan)
    requires EndsOpen(r)
    ensures EndsOpen(Scan(front + r.tokens, r.begun))
  {
    if r.begun.Some? {
      var all := front + r.tokens;
      assert all[|all| - 3..] == r.tokens[|r.tokens| - 3..];
    }
  }

  /** The begin rule is anchored at the end of the line, so when a line opens
      a field its three tokens are the line's last. */
  lemma {:induction false} BegunLast(table: Table, s: string)
    ensures EndsOpen(ScanStart(table, s))
    decreases |s|
  {
    if s != [] {
      var w := SpaceRun(s);
      if w > 0 {
        BegunLast(table, s[w..]);
        EndsOpenFront([Token(Text, s[..w])], ScanStart(table, s[w..]));
      } else {
        ScanFront(table, s);
        var h := FirstHit(table, StartRules(table), s).value.1;
        var n := Consumed(h, s);
        BegunLast(table, s[n..]);
        if h.FieldHit? {
          assert s[n..] == [];
          assert HitTokens(h) + [] == HitTokens(h);
        } else {
          EndsOpenFront(HitTokens(h), ScanStart(table, s[n..]));
        }
      }
    }
  }
}

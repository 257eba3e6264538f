/** The line tokenizer: the rule list of the `start` state tried in declared
    order, the token array each rule yields, and the two-state machine that
    carries a multiline field (a `block` in the bundled table) across lines. */
module Lexer {
  import opened Chars
  import opened Tokens
  import opened Patterns
  import opened Fences
  import opened Sections

  // ------------------------------------------------------------------ rules

  /** One entry of the `start` rule list. */
  datatype Rule =
    | CommentRule
    | FieldRule
    | ItemRule
    | SectionRule
    | ContinuationRule
    | BareKeyRule
    | KeyRule(sep: Sep)
    | FencedKeyRule(sep: Sep)
    | FencedSectionRule
    | IllegalRule

  /** The `start` rules in declared order. Only the canonical table has the
      rule for a key without separator, right after the continuation. */
  function StartRules(table: Table): (rules: seq<Rule>)
    ensures |rules| > 0 && rules[|rules| - 1] == IllegalRule
    ensures rules[0] == CommentRule && rules[1] == FieldRule && rules[2] == ItemRule
    ensures BareKeyRule in rules <==> table.Canonical?
  {
    var front := [CommentRule, FieldRule, ItemRule, SectionRule, ContinuationRule];
    var keys := [KeyRule(Colon), KeyRule(Equals), KeyRule(Angle),
                 FencedKeyRule(Colon), FencedKeyRule(Equals), FencedKeyRule(Angle),
                 FencedSectionRule, IllegalRule];
    var rules := if table.Canonical? then front + [BareKeyRule] + keys else front + keys;
    assert table.Bundled? ==> forall i | 0 <= i < |rules| :: rules[i] != BareKeyRule;
    assert table.Canonical? ==> rules[5] == BareKeyRule;
    rules
  }

  /** What a rule captured. */
  datatype Hit =
    | CommentHit(text: string)
    | FieldHit(dash: Dash)
    | ItemHit(item: Valued)
    | SectionHit(section: Section)
    | ContinuationHit(marker: char, continued: Valued)
    | BareKeyHit(key: string)
    | KeyHit(sep: Sep, key: string, tail: Tail)
    | FencedKeyHit(fsep: Sep, fence: Fence, ftail: Tail)
    | FencedSectionHit(fenced: FencedSection)
    | IllegalHit(illegal: char)

  /** One rule tried at the front of `s`, the text from the scanner's
      position to the end of the line. */
  function Try(table: Table, rule: Rule, s: string): Option<Hit>
  {
    match rule
    case CommentRule =>
      (match CommentOf(s) case Some(c) => Some(CommentHit(c)) case None => None)
    case FieldRule =>
      (match DashOf(s) case Some(d) => Some(FieldHit(d)) case None => None)
    case ItemRule =>
      (match ItemOf(s) case Some(v) => Some(ItemHit(v)) case None => None)
    case SectionRule =>
      (match SectionOf(s) case Some(x) => Some(SectionHit(x)) case None => None)
    case ContinuationRule =>
      (match ContinuationOf(s) case Some(v) => Some(ContinuationHit(s[0], v)) case None => None)
    case BareKeyRule =>
      (match BareKeyOf(s) case Some(k) => Some(BareKeyHit(k)) case None => None)
    case KeyRule(sep) =>
      (match KeyOf(table, sep, s) case Some(kt) => Some(KeyHit(sep, kt.0, kt.1)) case None => None)
    case FencedKeyRule(sep) =>
      (match FencedOf(table, KeyFollow(sep), s) case Some(ft) => Some(FencedKeyHit(sep, ft.0, ft.1)) case None => None)
    case FencedSectionRule =>
      (match FencedSectionOf(table, s) case Some(x) => Some(FencedSectionHit(x)) case None => None)
    case IllegalRule =>
      if |s| > 0 && !IsSpace(s[0]) then Some(IllegalHit(s[0])) else None
  }

  /** The first rule of `rules` that matches, with its index. */
  function FirstHit(table: Table, rules: seq<Rule>, s: string): (r: Option<(nat, Hit)>)
    ensures r.Some? ==> r.value.0 < |rules| && Try(table, rules[r.value.0], s) == Some(r.value.1)
    ensures r.Some? ==> forall j | 0 <= j < r.value.0 :: Try(table, rules[j], s).None?
    ensures r.None? ==> forall j | 0 <= j < |rules| :: Try(table, rules[j], s).None?
  {
    if rules == [] then None
    else
      match Try(table, rules[0], s)
      case Some(h) => Some((0, h))
      case None =>
        match FirstHit(table, rules[1..], s)
        case None => None
        case Some((i, h)) => Some((i + 1, h))
  }

  // ----------------------------------------------------------------- tokens

  function NameKind(sep: Sep): Kind {
    match sep
    case Colon => ElementName
    case Equals => EntryName
    case Angle => ElementName
  }

  function OperatorKind(sep: Sep): Kind {
    match sep
    case Colon => ElementOperator
    case Equals => EntryOperator
    case Angle => TemplateOperator
  }

  function ValueKind(sep: Sep): Kind {
    match sep
    case Colon => Value
    case Equals => Value
    case Angle => TemplateName
  }

  /** A token for an optional group: none when the group took no part. */
  function Optional(kind: Kind, text: string): seq<Token> {
    if text == [] then [] else [Token(kind, text)]
  }

  /** `(\s*)` then the optional `(op)(\s*)(value)` groups. */
  function TailTokens(t: Tail, operator: Kind, value: Kind): seq<Token> {
    [Token(Text, t.gap)]
      + (if t.operator == [] then [] else [Token(operator, t.operator), Token(Text, t.space)])
      + Optional(value, t.value)
  }

  /** The tokens of a fence: run, blanks, name, blanks, run. */
  function FenceTokens(fe: Fence, begin: Kind, name: Kind, end: Kind): seq<Token> {
    [Token(begin, fe.run), Token(Text, fe.before), Token(name, fe.name),
     Token(Text, fe.after), Token(end, fe.run)]
  }

  /** The token array of a rule: one token per capture group that took part
      in the match. */
  function HitTokens(h: Hit): seq<Token> {
    match h
    case CommentHit(c) => [Token(Comment, c)]
    case FieldHit(d) => [Token(FieldBegin, d.operator), Token(Text, d.space), Token(FieldName, d.key)]
    case ItemHit(v) => [Token(ItemMarker, "-"), Token(Text, v.space)] + Optional(ItemValue, v.value)
    case SectionHit(x) =>
      [Token(SectionMarker, x.hashes), Token(Text, x.space), Token(SectionName, x.name)]
        + TailTokens(x.tail, SectionTemplateMarker, SectionTemplate)
    case ContinuationHit(m, v) =>
      [Token(ContinuationMarker, [m]), Token(Text, v.space)] + Optional(ContinuationValue, v.value)
    case BareKeyHit(k) => [Token(EmptyName, k)]
    case KeyHit(sep, k, t) =>
      [Token(NameKind(sep), k)] + TailTokens(t, OperatorKind(sep), ValueKind(sep))
    case FencedKeyHit(sep, fe, t) =>
      FenceTokens(fe, KeyEscapeBegin, NameKind(sep), KeyEscapeEnd)
        + TailTokens(t, OperatorKind(sep), ValueKind(sep))
    case FencedSectionHit(x) =>
      [Token(SectionMarker, x.hashes), Token(Text, x.space)]
        + FenceTokens(x.fence, SectionEscapeBegin, SectionName, SectionEscapeEnd)
        + TailTokens(x.tail, SectionTemplateMarker, SectionTemplate)
    case IllegalHit(c) => [Token(Invalid, [c])]
  }

  /** How much of `s` a hit consumes: a comment stops at a line terminator,
      the fallback takes one character, every other pattern ends in `$`. */
  function Consumed(h: Hit, s: string): nat {
    match h
    case CommentHit(c) => |c|
    case IllegalHit(_) => 1
    case _ => |s|
  }

  // ------------------------------------------------------------- the start state

  /** The tokens of a line in the `start` state, and the dash line that opens
      a multiline field, if the line ends with one. */
  datatype Scan = Scan(tokens: seq<Token>, begun: Option<Dash>)

  /** The host's scan of the `start` state: blanks no rule claims become a
      text token, and at the first non-blank character the rules are tried in
      declared order. A rule anchored at `$` ends the line; a comment or an
      illegal character lets the scan go on after it. */
  function ScanStart(table: Table, s: string): (r: Scan)
    decreases |s|
  {
    if s == [] then Scan([], None)
    else
      var w := SpaceRun(s);
      if w > 0 then
        var rest := ScanStart(table, s[w..]);
        Scan([Token(Text, s[..w])] + rest.tokens, rest.begun)
      else
        match FirstHit(table, StartRules(table), s)
        case None => Scan([], None)
        case Some((_, h)) =>
          var n := Consumed(h, s);
          if n == 0 || n > |s| then Scan([], None)
          else
            var rest := ScanStart(table, s[n..]);
            var begun := if h.FieldHit? then Some(h.dash) else rest.begun;
            Scan(HitTokens(h) + rest.tokens, begun)
  }

  // ------------------------------------------------------- the field state

  /** A value on the host's state stack: a state name, the frame the
      canonical table pushes, or the key string the bundled table pushes. */
  datatype Frame = Frame(operator: string, key: string)
  datatype StackValue = Str(text: string) | FrameValue(frame: Frame)

  datatype LexState = Start | Body

  /** The state a line starts in and the host's state stack. */
  datatype Snapshot = Snapshot(state: LexState, stack: seq<StackValue>)

  const Initial := Snapshot(Start, [])

  /** The name each table gives the state inside a multiline field. */
  function BodyName(table: Table): string {
    match table
    case Canonical => "multilineField"
    case Bundled => "block"
  }

  /** The entry the begin handler pushes under the state name. */
  function Opening(table: Table, d: Dash): StackValue {
    match table
    case Canonical => FrameValue(Frame(d.operator, d.key))
    case Bundled => Str(d.key)
  }

  /** The terminator handler's test of `state[1]`. */
  predicate Closes(table: Table, stack: seq<StackValue>, d: Dash) {
    match table
    case Canonical =>
      |stack| >= 2 && stack[1].FrameValue?
      && stack[1].frame.operator == d.operator && stack[1].frame.key == d.key
    case Bundled => |stack| >= 2 && stack[1] == Str(d.key)
  }

  /** The canonical terminator reads `state[1].operator`, which throws when
      the stack has no second entry. */
  predicate Ready(table: Table, snap: Snapshot) {
    snap.state.Body? && table.Canonical? ==> |snap.stack| >= 2
  }

  /** The tokens of one line and the snapshot for the next. */
  datatype Lexed = Lexed(tokens: seq<Token>, next: Snapshot)

  /** A line inside a multiline field: a matching terminator ends it,
      anything else is one content token. */
  function BodyLine(table: Table, line: string, snap: Snapshot): Lexed
    requires Ready(table, snap)
  {
    match DashOf(line)
    case Some(d) =>
      if Closes(table, snap.stack, d) then
        Lexed([Token(FieldEnd, d.operator), Token(Text, d.space), Token(FieldName, d.key)],
              Snapshot(Start, snap.stack[2..]))
      else Lexed(Optional(Content, line), snap)
    case None => Lexed(Optional(Content, line), snap)
  }

  /** A line in the `start` state; a closing begin rule pushes the body state
      name and its entry. */
  function StartLine(table: Table, line: string, snap: Snapshot): Lexed {
    var scan := ScanStart(table, line);
    match scan.begun
    case Some(d) => Lexed(scan.tokens, Snapshot(Body, [Str(BodyName(table)), Opening(table, d)] + snap.stack))
    case None => Lexed(scan.tokens, snap)
  }

  /** One line, from the snapshot the previous line left. */
  function TokenizeLine(table: Table, line: string, snap: Snapshot): (r: Lexed)
    requires Ready(table, snap)
    ensures Ready(table, r.next)
  {
    match snap.state
    case Start => StartLine(table, line, snap)
    case Body => BodyLine(table, line, snap)
  }

  /** A document, line by line. */
  function TokenizeLines(table: Table, lines: seq<string>, snap: Snapshot): (r: (seq<seq<Token>>, Snapshot))
    requires Ready(table, snap)
    ensures |r.0| == |lines| && Ready(table, r.1)
  {
    if lines == [] then ([], snap)
    else
      var first := TokenizeLine(table, lines[0], snap);
      var rest := TokenizeLines(table, lines[1..], first.next);
      ([first.tokens] + rest.0, rest.1)
  }
}

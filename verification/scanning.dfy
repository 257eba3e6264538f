/** How the scan of the `start` state advances: some rule always matches at a
    non-blank character, the first that matches decides, and the scan goes on
    after what it consumed. */
module Scanning {
  import opened Chars
  import opened Tokens
  import opened Patterns
  import opened Lexer

  /** The rule at `i` wins when it matches and no earlier one does. */
  lemma FirstAt(table: Table, rules: seq<Rule>, s: string, i: nat)
    requires i < |rules| && Try(table, rules[i], s).Some?
    requires forall j | 0 <= j < i :: Try(table, rules[j], s).None?
    ensures FirstHit(table, rules, s) == Some((i, Try(table, rules[i], s).value))
  {
    var r := FirstHit(table, rules, s);
    assert r.Some?;
  }

  /** A line whose first rule consumes it whole: its tokens are that rule's
      array, and only the begin rule opens a field. */
  lemma WholeLine(table: Table, s: string, i: nat, h: Hit)
    requires |s| > 0 && !IsSpace(s[0])
    requires FirstHit(table, StartRules(table), s) == Some((i, h)) && Consumed(h, s) == |s|
    ensures ScanStart(table, s) == Scan(HitTokens(h), if h.FieldHit? then Some(h.dash) else None)
  {
    ScanFront(table, s);
    assert s[|s|..] == [];
    assert HitTokens(h) + [] == HitTokens(h);
  }

  /** At a non-blank character some rule always matches (the fallback takes
      any), and the scan emits that rule's tokens and goes on after what it
      consumed. */
  lemma ScanFront(table: Table, s: string)
    requires |s| > 0 && !IsSpace(s[0])
    ensures FirstHit(table, StartRules(table), s).Some?
    ensures var h := FirstHit(table, StartRules(table), s).value.1;
      && 1 <= Consumed(h, s) <= |s|
      && var rest := ScanStart(table, s[Consumed(h, s)..]);
         ScanStart(table, s) == Scan(HitTokens(h) + rest.tokens, if h.FieldHit? then Some(h.dash) else rest.begun)
  {
    var rules := StartRules(table);
    assert Try(table, rules[|rules| - 1], s).Some?;
    var (i, h) := FirstHit(table, rules, s).value;
    TryConsumed(table, rules[i], s, h);
  }

  /** Every hit consumes at least one character and no more than there is. */
  lemma TryConsumed(table: Table, rule: Rule, s: string, h: Hit)
    requires Try(table, rule, s) == Some(h)
    ensures 1 <= Consumed(h, s) <= |s|
  {
    match rule
    case CommentRule =>
    case FieldRule =>
    case ItemRule =>
    case SectionRule =>
    case ContinuationRule =>
    case BareKeyRule =>
    case KeyRule(sep) =>
    case FencedKeyRule(sep) =>
    case FencedSectionRule =>
    case IllegalRule =>
  }

  /** A rule that matches the whole line and follows only rules that fail
      decides the line alone. */
  lemma RuleWins(table: Table, s: string, i: nat, h: Hit)
    requires |s| > 0 && !IsSpace(s[0]) && Consumed(h, s) == |s|
    requires i < |StartRules(table)| && Try(table, StartRules(table)[i], s) == Some(h)
    requires forall j | 0 <= j < i :: Try(table, StartRules(table)[j], s).None?
    ensures ScanStart(table, s) == Scan(HitTokens(h), if h.FieldHit? then Some(h.dash) else None)
  {
    FirstAt(table, StartRules(table), s, i);
    WholeLine(table, s, i, h);
  }
}

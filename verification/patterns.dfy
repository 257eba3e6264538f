/** The patterns of the Eno rule tables, one matcher per regular expression.
    Each matcher reads the text from the character the scanner has reached to
    the end of the line, and returns the capture groups of the match the
    regular expression's backtracking would find first, or `None`. */
module Patterns {
  import opened Chars
  import opened Tokens

  /** Which copy of the rule table: mode/eno_highlight_rules.js (`Canonical`)
      or builds/src-noconflict/mode-eno.js (`Bundled`). */
  datatype Table = Canonical | Bundled

  /** Blanks then a value, the end of most patterns: `(\s*)(\S.*?)?(?:\s*$)`,
      `(\s*)(.+?)?(?:\s*$)`, `(\s*)(\S[^\n]*?)(?:\s*$)`. `value` is empty when
      an optional value group took no part in the match. */
  datatype Valued = Valued(space: string, value: string)

  /** Characters a value may hold: `.` when `dotted`, else `[^\n]`. */
  predicate ValueChars(v: string, dotted: bool) {
    if dotted then AllDot(v) else '\n' !in v
  }

  /** `s` is the greedy blank run `v.space`, then `v.value` from its first to
      its last non-blank character, then trailing blanks. */
  predicate ValuedShape(s: string, v: Valued, dotted: bool) {
    && AllSpace(v.space)
    && ValueChars(v.value, dotted)
    && (v.value != [] ==> !IsSpace(v.value[0]) && !IsSpace(v.value[|v.value| - 1]))
    && (v.value == [] ==> v.space == s)
    && EndsInSpace(s, v.space + v.value)
  }

  function ValuedOf(s: string, dotted: bool): (r: Option<Valued>)
    ensures r.Some? ==> ValuedShape(s, r.value, dotted)
  {
    var w := SpaceRun(s);
    var n := Trimmed(s[w..]);
    var v := s[w..][..n];
    if ValueChars(v, dotted) then
      ValuedIntro(s, w, n, dotted);
      Some(Valued(s[..w], v))
    else None
  }

  /** The greedy blank run and the trimmed rest make a `Valued` of that shape. */
  lemma ValuedIntro(s: string, w: nat, n: nat, dotted: bool)
    requires w == SpaceRun(s) && n == Trimmed(s[w..]) && ValueChars(s[w..][..n], dotted)
    ensures ValuedShape(s, Valued(s[..w], s[w..][..n]), dotted)
  {
    var v := s[w..][..n];
    assert s[..w + n] == s[..w] + v;
    assert s[w + n..] == s[w..][n..];
    if n > 0 {
      assert v[0] == s[w];
      assert v[n - 1] == s[w..][n - 1];
    }
  }

  /** The decomposition `ValuedOf` finds is the only one of that shape. */
  lemma ValuedComplete(s: string, v: Valued, dotted: bool)
    requires ValuedShape(s, v, dotted)
    ensures ValuedOf(s, dotted) == Some(v)
  {
    var w := |v.space|;
    var n := |v.value|;
    assert s[..w + n] == v.space + v.value;
    assert s[..w] == v.space;
    if n == 0 {
      SpaceRunUnique(s, |s|);
      TrimmedUnique(s[w..], 0);
    } else {
      assert s[w] == v.value[0];
      SpaceRunUnique(s, w);
      assert s[w..][n - 1] == v.value[n - 1];
      assert s[w..][n..] == s[w + n..];
      TrimmedUnique(s[w..], n);
      assert s[w..][..n] == s[..w + n][w..];
      assert (v.space + v.value)[w..] == v.value;
    }
  }

  // ---------------------------------------------------------------- comment

  /** `>.*`: a `>` and the greedy run of non-terminator characters after it. */
  function CommentOf(s: string): (r: Option<string>)
    ensures r.Some? <==> |s| > 0 && s[0] == '>'
    ensures r.Some? ==> 1 <= |r.value| <= |s| && r.value == s[..|r.value|] && AllDot(r.value[1..])
    ensures r.Some? && |r.value| < |s| ==> !IsDot(s[|r.value|])
  {
    if |s| > 0 && s[0] == '>' then
      var n := DotRun(s[1..]);
      assert s[..1 + n][1..] == s[1..][..n];
      Some(s[..1 + n])
    else None
  }

  // ------------------------------------------------------- multiline field

  /** Operator, blanks and key of `(-{2,})(?!-)(\s*)(\S[^\n]*?)(?:\s*$)`, the
      pattern both of the line that opens a multiline field and of the line
      that may close it. */
  datatype Dash = Dash(operator: string, space: string, key: string)

  predicate DashShape(s: string, d: Dash) {
    && |d.operator| >= 2 && AllChar(d.operator, '-')
    && d.key != [] && (d.space + d.key)[0] != '-'
    && |d.operator| <= |s| && s[..|d.operator|] == d.operator
    && ValuedShape(s[|d.operator|..], Valued(d.space, d.key), false)
  }

  function DashOf(s: string): (r: Option<Dash>)
    ensures r.Some? ==> DashShape(s, r.value)
  {
    var d := CharRun(s, '-');
    if d < 2 then None
    else
      match ValuedOf(s[d..], false)
      case None => None
      case Some(v) =>
        if v.value == [] then None
        else
          assert s[d..][..|v.space| + |v.value|] == v.space + v.value;
          assert (v.space + v.value)[0] == s[d];
          Some(Dash(s[..d], v.space, v.value))
  }

  /** Operator maximality and key trimming leave exactly one way to read a
      dash line. */
  lemma DashComplete(s: string, d: Dash)
    requires DashShape(s, d)
    ensures DashOf(s) == Some(d)
  {
    var o := |d.operator|;
    var t := s[o..];
    assert t[..|d.space| + |d.key|] == d.space + d.key;
    assert s[o] == t[0] == (d.space + d.key)[0];
    CharRunUnique(s, '-', o);
    ValuedComplete(t, Valued(d.space, d.key), false);
  }

  // --------------------------------------------------- item and continuation

  /** `(-)(\s*)(.+?)?(?:\s*$)`: a list item with an optional value. */
  function ItemOf(s: string): (r: Option<Valued>)
    ensures r.Some? ==> |s| > 0 && s[0] == '-' && ValuedShape(s[1..], r.value, true)
  {
    if |s| > 0 && s[0] == '-' then ValuedOf(s[1..], true) else None
  }

  /** `(\||\\)(\s*)(.+?)?(?:\s*$)`: a continuation with an optional value. */
  function ContinuationOf(s: string): (r: Option<Valued>)
    ensures r.Some? ==> |s| > 0 && (s[0] == '|' || s[0] == '\\') && ValuedShape(s[1..], r.value, true)
  {
    if |s| > 0 && (s[0] == '|' || s[0] == '\\') then ValuedOf(s[1..], true) else None
  }

  /** Every line of the item shape is read as that item. */
  lemma ItemComplete(s: string, v: Valued)
    requires |s| > 0 && s[0] == '-' && ValuedShape(s[1..], v, true)
    ensures ItemOf(s) == Some(v)
  {
    ValuedComplete(s[1..], v, true);
  }

  /** Every line of the continuation shape is read as that continuation. */
  lemma ContinuationComplete(s: string, v: Valued)
    requires |s| > 0 && (s[0] == '|' || s[0] == '\\') && ValuedShape(s[1..], v, true)
    ensures ContinuationOf(s) == Some(v)
  {
    ValuedComplete(s[1..], v, true);
  }

  // ------------------------------------------------------------------ tails

  /** What follows a key or a section name: blanks (`gap`), an operator, blanks
      and a value. For a section without template `operator` is empty. */
  datatype Tail = Tail(gap: string, operator: string, space: string, value: string)

  /** `<(?!<)|<<` where `doubled`, else the plain `<`; `a` starts with `<`. */
  function AngleOperator(a: string, doubled: bool): (op: string)
    requires |a| > 0 && a[0] == '<'
    ensures op == "<" || op == "<<"
    ensures op == "<<" <==> doubled && |a| >= 2 && a[1] == '<'
    ensures |op| <= |a| && a[..|op|] == op
  {
    if doubled && |a| >= 2 && a[1] == '<' then "<<" else "<"
  }

  /** Gap then operator, with the value part after it of the given shape. */
  predicate TailShape(u: string, t: Tail, dotted: bool) {
    && AllSpace(t.gap)
    && t.operator != [] && !IsSpace(t.operator[0])
    && |t.gap| + |t.operator| <= |u| && u[..|t.gap| + |t.operator|] == t.gap + t.operator
    && ValuedShape(u[|t.gap| + |t.operator|..], Valued(t.space, t.value), dotted)
  }

  /** `(\s*)(?:(<(?!<)|<<)(\s*)(\S[^\n]*?))?(?:\s*$)` after a section name. */
  predicate SectionTailShape(u: string, t: Tail) {
    if t.operator == [] then
      AllSpace(u) && t == Tail(u, [], [], [])
    else
      && (t.operator == "<" || t.operator == "<<")
      && t.value != []
      && (t.operator == "<" ==> (t.space + t.value)[0] != '<')
      && TailShape(u, t, false)
  }

  /** Packs gap, operator and value into a tail once each has its shape. */
  lemma TailIntro(u: string, g: nat, op: string, v: Valued, dotted: bool)
    requires g == SpaceRun(u) && op != [] && !IsSpace(op[0])
    requires g + |op| <= |u| && u[g..][..|op|] == op
    requires ValuedShape(u[g + |op|..], v, dotted)
    ensures TailShape(u, Tail(u[..g], op, v.space, v.value), dotted)
  {
    assert u[..g + |op|] == u[..g] + op by {
      assert u[..g + |op|] == u[..g] + u[g..][..|op|];
    }
  }

  /** The first character after the operator of a tail with a value. */
  lemma TailNext(u: string, t: Tail, dotted: bool)
    requires TailShape(u, t, dotted)
    ensures t.value != [] ==> |t.gap| + |t.operator| < |u|
    ensures t.value != [] ==> u[|t.gap| + |t.operator|] == (t.space + t.value)[0]
  {
    if t.value != [] {
      var rest := u[|t.gap| + |t.operator|..];
      assert rest[..|t.space| + |t.value|] == t.space + t.value;
      assert rest[0] == (t.space + t.value)[0];
    }
  }

  function SectionTailOf(u: string): (r: Option<Tail>)
    ensures r.Some? ==> SectionTailShape(u, r.value)
  {
    var g := SpaceRun(u);
    var a := u[g..];
    if a == [] then
      assert u[..g] == u;
      Some(Tail(u, [], [], []))
    else if a[0] != '<' then None
    else
      var op := AngleOperator(a, true);
      match ValuedOf(a[|op|..], false)
      case None => None
      case Some(v) =>
        if v.value == [] then None
        else
          assert u[g + |op|..] == a[|op|..];
          TailIntro(u, g, op, v, false);
          TailNext(u, Tail(u[..g], op, v.space, v.value), false);
          Some(Tail(u[..g], op, v.space, v.value))
  }

  /** A section tail is read in exactly one way. */
  lemma SectionTailComplete(u: string, t: Tail)
    requires SectionTailShape(u, t)
    ensures SectionTailOf(u) == Some(t)
  {
    if t.operator == [] {
      SpaceRunUnique(u, |u|);
      assert u[..|u|] == u;
    } else {
      TemplateTailComplete(u, t);
    }
  }

  lemma TemplateTailComplete(u: string, t: Tail)
    requires SectionTailShape(u, t) && t.operator != []
    ensures SectionTailOf(u) == Some(t)
  {
    var g := |t.gap|;
    var o := |t.operator|;
    TailFront(u, t, false);
    TailNext(u, t, false);
    var a := u[g..];
    assert a[0] == t.operator[0];
    if t.operator == "<<" {
      assert a[1] == t.operator[1];
    } else {
      assert |a| >= 2 ==> a[1] == u[g + o];
    }
    assert AngleOperator(a, true) == t.operator;
    ValuedComplete(a[o..], Valued(t.space, t.value), false);
  }

  /** The separator a key rule expects. */
  datatype Sep = Colon | Equals | Angle

  /** The operators each key rule accepts. */
  predicate OperatorFits(table: Table, sep: Sep, op: string) {
    match sep
    case Colon => op == ":"
    case Equals => op == "="
    case Angle => op == "<" || (table.Bundled? && op == "<<")
  }

  /** The operator a key rule reads at the front of `a`, or empty. */
  function KeyOperator(table: Table, sep: Sep, a: string): (op: string)
    requires |a| > 0
    ensures op != [] ==> OperatorFits(table, sep, op) && |op| <= |a| && a[..|op|] == op && !IsSpace(op[0])
    ensures op == [] ==> !OperatorFits(table, sep, a[..1])
    ensures sep.Angle? && table.Bundled? && op == "<" ==> !(|a| >= 2 && a[1] == '<')
    ensures sep.Angle? && table.Bundled? && op == "<<" ==> |a| >= 2 && a[1] == '<'
  {
    match sep
    case Colon => if a[0] == ':' then ":" else []
    case Equals => if a[0] == '=' then "=" else []
    case Angle => if a[0] == '<' then AngleOperator(a, table.Bundled?) else []
  }

  /** `(\s*)(:)(\s*)(\S.*?)?(?:\s*)$`, the same with `=`, and the template
      forms `(\s*)(<)(\s*)(\S.*?)(?:\s*)$` (canonical) and
      `(\s*)(<(?!<)|<<)(\s*)(\S.*?)(?:\s*)$` (bundled): the `:` and `=` values
      are optional, the template name is not. */
  predicate KeyTailShape(table: Table, sep: Sep, u: string, t: Tail) {
    && OperatorFits(table, sep, t.operator)
    && (sep.Angle? ==> t.value != [])
    && (sep.Angle? && table.Bundled? && t.operator == "<" ==> (t.space + t.value)[0] != '<')
    && TailShape(u, t, true)
  }

  function KeyTailOf(table: Table, sep: Sep, u: string): (r: Option<Tail>)
    ensures r.Some? ==> KeyTailShape(table, sep, u, r.value)
  {
    var g := SpaceRun(u);
    var a := u[g..];
    if a == [] then None
    else
      var op := KeyOperator(table, sep, a);
      if op == [] then None
      else
        match ValuedOf(a[|op|..], true)
        case None => None
        case Some(v) =>
          if sep.Angle? && v.value == [] then None
          else
            assert u[g + |op|..] == a[|op|..];
            TailIntro(u, g, op, v, true);
            TailNext(u, Tail(u[..g], op, v.space, v.value), true);
            Some(Tail(u[..g], op, v.space, v.value))
  }

  /** A key tail is read in exactly one way. */
  lemma KeyTailComplete(table: Table, sep: Sep, u: string, t: Tail)
    requires KeyTailShape(table, sep, u, t)
    ensures KeyTailOf(table, sep, u) == Some(t)
  {
    var g := |t.gap|;
    var o := |t.operator|;
    TailFront(u, t, true);
    TailNext(u, t, true);
    var a := u[g..];
    KeyOperatorIs(table, sep, a, t.operator);
    ValuedComplete(a[o..], Valued(t.space, t.value), true);
  }

  /** The gap of a tail is the greedy blank run, and the operator follows it. */
  lemma TailFront(u: string, t: Tail, dotted: bool)
    requires TailShape(u, t, dotted)
    ensures SpaceRun(u) == |t.gap| && u[..|t.gap|] == t.gap
    ensures u[|t.gap|..] != [] && u[|t.gap|..][..|t.operator|] == t.operator
    ensures u[|t.gap|..][|t.operator|..] == u[|t.gap| + |t.operator|..]
  {
    var g := |t.gap|;
    var o := |t.operator|;
    assert u[..g + o] == t.gap + t.operator;
    assert u[..g] == t.gap;
    assert u[g] == t.operator[0];
    SpaceRunUnique(u, g);
    assert u[g..][..o] == u[..g + o][g..];
  }

  /** The operator a key rule reads is the one the line holds. */
  lemma KeyOperatorIs(table: Table, sep: Sep, a: string, op: string)
    requires OperatorFits(table, sep, op) && |op| <= |a| && a[..|op|] == op
    requires sep.Angle? && table.Bundled? && op == "<" ==> |a| < 2 || a[1] != '<'
    ensures |a| > 0 && KeyOperator(table, sep, a) == op
  {
    assert a[0] == op[0];
    if sep.Angle? && table.Bundled? && op == "<<" {
      assert a[1] == op[1];
    }
  }

  // ---------------------------------------------------------- unfenced keys

  /** `[^\s<>\-#=:\\|`]`: the first character of an unfenced key. */
  predicate KeyStart(c: char) {
    !IsSpace(c) && c !in "<>-#=:\\|`"
  }

  const KeyStops: set<char> := {'\n', '<', '=', ':'}

  /** Length of the lazy `[^\s<>\-#=:\\|`][^\n<=:]*?` once the rest of its
      pattern has to follow: the key runs to its last non-blank before the
      first `\n`, `<`, `=` or `:`. */
  function KeyLength(s: string): (n: nat)
    requires |s| > 0 && KeyStart(s[0])
    ensures 1 <= n <= |s|
    ensures forall i :: 0 <= i < n ==> s[i] !in KeyStops
    ensures !IsSpace(s[n - 1])
  {
    var m := StopAt(s, 1, KeyStops);
    var n := Trimmed(s[..m]);
    assert s[..m][0] == s[0];
    n
  }

  /** An unfenced key: a key-start character, no `\n`, `<`, `=` or `:`, and
      no trailing blank. */
  predicate KeyName(key: string) {
    && key != [] && KeyStart(key[0]) && !IsSpace(key[|key| - 1])
    && forall i :: 0 <= i < |key| ==> key[i] !in KeyStops
  }

  lemma KeyLengthName(s: string)
    requires |s| > 0 && KeyStart(s[0])
    ensures KeyName(s[..KeyLength(s)])
  {
    var n := KeyLength(s);
    var key := s[..n];
    assert forall i :: 0 <= i < n ==> key[i] == s[i];
  }

  /** The canonical `([^\s<>\-#=:\\|`][^\n<=:]*?)(?:\s*)$`: a key and nothing else. */
  function BareKeyOf(s: string): (r: Option<string>)
    ensures r.Some? ==> KeyName(r.value) && EndsInSpace(s, r.value)
  {
    if |s| > 0 && KeyStart(s[0]) then
      var n := KeyLength(s);
      KeyLengthName(s);
      if AllSpace(s[n..]) then Some(s[..n]) else None
    else None
  }

  /** `([^\s<>\-#=:\\|`][^\n<=:]*?)` followed by one of the key tails. */
  function KeyOf(table: Table, sep: Sep, s: string): (r: Option<(string, Tail)>)
    ensures r.Some? ==>
      && KeyName(r.value.0)
      && |r.value.0| <= |s| && s[..|r.value.0|] == r.value.0
      && KeyTailShape(table, sep, s[|r.value.0|..], r.value.1)
  {
    if |s| > 0 && KeyStart(s[0]) then
      var n := KeyLength(s);
      KeyLengthName(s);
      match KeyTailOf(table, sep, s[n..])
      case None => None
      case Some(t) => Some((s[..n], t))
    else None
  }

  /** Where an unfenced key ends when blanks and then a stop character (or
      the end of the line) follow it. */
  lemma KeyLengthIs(s: string, k: string, e: nat)
    requires KeyName(k) && Prefix(s, k)
    requires |k| <= e <= |s| && AllSpace(s[|k|..e]) && (e < |s| ==> s[e] in KeyStops)
    ensures |s| > 0 && KeyStart(s[0]) && KeyLength(s) == |k|
  {
    assert s[0] == k[0];
    assert forall i :: 1 <= i < |k| ==> s[i] == k[i];
    assert s[|k| - 1] == k[|k| - 1];
    TrimmedStop(s, KeyStops, |k|, e);
  }

  /** Every key with only blanks after it is read as that bare key. */
  lemma BareKeyComplete(s: string, k: string)
    requires KeyName(k) && EndsInSpace(s, k)
    ensures BareKeyOf(s) == Some(k)
  {
    KeyLengthIs(s, k, |s|);
  }

  /** Every key followed by a key tail is read as that key and tail. */
  lemma KeyComplete(table: Table, sep: Sep, s: string, k: string, t: Tail)
    requires KeyName(k) && Prefix(s, k) && KeyTailShape(table, sep, s[|k|..], t)
    ensures KeyOf(table, sep, s) == Some((k, t))
  {
    var u := s[|k|..];
    var e := |k| + |t.gap|;
    assert u[..|t.gap| + |t.operator|] == t.gap + t.operator;
    assert u[..|t.gap|] == t.gap;
    assert s[|k|..e] == u[..|t.gap|];
    assert s[e] == u[|t.gap|] == t.operator[0];
    KeyLengthIs(s, k, e);
    KeyTailComplete(table, sep, u, t);
  }
}

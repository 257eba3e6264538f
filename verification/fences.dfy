/** Backtick-fenced keys and section names, whose closing run must repeat
    the opening run: the one place where the rule tables use a
    back-reference, and so the one place where the regular expression
    backtracks over more than a trailing blank run. */
module Fences {
  import opened Chars
  import opened Tokens
  import opened Patterns

  /** A backtick-fenced key or section name:
      `(`+)(\s*)((?:(?!\1).)+)(\s*)(\1)`; the closing run equals `run`. */
  datatype Fence = Fence(run: string, before: string, name: string, after: string)

  /** What a fence is followed by: a key tail or a section tail. */
  datatype Follow = KeyFollow(sep: Sep) | SectionFollow

  function FollowOf(table: Table, follow: Follow, u: string): (r: Option<Tail>)
    ensures r.Some? ==> FollowShape(table, follow, u, r.value)
  {
    match follow
    case KeyFollow(sep) => KeyTailOf(table, sep, u)
    case SectionFollow => SectionTailOf(u)
  }

  predicate FollowShape(table: Table, follow: Follow, u: string, t: Tail) {
    match follow
    case KeyFollow(sep) => KeyTailShape(table, sep, u, t)
    case SectionFollow => SectionTailShape(u, t)
  }

  function FenceLength(fe: Fence): nat {
    |fe.run| + |fe.before| + |fe.name| + |fe.after| + |fe.run|
  }

  /** Where the name of a fence starts, where it ends, and where the
      closing run starts. */
  function NameStart(fe: Fence): nat { |fe.run| + |fe.before| }
  function NameStop(fe: Fence): nat { |fe.run| + |fe.before| + |fe.name| }
  function CloseAt(fe: Fence): nat { |fe.run| + |fe.before| + |fe.name| + |fe.after| }

  /** `s` opens with the fence `fe`, whose name no occurrence of the run
      starts inside. */
  predicate FenceCore(s: string, fe: Fence) {
    && fe.run != [] && AllChar(fe.run, '`')
    && AllSpace(fe.before) && AllSpace(fe.after)
    && fe.name != [] && AllDot(fe.name)
    && FenceLength(fe) <= |s|
    && s[..FenceLength(fe)] == fe.run + fe.before + fe.name + fe.after + fe.run
    && RunAbsent(s, NameStart(fe), NameStop(fe), |fe.run|)
  }

  /** `s` opens with the fence `fe` and the rest of `s` is the follow `t`. */
  predicate FenceShape(table: Table, follow: Follow, s: string, fe: Fence, t: Tail) {
    FenceCore(s, fe) && FollowShape(table, follow, s[FenceLength(fe)..], t)
  }

  /** What the rest of the line reads as from each position `p`, `0 <= p <= |s|`.
      The regular expression tries the follow wherever a closing run ends,
      and what it reads there does not depend on how the fence was matched,
      so the search below looks the follow up here. */
  function Follows(table: Table, follow: Follow, s: string): (fs: seq<Option<Tail>>)
    ensures |fs| == |s| + 1
  {
    seq(|s| + 1, p requires 0 <= p <= |s| => FollowOf(table, follow, s[p..]))
  }

  /** The follow read at `p` is the one read from `s[p..]`. */
  lemma FollowsAt(table: Table, follow: Follow, s: string, p: nat)
    requires p <= |s|
    ensures Follows(table, follow, s)[p] == FollowOf(table, follow, s[p..])
  {}

  /** `f` backticks start at `i`. The captured run is `f` backticks, so this
      is where the back-reference `\1` matches. */
  predicate RunAt(s: string, i: nat, f: nat) {
    i + f <= |s| && forall k :: i <= k < i + f ==> s[k] == '`'
  }

  /** The run of `f` backticks starts at no position in `[from, to)`: what
      `(?!\1)` checks before each character of a fenced name. */
  predicate RunAbsent(s: string, from: nat, to: nat, f: nat) {
    forall j :: from <= j < to ==> !RunAt(s, j, f)
  }

  /** For a run of backticks, occurring at `j` is being `|run|` backticks at `j`. */
  lemma RunAtIff(s: string, j: nat, run: string)
    requires AllChar(run, '`')
    ensures StartsAt(s, j, run) <==> RunAt(s, j, |run|)
  {
    if RunAt(s, j, |run|) {
      assert forall k :: 0 <= k < |run| ==> s[j..j + |run|][k] == s[j + k] == run[k];
    }
    if StartsAt(s, j, run) {
      forall k | j <= k < j + |run| ensures s[k] == '`' {
        assert s[k] == s[j..j + |run|][k - j];
      }
    }
  }

  /** Every position in `[i, e)` holds a `.` character where the run of `f`
      backticks does not start. */
  predicate NameRun(s: string, f: nat, i: nat, e: nat)
    requires i <= e <= |s|
  {
    && (forall j :: i <= j < e ==> IsDot(s[j]))
    && RunAbsent(s, i, e, f)
  }

  /** The greedy name `(?:(?!\1).)+` from `i`, where `\1` is `f` backticks:
      it stops at a line terminator, at an occurrence of the run, or at the end. */
  function NameEnd(s: string, f: nat, i: nat): (e: nat)
    requires i <= |s|
    ensures i <= e <= |s| && NameRun(s, f, i, e)
    ensures e < |s| ==> !IsDot(s[e]) || RunAt(s, e, f)
    decreases |s| - i
  {
    if i == |s| || !IsDot(s[i]) || RunAt(s, i, f) then i else NameEnd(s, f, i + 1)
  }

  /** Where the name of the attempt with a run of `f` backticks and `w`
      blanks after it ends, and where the blanks after that name end: the
      only place the closing run can start, since backtracking into the name
      or the blanks after it cannot uncover a backtick. */
  function AttemptName(s: string, f: nat, w: nat): (e: nat)
    requires f + w <= |s|
    ensures f + w <= e <= |s|
  {
    NameEnd(s, f, f + w)
  }

  function AttemptClose(s: string, f: nat, w: nat): (q: nat)
    requires f + w <= |s|
    ensures AttemptName(s, f, w) <= q <= |s|
  {
    AttemptName(s, f, w) + SpaceRun(s[AttemptName(s, f, w)..])
  }

  /** The fence the attempt reads when its checks pass. */
  function Attempt(s: string, f: nat, w: nat): Fence
    requires f + w <= |s|
  {
    Fence(s[..f], s[f..f + w], s[f + w..AttemptName(s, f, w)], s[AttemptName(s, f, w)..AttemptClose(s, f, w)])
  }

  /** One attempt with the run `f` backticks long and the blanks after it `w`
      long: it succeeds when the name is not empty, the closing run follows the
      blanks after it, and the follow reads from the end of the closing run. */
  function FenceAt(follows: seq<Option<Tail>>, s: string, f: nat, w: nat): Option<(Fence, Tail)>
    requires |follows| == |s| + 1 && f + w <= |s|
  {
    if AttemptName(s, f, w) == f + w || !RunAt(s, AttemptClose(s, f, w), f) then None
    else
      match follows[AttemptClose(s, f, w) + f]
      case None => None
      case Some(t) => Some((Attempt(s, f, w), t))
  }

  lemma FenceParts(s: string, fe: Fence, f: nat, n0: nat, e: nat, q: nat)
    requires 1 <= f <= n0 < e <= q && q + f <= |s|
    requires fe == Fence(s[..f], s[f..n0], s[n0..e], s[e..q])
    requires AllChar(s[..f], '`') && AllSpace(s[f..n0]) && AllSpace(s[e..q])
    requires forall j :: n0 <= j < e ==> IsDot(s[j])
    requires RunAbsent(s, n0, e, f)
    requires s[q..q + f] == s[..f]
    ensures FenceCore(s, fe)
    ensures FenceLength(fe) == q + f
  {
    assert FenceLength(fe) == q + f;
    assert AllDot(fe.name) by {
      forall j | 0 <= j < |fe.name| ensures IsDot(fe.name[j]) {
        assert fe.name[j] == s[n0 + j];
      }
    }
    Joined(s, f, n0, e, q, q + f);
  }

  /** A front of `s` is the concatenation of its consecutive slices. */
  lemma Joined(s: string, i1: nat, i2: nat, i3: nat, i4: nat, i5: nat)
    requires i1 <= i2 <= i3 <= i4 <= i5 <= |s|
    ensures s[..i5] == s[..i1] + s[i1..i2] + s[i2..i3] + s[i3..i4] + s[i4..i5]
  {
    assert s[..i2] == s[..i1] + s[i1..i2];
    assert s[..i3] == s[..i2] + s[i2..i3];
    assert s[..i4] == s[..i3] + s[i3..i4];
    assert s[..i5] == s[..i4] + s[i4..i5];
  }

  /** The first success among `tries[k]`, `tries[k - 1]`, ..., `tries[0]`:
      a greedy quantifier is tried at its longest first and gives back one
      repetition at a time. */
  function Backtrack<X>(tries: seq<Option<X>>, k: nat): Option<X>
    requires k < |tries|
    decreases k
  {
    match tries[k]
    case Some(x) => Some(x)
    case None => if k == 0 then None else Backtrack(tries, k - 1)
  }

  /** Every attempt with a run of `f` backticks, by the length of the blanks
      after the run, up to the greedy blank run. */
  function Attempts(follows: seq<Option<Tail>>, s: string, f: nat): (a: seq<Option<(Fence, Tail)>>)
    requires |follows| == |s| + 1
    requires 1 <= f <= CharRun(s, '`')
    ensures |a| == SpaceRun(s[f..]) + 1
  {
    seq(SpaceRun(s[f..]) + 1, w requires 0 <= w <= SpaceRun(s[f..]) => FenceAt(follows, s, f, w))
  }

  /** Backtracking over the blanks after a run of `f` backticks. */
  function FenceSpaces(follows: seq<Option<Tail>>, s: string, f: nat): Option<(Fence, Tail)>
    requires |follows| == |s| + 1
    requires 1 <= f <= CharRun(s, '`')
  {
    Backtrack(Attempts(follows, s, f), SpaceRun(s[f..]))
  }

  /** For every run length up to the greedy backtick run, what backtracking
      over the blanks after it finds; a run of no backticks finds nothing. */
  function Runs(follows: seq<Option<Tail>>, s: string): (a: seq<Option<(Fence, Tail)>>)
    requires |follows| == |s| + 1
    ensures |a| == CharRun(s, '`') + 1 && a[0] == None
  {
    seq(CharRun(s, '`') + 1, f requires 0 <= f <= CharRun(s, '`') => if f == 0 then None else FenceSpaces(follows, s, f))
  }

  /** `(`+)(\s*)((?:(?!\1).)+)(\s*)(\1)` and the follow: backtracking over
      the run, from the longest down, and for each run over the blanks. */
  function FencedOf(table: Table, follow: Follow, s: string): Option<(Fence, Tail)> {
    Backtrack(Runs(Follows(table, follow, s), s), CharRun(s, '`'))
  }

  /** What the search finds is a fence of the shape, followed by the follow,
      and its run is no longer than the backticks the line opens with. */
  lemma FencedSound(table: Table, follow: Follow, s: string)
    requires FencedOf(table, follow, s).Some?
    ensures FenceShape(table, follow, s, FencedOf(table, follow, s).value.0, FencedOf(table, follow, s).value.1)
    ensures |FencedOf(table, follow, s).value.0.run| <= CharRun(s, '`')
  {
    var fe := FencedOf(table, follow, s).value.0;
    RunsSound(Follows(table, follow, s), s);
    FollowsAt(table, follow, s, FenceLength(fe));
  }

  // ------------------------------------------------------------ completeness

  /** A follow of the shape is read as that follow. */
  lemma FollowComplete(table: Table, follow: Follow, u: string, t: Tail)
    requires FollowShape(table, follow, u, t)
    ensures FollowOf(table, follow, u) == Some(t)
  {
    match follow
    case KeyFollow(sep) => KeyTailComplete(table, sep, u, t);
    case SectionFollow => SectionTailComplete(u, t);
  }

  /** The two parts of a front of `s` made of two parts. */
  lemma Front(s: string, x: string, y: string)
    requires |x| + |y| <= |s| && s[..|x| + |y|] == x + y
    ensures s[..|x|] == x && s[|x|..|x| + |y|] == y
  {
    assert s[..|x|] == (x + y)[..|x|];
    assert s[|x|..|x| + |y|] == (x + y)[|x|..];
  }

  /** The five parts of a front of `s` made of five parts. */
  lemma Parts(s: string, a: string, b: string, c: string, d: string, e: string)
    requires |a| + |b| + |c| + |d| + |e| <= |s| && s[..|a| + |b| + |c| + |d| + |e|] == a + b + c + d + e
    ensures s[..|a|] == a && s[|a|..|a| + |b|] == b && s[|a| + |b|..|a| + |b| + |c|] == c
    ensures s[|a| + |b| + |c|..|a| + |b| + |c| + |d|] == d
    ensures s[|a| + |b| + |c| + |d|..|a| + |b| + |c| + |d| + |e|] == e
  {
    Front(s, a + b + c + d, e);
    Front(s, a + b + c, d);
    Front(s, a + b, c);
    Front(s, a, b);
  }

  /** The five parts of a fence as slices of the line. */
  lemma FenceSlices(s: string, fe: Fence)
    requires FenceLength(fe) <= |s|
    requires s[..FenceLength(fe)] == fe.run + fe.before + fe.name + fe.after + fe.run
    ensures s[..|fe.run|] == fe.run
    ensures s[|fe.run|..NameStart(fe)] == fe.before
    ensures s[NameStart(fe)..NameStop(fe)] == fe.name
    ensures s[NameStop(fe)..CloseAt(fe)] == fe.after
    ensures s[CloseAt(fe)..FenceLength(fe)] == fe.run
  {
    Parts(s, fe.run, fe.before, fe.name, fe.after, fe.run);
  }

  /** The greedy name from `i` runs at least to `e`, where the shape's name
      ends, and stops at the latest at `q`, where the closing run starts. */
  lemma {:induction false} NameEndStops(s: string, f: nat, i: nat, e: nat, q: nat)
    requires i <= q && e <= q && q <= |s|
    requires forall j :: i <= j < e ==> IsDot(s[j]) && !RunAt(s, j, f)
    requires RunAt(s, q, f)
    ensures i <= e ==> e <= NameEnd(s, f, i)
    ensures NameEnd(s, f, i) <= q
    decreases q - i
  {
    if i < q {
      if i < e || (IsDot(s[i]) && !RunAt(s, i, f)) {
        NameEndStops(s, f, i + 1, e, q);
      }
    }
  }

  /** The opening run and the blanks after it fit in the greedy runs. */
  lemma FenceFront(s: string, fe: Fence)
    requires fe.run != [] && AllChar(fe.run, '`') && AllSpace(fe.before)
    requires NameStart(fe) <= |s| && s[..|fe.run|] == fe.run && s[|fe.run|..NameStart(fe)] == fe.before
    ensures 1 <= |fe.run| <= CharRun(s, '`') && |fe.before| <= SpaceRun(s[|fe.run|..])
  {
    CharRunAtLeast(s, '`', |fe.run|);
    assert s[|fe.run|..][..|fe.before|] == fe.before;
    SpaceRunAtLeast(s[|fe.run|..], |fe.before|);
  }

  /** The greedy name and the blanks after it end where the shape's closing
      run starts. */
  lemma FenceClose(s: string, fe: Fence)
    requires fe.run != [] && AllChar(fe.run, '`') && fe.name != [] && AllDot(fe.name) && AllSpace(fe.after)
    requires FenceLength(fe) <= |s|
    requires s[NameStart(fe)..NameStop(fe)] == fe.name && s[NameStop(fe)..CloseAt(fe)] == fe.after
    requires s[CloseAt(fe)..FenceLength(fe)] == fe.run
    requires RunAbsent(s, NameStart(fe), NameStop(fe), |fe.run|)
    ensures NameStart(fe) < NameEnd(s, |fe.run|, NameStart(fe)) <= CloseAt(fe)
    ensures NameEnd(s, |fe.run|, NameStart(fe)) + SpaceRun(s[NameEnd(s, |fe.run|, NameStart(fe))..]) == CloseAt(fe)
    ensures RunAt(s, CloseAt(fe), |fe.run|)
  {
    NameClose(s, fe);
    NameEndStops(s, |fe.run|, NameStart(fe), NameStop(fe), CloseAt(fe));
    AfterClose(s, fe, NameEnd(s, |fe.run|, NameStart(fe)));
  }

  lemma NameClose(s: string, fe: Fence)
    requires fe.run != [] && AllChar(fe.run, '`') && AllDot(fe.name)
    requires FenceLength(fe) <= |s|
    requires s[NameStart(fe)..NameStop(fe)] == fe.name
    requires s[CloseAt(fe)..FenceLength(fe)] == fe.run
    ensures forall j :: NameStart(fe) <= j < NameStop(fe) ==> IsDot(s[j])
    ensures RunAt(s, CloseAt(fe), |fe.run|)
  {
    forall j | NameStart(fe) <= j < NameStop(fe) ensures IsDot(s[j]) {
      assert s[j] == fe.name[j - NameStart(fe)];
    }
    RunAtIff(s, CloseAt(fe), fe.run);
  }

  /** From anywhere in the blanks after the name, the blank run reaches the
      closing run. */
  lemma AfterClose(s: string, fe: Fence, e: nat)
    requires fe.run != [] && AllChar(fe.run, '`') && AllSpace(fe.after)
    requires FenceLength(fe) <= |s| && NameStop(fe) <= e <= CloseAt(fe)
    requires s[NameStop(fe)..CloseAt(fe)] == fe.after
    requires s[CloseAt(fe)..FenceLength(fe)] == fe.run
    ensures e + SpaceRun(s[e..]) == CloseAt(fe)
  {
    var gap := s[e..][..CloseAt(fe) - e];
    forall i | 0 <= i < |gap| ensures IsSpace(gap[i]) {
      assert gap[i] == fe.after[e + i - NameStop(fe)];
    }
    assert s[e..][CloseAt(fe) - e] == s[CloseAt(fe)..FenceLength(fe)][0] == fe.run[0];
    SpaceRunUnique(s[e..], CloseAt(fe) - e);
  }

  /** An attempt whose checks pass reads a fence, which ends where the
      closing run ends. */
  lemma AttemptSound(s: string, f: nat, w: nat)
    requires 1 <= f && f + w <= |s| && AllChar(s[..f], '`') && AllSpace(s[f..f + w])
    requires f + w < AttemptName(s, f, w) && RunAt(s, AttemptClose(s, f, w), f)
    ensures FenceCore(s, Attempt(s, f, w))
  {
    var e, q := AttemptName(s, f, w), AttemptClose(s, f, w);
    assert AllSpace(s[e..q]) by { SpaceSlice(s, e, q); }
    assert s[q..q + f] == s[..f] by { RunAtIff(s, q, s[..f]); }
    FenceParts(s, Attempt(s, f, w), f, f + w, e, q);
  }

  /** An attempt's fence ends where its closing run ends. */
  lemma AttemptLength(s: string, f: nat, w: nat)
    requires f + w <= |s|
    ensures FenceLength(Attempt(s, f, w)) == AttemptClose(s, f, w) + f
  {}

  /** A closing run of `f` backticks repeats the opening run. */
  lemma CloseRun(s: string, f: nat, q: nat)
    requires 1 <= f <= CharRun(s, '`') && RunAt(s, q, f)
    ensures AllChar(s[..f], '`') && q + f <= |s| && s[q..q + f] == s[..f]
  {
    CharPrefix(s, '`', f);
    RunAtIff(s, q, s[..f]);
  }

  /** What backtracking returns is the success with the greatest index. */
  lemma {:induction false} BacktrackSound<X>(tries: seq<Option<X>>, k: nat)
    requires k < |tries| && Backtrack(tries, k).Some?
    ensures exists i :: 0 <= i <= k && tries[i] == Backtrack(tries, k) && NoneBetween(tries, i, k)
    decreases k
  {
    if tries[k].None? {
      BacktrackSound(tries, k - 1);
      var i :| 0 <= i <= k - 1 && tries[i] == Backtrack(tries, k - 1) && NoneBetween(tries, i, k - 1);
      assert NoneBetween(tries, i, k);
    } else {
      assert NoneBetween(tries, k, k);
    }
  }

  /** No try in `(i, k]` succeeds. */
  predicate NoneBetween<X>(tries: seq<Option<X>>, i: nat, k: nat)
    requires k < |tries|
  {
    forall j :: i < j <= k ==> tries[j].None?
  }

  /** Backtracking from `k` succeeds once some try at or below `k` does, and
      returns one at or above it. */
  lemma {:induction false} BacktrackFinds<X>(tries: seq<Option<X>>, j: nat, k: nat)
    requires j <= k < |tries| && tries[j].Some?
    ensures Backtrack(tries, k).Some?
    ensures exists i :: j <= i <= k && tries[i] == Backtrack(tries, k)
    decreases k
  {
    if k > j && tries[k].None? {
      BacktrackFinds(tries, j, k - 1);
    }
  }

  /** What `FenceAt` finds is a fence. */
  lemma FenceAtCore(follows: seq<Option<Tail>>, s: string, f: nat, w: nat)
    requires |follows| == |s| + 1
    requires 1 <= f <= CharRun(s, '`') && w <= SpaceRun(s[f..])
    requires FenceAt(follows, s, f, w).Some?
    ensures FenceCore(s, FenceAt(follows, s, f, w).value.0)
    ensures |FenceAt(follows, s, f, w).value.0.run| == f
  {
    assert FenceAt(follows, s, f, w).value.0 == Attempt(s, f, w);
    assert AllChar(s[..f], '`') by { CharPrefix(s, '`', f); }
    assert f + w <= |s| && AllSpace(s[f..f + w]) by { SpaceSlice(s, f, f + w); }
    AttemptSound(s, f, w);
  }

  /** What `FenceAt` finds is followed by the follow read where it ends. */
  lemma FenceAtFollow(follows: seq<Option<Tail>>, s: string, f: nat, w: nat)
    requires |follows| == |s| + 1 && f + w <= |s|
    requires FenceAt(follows, s, f, w).Some?
    ensures follows[FenceLength(FenceAt(follows, s, f, w).value.0)] == Some(FenceAt(follows, s, f, w).value.1)
  {
    AttemptLength(s, f, w);
  }

  /** What backtracking over the blanks finds is a fence with a run of `f`
      backticks, followed by the follow read where it ends. */
  lemma SpacesSound(follows: seq<Option<Tail>>, s: string, f: nat)
    requires |follows| == |s| + 1
    requires 1 <= f <= CharRun(s, '`')
    requires FenceSpaces(follows, s, f).Some?
    ensures FenceCore(s, FenceSpaces(follows, s, f).value.0)
    ensures |FenceSpaces(follows, s, f).value.0.run| == f
    ensures follows[FenceLength(FenceSpaces(follows, s, f).value.0)] == Some(FenceSpaces(follows, s, f).value.1)
  {
    BacktrackSound(Attempts(follows, s, f), SpaceRun(s[f..]));
    var w :| 0 <= w <= SpaceRun(s[f..]) && Attempts(follows, s, f)[w] == FenceSpaces(follows, s, f)
      && NoneBetween(Attempts(follows, s, f), w, SpaceRun(s[f..]));
    FenceAtCore(follows, s, f, w);
    FenceAtFollow(follows, s, f, w);
  }

  /** What backtracking over the run finds is a fence no longer than the
      greedy run, followed by the follow read where it ends. */
  lemma RunsSound(follows: seq<Option<Tail>>, s: string)
    requires |follows| == |s| + 1
    requires Backtrack(Runs(follows, s), CharRun(s, '`')).Some?
    ensures FenceCore(s, Backtrack(Runs(follows, s), CharRun(s, '`')).value.0)
    ensures |Backtrack(Runs(follows, s), CharRun(s, '`')).value.0.run| <= CharRun(s, '`')
    ensures follows[FenceLength(Backtrack(Runs(follows, s), CharRun(s, '`')).value.0)]
         == Some(Backtrack(Runs(follows, s), CharRun(s, '`')).value.1)
  {
    BacktrackSound(Runs(follows, s), CharRun(s, '`'));
    var f :| 0 <= f <= CharRun(s, '`') && Runs(follows, s)[f] == Backtrack(Runs(follows, s), CharRun(s, '`'))
      && NoneBetween(Runs(follows, s), f, CharRun(s, '`'));
    SpacesSound(follows, s, f);
  }

  /** `FenceAt` succeeds once each of its checks does. */
  lemma FenceAtSteps(follows: seq<Option<Tail>>, s: string, f: nat, w: nat, t: Tail)
    requires |follows| == |s| + 1
    requires 1 <= f <= CharRun(s, '`') && w <= SpaceRun(s[f..])
    requires f + w < AttemptName(s, f, w) && RunAt(s, AttemptClose(s, f, w), f)
    requires follows[AttemptClose(s, f, w) + f] == Some(t)
    ensures FenceAt(follows, s, f, w).Some?
  {}

  /** The attempt with the shape's run and blanks passes the fence checks and
      closes where the shape does. */
  lemma FenceAttempt(s: string, fe: Fence)
    requires fe.run != [] && AllChar(fe.run, '`')
    requires fe.name != [] && AllDot(fe.name) && AllSpace(fe.after)
    requires FenceLength(fe) <= |s|
    requires s[NameStart(fe)..NameStop(fe)] == fe.name && s[NameStop(fe)..CloseAt(fe)] == fe.after
    requires s[CloseAt(fe)..FenceLength(fe)] == fe.run
    requires RunAbsent(s, NameStart(fe), NameStop(fe), |fe.run|)
    ensures |fe.run| + |fe.before| < AttemptName(s, |fe.run|, |fe.before|)
    ensures AttemptClose(s, |fe.run|, |fe.before|) == CloseAt(fe)
    ensures CloseAt(fe) + |fe.run| == FenceLength(fe)
    ensures RunAt(s, CloseAt(fe), |fe.run|)
  {
    FenceClose(s, fe);
    assert AttemptName(s, |fe.run|, |fe.before|) == NameEnd(s, |fe.run|, NameStart(fe));
  }

  /** When the attempt with the shape's run and blanks succeeds, backtracking
      finds a fence whose run is at least as long. */
  lemma RunsFinds(follows: seq<Option<Tail>>, s: string, f: nat, w: nat)
    requires |follows| == |s| + 1
    requires 1 <= f <= CharRun(s, '`') && w <= SpaceRun(s[f..])
    requires FenceAt(follows, s, f, w).Some?
    ensures Backtrack(Runs(follows, s), CharRun(s, '`')).Some?
    ensures |Backtrack(Runs(follows, s), CharRun(s, '`')).value.0.run| >= f
  {
    BacktrackFinds(Attempts(follows, s, f), w, SpaceRun(s[f..]));
    BacktrackFinds(Runs(follows, s), f, CharRun(s, '`'));
    var i :| f <= i <= CharRun(s, '`') && Runs(follows, s)[i] == Backtrack(Runs(follows, s), CharRun(s, '`'));
    SpacesSound(follows, s, i);
  }

  /** Whenever a fence of the shape exists, the search finds one, and its
      run is at least as long: the backtracking tries the longest run first. */
  lemma FencedComplete(table: Table, follow: Follow, s: string, fe: Fence, t: Tail)
    requires FenceShape(table, follow, s, fe, t)
    ensures FencedOf(table, follow, s).Some?
    ensures |FencedOf(table, follow, s).value.0.run| >= |fe.run|
  {
    FollowComplete(table, follow, s[FenceLength(fe)..], t);
    FollowsAt(table, follow, s, FenceLength(fe));
    FencedFinds(Follows(table, follow, s), s, fe, t);
  }

  /** The same, for any table of follows. */
  lemma FencedFinds(follows: seq<Option<Tail>>, s: string, fe: Fence, t: Tail)
    requires |follows| == |s| + 1
    requires FenceCore(s, fe) && follows[FenceLength(fe)] == Some(t)
    ensures Backtrack(Runs(follows, s), CharRun(s, '`')).Some?
    ensures |Backtrack(Runs(follows, s), CharRun(s, '`')).value.0.run| >= |fe.run|
  {
    var f, w := |fe.run|, |fe.before|;
    assert 1 <= f <= CharRun(s, '`') && w <= SpaceRun(s[f..]) && FenceAt(follows, s, f, w).Some? by {
      CoreAttempt(s, fe);
      FenceAtSteps(follows, s, f, w, t);
    }
    RunsFinds(follows, s, f, w);
  }

  /** The attempt with the shape's run and blanks passes the fence checks and
      ends where the shape does. */
  lemma CoreAttempt(s: string, fe: Fence)
    requires FenceCore(s, fe)
    ensures 1 <= |fe.run| <= CharRun(s, '`') && |fe.before| <= SpaceRun(s[|fe.run|..])
    ensures |fe.run| + |fe.before| < AttemptName(s, |fe.run|, |fe.before|)
    ensures RunAt(s, AttemptClose(s, |fe.run|, |fe.before|), |fe.run|)
    ensures AttemptClose(s, |fe.run|, |fe.before|) + |fe.run| == FenceLength(fe)
  {
    FenceSlices(s, fe);
    FenceFront(s, fe);
    FenceAttempt(s, fe);
  }

}

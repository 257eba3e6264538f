# Eno line tokenizer

A model of the Ace highlighting rules for the Eno document language. Ace
tokenizes a document one line at a time. For each line it uses a lexer state
(`start`, or the state inside a multiline field) and a small state stack. It
returns the line's tokens and the state for the next line.

Two copies of the rule table exist, and the model takes the copy as a
parameter (`Patterns.Table`):

- `Canonical` is mode/eno_highlight_rules.js. Its multiline field state is
  `multilineField`. It has a rule for a key without separator ("empty" key),
  and its terminator compares the dash operator and the key.
- `Bundled` is builds/src-noconflict/mode-eno.js. Its field state is `block`.
  It has no rule for a key without separator, its key template rules also
  accept `<<`, and its terminator compares the key only.

Every regular expression of the tables is written as a deterministic matcher
over `seq<char>`. On text inside the Basic Multilingual Plane, the matcher
returns what the JavaScript engine captures, with the same greedy and lazy
choices and the same backtracking order. A matcher `XOf` comes with a shape
predicate and two facts:

- soundness: what `XOf` reads has the shape;
- completeness: every decomposition of that shape is what `XOf` reads.

Together they give the unique reading. The backtick-fenced rules are the only
ones with a back-reference. There the search runs over run lengths from the
longest down, and over the blanks after the run.

The modules:

- `Chars`: character classes and greedy runs.
- `Tokens`: token kinds and the text tokens spell.
- `Patterns`: comment, dash line, item, continuation, key and tail matchers.
- `Fences`: fenced names and their search.
- `Sections`: section headers, plain and fenced.
- `Lexer`: the rule list, the token arrays, the `start` scan, the field state
  and the line and document drivers.
- `Scanning`: how the `start` scan advances.
- `Coverage`: tokens spell the line.
- `Properties`: rule order, the field round trip, reachable snapshots.

## Model

| member | source | states |
|---|---|---|
| Patterns.ValuedOf | mode/eno_highlight_rules.js:32 | The `(\s*)(.+?)?(?:\s*$)` ending reads a blank run, then a value running from its first to its last non-blank character, then only blanks. With no value, the blank run is the whole rest. |
| Patterns.ValuedComplete | mode/eno_highlight_rules.js:32 | Any split of a rest into a blank run, a trimmed value and trailing blanks is the one the ending reads, so the capture groups are determined by the line. |
| Patterns.CommentOf | mode/eno_highlight_rules.js:10-14 | `>.*` matches exactly when the text starts with `>`. The comment is the `>` and every following character up to the first line terminator, which it never passes. |
| Patterns.DashOf | mode/eno_highlight_rules.js:28 | A begin or terminator line has an operator of two or more dashes, then blanks. The first character after the dashes is not `-`, so the operator is the maximal run; the key may still start with `-` once blanks precede it, as in `-- -x`. The key is not empty and has no trailing blanks. Only blanks follow the key. |
| Patterns.DashComplete | mode/eno_highlight_rules.js:28 | Every line of that shape is read with exactly that operator, blank run and key. |
| Patterns.ItemOf | mode/eno_highlight_rules.js:30-38 | An item line is one `-`, blanks and an optional value with no trailing blanks. |
| Patterns.ItemComplete | mode/eno_highlight_rules.js:30-38 | Every line of the item shape is read as that marker, blank run and value. |
| Patterns.ContinuationOf | mode/eno_highlight_rules.js:52-60 | A continuation is a vertical bar or a backslash, blanks and an optional value. |
| Patterns.ContinuationComplete | mode/eno_highlight_rules.js:52-60 | Every line of the continuation shape is read as that continuation. |
| Patterns.AngleOperator | builds/src-noconflict/mode-eno.js:77 | The template operator `<(?!<)` or `<<` reads `<<` exactly when doubling is allowed and a second `<` follows, and otherwise reads the single `<`. |
| Patterns.SectionTailOf | mode/eno_highlight_rules.js:41 | After a section name comes only blanks, or blanks, `<` (not followed by `<`) or `<<`, blanks and a required non-empty template name without `\n`. |
| Patterns.SectionTailComplete | mode/eno_highlight_rules.js:41 | A section tail of that shape is read in exactly that way. |
| Patterns.KeyOperator | builds/src-noconflict/mode-eno.js:56-85 | Each key rule reads only its own separator: `:`, `=`, or `<`. In the bundled table only, it also reads `<<`. In that table, a `<` read alone is never followed by a second `<`. |
| Patterns.KeyTailOf | mode/eno_highlight_rules.js:68-100 | After a key come blanks, the rule's separator, blanks and a value. The value is optional after `:` and `=` and required after `<`. |
| Patterns.KeyTailComplete | builds/src-noconflict/mode-eno.js:56-85 | A tail of a key rule's shape, for either table, is read in exactly that way. |
| Patterns.BareKeyOf | mode/eno_highlight_rules.js:61-67 | An empty-key line is a key and then only blanks. The key starts with a character that is not blank, not a vertical bar, a backslash or a backtick, and not one of `<>-#=:`, contains no `\n`, `<`, `=` or `:`, and has no trailing blank. |
| Patterns.BareKeyComplete | mode/eno_highlight_rules.js:61-67 | Every key followed only by blanks is read as that key. |
| Patterns.KeyOf | mode/eno_highlight_rules.js:68-100 | A key line is such a key, at the front of the line, followed by a tail of the rule's shape. |
| Patterns.KeyComplete | builds/src-noconflict/mode-eno.js:56-85 | Every key followed by a tail of a key rule's shape is read as that key and tail. The lazy key stops before the blanks that precede the separator. |
| Fences.RunAtIff | mode/eno_highlight_rules.js:103 | The back-reference `\1` matches at a position exactly when as many backticks as the opening run start there. |
| Fences.NameEnd | mode/eno_highlight_rules.js:103 | `(?:(?!\1).)+` covers only `.` characters at which the run does not start. It stops at a line terminator, at the next occurrence of the run, or at the end of the line. |
| Fences.BacktrackSound | mode/eno_highlight_rules.js:103 | Giving back one repetition at a time returns the success with the greatest count, and every larger count fails. |
| Fences.BacktrackFinds | mode/eno_highlight_rules.js:103 | Backtracking succeeds whenever some count at or below the greedy one succeeds, and it returns one at least that large. |
| Fences.RunsSound | mode/eno_highlight_rules.js:101-115 | What the search over run lengths finds is a fence of the shape. Its run is no longer than the line's opening backticks, and the follow reads from the end of its closing run. |
| Fences.FencedSound | mode/eno_highlight_rules.js:101-145 | A fenced key reads a backtick run, blanks, a non-empty name in which the run never starts, blanks, the same run again, and then the rule's tail. |
| Fences.FencedComplete | mode/eno_highlight_rules.js:101-145 | Every line that opens with such a fence and tail is accepted, and the run read is at least as long as the fence's. |
| Sections.SectionLength | mode/eno_highlight_rules.js:41 | The lazy section name is not empty. It does not start with a blank, `<` or a backtick, contains no `\n` or `<`, and ends with a non-blank. |
| Sections.HeadLengthShape | mode/eno_highlight_rules.js:41 | `(#{1,})(?!#)(\s*)` is the maximal `#` run and the blanks after it. |
| Sections.SectionSound | mode/eno_highlight_rules.js:39-51 | A section line is a maximal `#` run, blanks, a plain section name and a section tail. |
| Sections.SectionComplete | builds/src-noconflict/mode-eno.js:36-47 | Every line of the plain section shape is read as exactly that section. |
| Sections.FencedSectionSound | mode/eno_highlight_rules.js:146-162 | A fenced section is a maximal `#` run, blanks, a fence whose closing run repeats the opening one (`\3`), and a section tail. |
| Sections.FencedSectionComplete | builds/src-noconflict/mode-eno.js:128-143 | Every line of the fenced section shape is accepted, with the same `#` run and blanks, and a run at least as long. |
| Lexer.StartRules | mode/eno_highlight_rules.js:9-167 | The comment rule comes first, then the begin rule, then the item rule, and the `\S` fallback comes last. The empty-key rule is present exactly in the canonical table. |
| Lexer.FirstHit | mode/eno_highlight_rules.js:9-167 | The winning rule matches, and every rule declared before it fails. When nothing is found, every rule fails. |
| Lexer.TokenizeLine | mode/eno_highlight_rules.js:171-176 | From a snapshot whose canonical terminator can read `state[1]`, every line leads to such a snapshot. |
| Lexer.TokenizeLines | mode/eno_highlight_rules.js:168-191 | A document gives one token list per line and a snapshot that the next line can use. |
| Scanning.ScanFront | mode/eno_highlight_rules.js:163-166 | Because `\S` is the last rule, some rule matches at every non-blank character. It consumes at least one character and at most the rest of the line, and the scan emits its tokens and continues after what it consumed. |
| Scanning.TryConsumed | mode/eno_highlight_rules.js:9-167 | Every rule that matches consumes between one character and the rest of the line. |
| Scanning.FirstAt | mode/eno_highlight_rules.js:9-167 | A rule that matches, after rules that all fail, is the one the scan picks. |
| Scanning.RuleWins | mode/eno_highlight_rules.js:9-167 | A rule that matches the whole line, after rules that all fail, alone decides the line's tokens. Only the begin rule opens a field. |
| Coverage.HitCovers | mode/eno_highlight_rules.js:9-167 | The token array of every rule spells exactly what the rule consumed, up to the trailing blanks that `(?:\s*$)` captures in no group. |
| Coverage.ScanCovers | mode/eno_highlight_rules.js:9-167 | The tokens of a `start` line spell the line, up to blanks at its end. |
| Coverage.LineCovers | mode/eno_highlight_rules.js:168-191 | The tokens of every line, in either state, spell the line up to blanks at its end. |
| Coverage.BodyCovers | mode/eno_highlight_rules.js:168-191 | Inside a field, a terminator's three tokens spell the terminator up to trailing blanks, and any other line is spelled in full. |
| Coverage.BodyContent | mode/eno_highlight_rules.js:189-191 | The content token of a field line spells the whole line. |
| Properties.CommentLine | mode/eno_highlight_rules.js:10-14 | A line of `>` and non-terminators is one comment token, and the snapshot is unchanged. So `> - x` is no item and `> -- x` opens no field. |
| Properties.DashLineOpens | mode/eno_highlight_rules.js:15-28 | A begin line emits its operator, blanks and key tokens. It pushes the field state name and the table's entry (`{operator, key}` or the key) on top of the old stack, so `--x` is never an item. |
| Properties.ItemLine | mode/eno_highlight_rules.js:30-38 | A line that the begin rule refuses and the item rule accepts gives the item's tokens, with the snapshot unchanged. |
| Properties.HashLine | mode/eno_highlight_rules.js:39-51 | A line starting with `#` starts with a section marker token or an illegal character token, never a key, item or comment. |
| Properties.BareKeyCanonical | mode/eno_highlight_rules.js:61-67 | In the canonical table, a key with no separator is the single empty-name token, with the snapshot unchanged. |
| Properties.BareKeyBundled | builds/src-noconflict/mode-eno.js:144-147 | In the bundled table, every rule before the fallback refuses a key with no separator, and the line starts with an illegal character token. |
| Properties.CloseIff | mode/eno_highlight_rules.js:168-191 | Inside a field, a line ends it exactly when it is a whole dash line and the table's test of `state[1]` passes. Then exactly two entries are shifted off and the end, text and name tokens are emitted. Otherwise the line is one content token and the snapshot is unchanged. |
| Properties.ClosesOpened | builds/src-noconflict/mode-eno.js:155 | Right after a begin line, a terminator passes the test exactly when its key is the begin line's key. The canonical table also requires the same operator, so `-- alpha` closes `--- alpha` only in the bundled table. |
| Properties.BodyLinesKeep | mode/eno_highlight_rules.js:183-191 | A run of lines that do not end the field leaves the snapshot unchanged, and each line is one content token. |
| Properties.LinesAppend | mode/eno_highlight_rules.js:168-191 | Tokenizing two parts of a document in turn, passing the snapshot along, gives the same as tokenizing the whole. |
| Properties.FieldRoundTrip | mode/eno_highlight_rules.js:15-191 | A begin line, lines that do not end the field, and a matching terminator bring the snapshot back to the one before the begin line: the push and the two shifts cancel. |
| Properties.SettledLines | mode/eno_highlight_rules.js:18-20 | From the initial snapshot, every document ends either in `start` with an empty stack or in the field state with exactly the state name and one entry of the table's kind. Fields never nest, and the canonical `state[1]` is always there. |
| Properties.BegunLast | mode/eno_highlight_rules.js:28 | The begin rule is anchored at the end of the line, so when a line opens a field, its last three tokens are the begin rule's. |

## Left out

- The Ace tokenizer engine is not part of this model. That means `normalizeRules`, `splitRegex`, the combined regular expression and the `#tmp` stack encoding. The `start` state is modelled as blanks, then the declared rules tried in order at the next non-blank character.
- The engine drops empty tokens and merges neighbours of equal type. The model keeps one token per capture group that took part in the match, including empty ones.
- The engine applies a rule's `next` even when the terminator handler declines and returns a plain string. The model applies the state changes exactly as the handlers write them, so after a declined terminator the model stays in the field state.
- In the field state, a dash line is a terminator only when the pattern matches the whole line from its first character. The engine's search for a match later in the line is not modelled.
- Scope strings and theming are left out. Token kinds are one role enum shared by both tables.
- Plugin registration is left out: builds/src-noconflict/mode-eno.js:179-215, mode/eno.js, `metaData`, `lineCommentStart` and the `$id` constant. mode.js, an unfinished draft of the rules, is not part of this model.
- Lexer.TokenizeLine: in the field state of the canonical table, it requires the stack to hold a second entry. The source's `state[1].operator` throws a TypeError on a shorter stack, and the exception is not modelled. `Properties.SettledLines` shows that no document reached from the initial snapshot hits that case.
- Fences.FencedComplete: states that every fence of the shape is accepted, with a run at least as long. It does not state which fence the search returns when several readings of one line exist. That reading is the longest run, then the longest blank run, as `Fences.FencedOf` computes.
- Sections.FencedSectionComplete: like `Fences.FencedComplete`, it states acceptance and a run at least as long, not equality with the shape's fence.
- Properties.HashLine: states the kind of the first token only, not the full token array.
- Properties.BareKeyBundled: states the first token only. The rest of the line is scanned on from the next character.
- The source's regular expressions have no `u` flag, so they run over UTF-16 code units, while a `string` here is a sequence of Unicode scalar values. The model agrees with them on text inside the Basic Multilingual Plane. A character outside it reaching the `\S` fallback is two one-unit tokens in the source and one `Invalid` token here.
- The document is given as its lines, without line terminators. Splitting text into lines belongs to the editor.

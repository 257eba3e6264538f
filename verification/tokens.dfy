/** Tokens of the Eno highlighter: a closed set of syntactic roles, each
    token one piece of a line. */
module Tokens {

  datatype Option<+T> = None | Some(value: T)

  /** One kind per syntactic role. The two rule tables name some roles with
      different scope strings; the roles themselves are the same. */
  datatype Kind =
    | Comment
    | Text                  // whitespace between the parts of a rule, and blanks no rule claims
    | FieldBegin            // dash run opening a multiline field (`block` in the bundled table)
    | FieldEnd              // dash run closing it
    | FieldName             // key of a multiline field
    | ItemMarker
    | ItemValue
    | SectionMarker         // `#` run
    | SectionName
    | SectionEscapeBegin    // backtick run before a fenced section name
    | SectionEscapeEnd
    | SectionTemplateMarker // `<` or `<<` after a section name
    | SectionTemplate
    | ContinuationMarker    // `|` or `\`
    | ContinuationValue
    | EmptyName             // a key with no separator (canonical table only)
    | ElementName           // key of a `:` field or of a `<` template reference
    | ElementOperator       // `:`
    | EntryName             // key of an `=` fieldset entry
    | EntryOperator         // `=`
    | Value                 // value after `:` or `=`
    | TemplateOperator      // `<` (or `<<` in the bundled table) after a key
    | TemplateName
    | KeyEscapeBegin        // backtick run before a fenced key
    | KeyEscapeEnd
    | Invalid               // one character no structural rule accepts
    | Content               // a raw line inside a multiline field

  datatype Token = Token(kind: Kind, text: string)

  /** The characters a token list covers, in order. */
  function Texts(ts: seq<Token>): string {
    if ts == [] then [] else ts[0].text + Texts(ts[1..])
  }

  lemma TextsCons(t: Token, ts: seq<Token>)
    ensures Texts([t] + ts) == t.text + Texts(ts)
  {
    assert ([t] + ts)[1..] == ts;
  }

  lemma Texts1(a: Token)
    ensures Texts([a]) == a.text
  {
    TextsCons(a, []);
  }

  lemma Texts2(a: Token, b: Token)
    ensures Texts([a, b]) == a.text + b.text
  {
    assert [a, b] == [a] + [b];
    TextsCons(a, [b]);
    Texts1(b);
  }

  lemma Texts3(a: Token, b: Token, c: Token)
    ensures Texts([a, b, c]) == a.text + b.text + c.text
  {
    assert [a, b, c] == [a] + [b, c];
    TextsCons(a, [b, c]);
    Texts2(b, c);
  }

  lemma Texts5(a: Token, b: Token, c: Token, d: Token, e: Token)
    ensures Texts([a, b, c, d, e]) == a.text + b.text + c.text + d.text + e.text
  {
    assert [a, b, c, d, e] == [a, b] + [c, d, e];
    TextsAppend([a, b], [c, d, e]);
    Texts2(a, b);
    Texts3(c, d, e);
  }

  lemma {:induction false} TextsAppend(a: seq<Token>, b: seq<Token>)
    ensures Texts(a + b) == Texts(a) + Texts(b)
  {
    if a != [] {
      assert (a + b)[0] == a[0];
      assert (a + b)[1..] == a[1..] + b;
      TextsAppend(a[1..], b);
    } else {
      assert a + b == b;
    }
  }

  /** Concatenation regroups freely. */
  lemma Assoc<T>(a: seq<T>, b: seq<T>, c: seq<T>)
    ensures (a + b) + c == a + (b + c)
  {}
}

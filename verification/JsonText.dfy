/** Bracketed text with string literals, as far as finding where an object ends needs it. The
    brackets of a pair need not match in kind: a value that mixes them is the parser's to refuse. */
module JsonText {
  /** A character of a literal: itself, or a backslash and any character. */
  datatype Letter = Plain(c: char) | Escaped(c: char)

  /** Text between brackets: single characters, string literals and nested brackets. */
  datatype Body =
    | Nothing
    | Char(c: char, rest: Body)
    | Literal(letters: seq<Letter>, rest: Body)
    | Nested(open: char, inner: Body, close: char, rest: Body)

  predicate Opens(c: char) { c == '{' || c == '[' }

  predicate Closes(c: char) { c == '}' || c == ']' }

  predicate Spelled(letters: seq<Letter>) {
    forall i :: 0 <= i < |letters| && letters[i].Plain? ==> letters[i].c != '\"' && letters[i].c != '\\'
  }

  predicate Formed(b: Body) {
    match b
    case Nothing => true
    case Char(c, rest) => c != '\"' && !Opens(c) && !Closes(c) && Formed(rest)
    case Literal(letters, rest) => Spelled(letters) && Formed(rest)
    case Nested(open, inner, close, rest) => Opens(open) && Formed(inner) && Closes(close) && Formed(rest)
  }

  function RenderLetter(l: Letter): string { if l.Plain? then [l.c] else ['\\', l.c] }

  function Spell(letters: seq<Letter>): string {
    if letters == [] then "" else RenderLetter(letters[0]) + Spell(letters[1..])
  }

  function Render(b: Body): string {
    match b
    case Nothing => ""
    case Char(c, rest) => [c] + Render(rest)
    case Literal(letters, rest) => "\"" + Spell(letters) + "\"" + Render(rest)
    case Nested(open, inner, close, rest) => [open] + Render(inner) + [close] + Render(rest)
  }

  /** The text of an object: its brace, a body and the bracket that closes it. */
  ghost predicate IsObject(text: string) {
    exists inner, close :: Formed(inner) && Closes(close) && text == ObjectText(inner, close)
  }

  function ObjectText(inner: Body, close: char): string { "{" + Render(inner) + [close] }

  // ---- the text of a body, and what follows it ----

  lemma NothingText()
    ensures Render(Nothing) == ""
  {
  }

  lemma CharText(c: char, more: Body, rest: string)
    ensures Render(Char(c, more)) + rest == [c] + (Render(more) + rest)
    ensures |Render(Char(c, more))| == 1 + |Render(more)|
  {
  }

  lemma LiteralText(letters: seq<Letter>, more: Body, rest: string)
    ensures Render(Literal(letters, more)) + rest == ['\"'] + (Spell(letters) + "\"" + (Render(more) + rest))
    ensures |Render(Literal(letters, more))| == |Spell(letters)| + 2 + |Render(more)|
  {
  }

  lemma NestedText(open: char, inner: Body, close: char, more: Body, rest: string)
    ensures Render(Nested(open, inner, close, more)) + rest ==
              [open] + (Render(inner) + ([close] + (Render(more) + rest)))
    ensures |Render(Nested(open, inner, close, more))| == |Render(inner)| + 2 + |Render(more)|
  {
  }

  lemma SpellText(letters: seq<Letter>, rest: string)
    requires letters != []
    ensures Spell(letters) + "\"" + rest == RenderLetter(letters[0]) + (Spell(letters[1..]) + "\"" + rest)
    ensures |Spell(letters)| == |RenderLetter(letters[0])| + |Spell(letters[1..])|
  {
    hide RenderLetter;
  }

  lemma ObjectSplit(inner: Body, close: char, rest: string)
    ensures ObjectText(inner, close) + rest == ['{'] + (Render(inner) + ([close] + rest))
    ensures |ObjectText(inner, close)| == |Render(inner)| + 2
  {
    hide Render;
  }
}

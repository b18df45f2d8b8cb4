/** The incremental trace parser: frame-to-process mappings out of a streamed JSON document.
    `parse` stands for parsing one complete event, `tailOk` for parsing what follows the event
    array. */
module TraceMappings {
  import opened Basics
  import opened JsonText

  const PREFIX_LIMIT := 4096
  const SAFE := 0x1F_FFFF_FFFF_FFFF

  datatype FrameRow = FrameRow(frame: Option<string>, processId: int)

  datatype TraceEvent = Frames(rows: seq<FrameRow>) | Deleted(frame: string) | Other

  type EventParser = string -> Option<TraceEvent>

  type Mappings = map<string, set<int>>

  datatype Trace = Trace(text: string, started: bool, done: bool, needComma: bool, hasEvent: bool, mappings: Mappings)

  // ---- characters ----

  predicate IsSpace(c: char) {
    || '\t' <= c <= '\r' || c == ' ' || c == '\U{00A0}' || c == '\U{1680}' || '\U{2000}' <= c <= '\U{200A}'
    || c == '\U{2028}' || c == '\U{2029}' || c == '\U{202F}' || c == '\U{205F}' || c == '\U{3000}' || c == '\U{FEFF}'
  }

  /** The white space and line terminators of ECMAScript, by code point. */
  lemma SpaceIs(c: char)
    ensures IsSpace(c) <==>
              || c as int in {9, 10, 11, 12, 13, 32, 160, 5760, 8232, 8233, 8239, 8287, 12288, 65279}
              || 8192 <= c as int <= 8202
  {
  }

  function TrimStart(s: string): (r: string)
    ensures |r| <= |s|
    ensures r != "" ==> !IsSpace(r[0])
  {
    if s != "" && IsSpace(s[0]) then TrimStart(s[1..]) else s
  }

  /** Length in UTF-16 code units. */
  function Units(s: string): nat {
    if s == "" then 0 else (if s[0] > '\U{FFFF}' then 2 else 1) + Units(s[1..])
  }

  /** Length in UTF-8 bytes. */
  function ByteLength(s: string): nat {
    if s == "" then 0
    else
      (if s[0] <= '\U{007F}' then 1 else if s[0] <= '\U{07FF}' then 2 else if s[0] <= '\U{FFFF}' then 3 else 4)
      + ByteLength(s[1..])
  }

  /** Characters beyond a limit. */
  ghost function Beyond(s: string, limit: char): set<int> { set i | 0 <= i < |s| && s[i] > limit }

  lemma BeyondLast(s: string, limit: char)
    requires s != ""
    ensures |Beyond(s, limit)| == |Beyond(s[..|s| - 1], limit)| + if s[|s| - 1] > limit then 1 else 0
  {
    var n := |s| - 1;
    var init := s[..n];
    assert forall i :: 0 <= i < n ==> init[i] == s[i];
    assert n !in Beyond(init, limit);
    assert Beyond(s, limit) == if s[n] > limit then Beyond(init, limit) + {n} else Beyond(init, limit);
  }

  lemma {:induction false} UnitsLast(s: string)
    requires s != ""
    ensures Units(s) == Units(s[..|s| - 1]) + if s[|s| - 1] > '\U{FFFF}' then 2 else 1
    decreases |s|
  {
    if |s| > 1 {
      UnitsLast(s[1..]);
      assert s[1..][..|s| - 2] == s[..|s| - 1][1..];
    }
  }

  lemma {:induction false} BytesLast(s: string)
    requires s != ""
    ensures
      var c := s[|s| - 1];
      && ByteLength(s) ==
           ByteLength(s[..|s| - 1]) + 1 + (if c > '\U{007F}' then 1 else 0) + (if c > '\U{07FF}' then 1 else 0)
           + (if c > '\U{FFFF}' then 1 else 0)
    decreases |s|
  {
    if |s| > 1 {
      BytesLast(s[1..]);
      assert s[1..][..|s| - 2] == s[..|s| - 1][1..];
    }
  }

  /** One code unit a character and a second one beyond the basic plane; one byte a character, and one
      more for each of the three limits it is beyond. */
  lemma {:induction false} Lengths(s: string)
    ensures Units(s) == |s| + |Beyond(s, '\U{FFFF}')|
    ensures ByteLength(s) == |s| + |Beyond(s, '\U{007F}')| + |Beyond(s, '\U{07FF}')| + |Beyond(s, '\U{FFFF}')|
    decreases |s|
  {
    hide Beyond;
    if s == "" {
      NoneBeyond(s);
    } else {
      Lengths(s[..|s| - 1]);
      UnitsLast(s);
      BytesLast(s);
      BeyondLast(s, '\U{007F}');
      BeyondLast(s, '\U{07FF}');
      BeyondLast(s, '\U{FFFF}');
    }
  }

  lemma NoneBeyond(s: string)
    requires s == ""
    ensures forall limit :: Beyond(s, limit) == {}
  {
  }

  // ---- the document head and one event ----

  /** Skips white space and one literal. */
  function Token(s: string, literal: string): Option<string> {
    var t := TrimStart(s);
    if literal <= t then Some(t[|literal|..]) else None
  }

  /** What follows the opening of the event array. */
  function Header(s: string): Option<string> {
    var a := Token(s, "{");
    if a.None? then None
    else
      var b := Token(a.value, "\"traceEvents\"");
      if b.None? then None
      else
        var c := Token(b.value, ":");
        if c.None? then None else Token(c.value, "[")
  }

  /** What one character does to the nesting depth; brackets inside strings do not count. */
  function Nesting(c: char, inString: bool): int {
    if inString then 0 else if c == '{' || c == '[' then 1 else if c == '}' || c == ']' then -1 else 0
  }

  /** Whether the next character is inside a string; an escaped quote does not end one. */
  predicate Quoted(c: char, inString: bool, escape: bool) {
    if inString then escape || c != '\"' else c == '\"'
  }

  predicate Escapes(c: char, inString: bool, escape: bool) { inString && !escape && c == '\\' }

  /** Length of the text up to the bracket that closes the outermost level. */
  function Scan(s: string, depth: int, inString: bool, escape: bool): (end: Option<nat>)
    ensures end.Some? ==> 0 < end.value <= |s|
  {
    if s == "" then None
    else if Nesting(s[0], inString) == -1 && depth == 1 then Some(1)
    else Shift(Scan(s[1..], depth + Nesting(s[0], inString), Quoted(s[0], inString, escape),
        Escapes(s[0], inString, escape)), 1)
  }

  function Shift(end: Option<nat>, skipped: nat): Option<nat> {
    if end.Some? then Some(end.value + skipped) else None
  }

  function EventEnd(s: string): (end: Option<nat>)
    ensures end.Some? ==> 0 < end.value <= |s|
  {
    Scan(s, 0, false, false)
  }

  // ---- the scan against the grammar ----

  lemma ScanOne(c: char, rest: string, depth: int, inString: bool, escape: bool)
    requires !(Nesting(c, inString) == -1 && depth == 1)
    ensures Scan([c] + rest, depth, inString, escape) ==
              Shift(Scan(rest, depth + Nesting(c, inString), Quoted(c, inString, escape),
                  Escapes(c, inString, escape)), 1)
  {
    assert ([c] + rest)[1..] == rest;
  }

  lemma ScanLetter(l: Letter, more: string, depth: int)
    requires l.Plain? ==> l.c != '\"' && l.c != '\\'
    ensures Scan(RenderLetter(l) + more, depth, true, false) ==
              Shift(Scan(more, depth, true, false), |RenderLetter(l)|)
  {
    hide Scan;
    if l.Plain? {
      ScanOne(l.c, more, depth, true, false);
    } else {
      assert RenderLetter(l) + more == ['\\'] + ([l.c] + more);
      ScanOne('\\', [l.c] + more, depth, true, false);
      ScanOne(l.c, more, depth, true, true);
    }
  }

  /** A literal is passed over, whatever it spells. */
  lemma {:induction false} ScanLiteral(letters: seq<Letter>, rest: string, depth: int)
    requires Spelled(letters)
    ensures Scan(Spell(letters) + "\"" + rest, depth, true, false) ==
              Shift(Scan(rest, depth, false, false), |Spell(letters)| + 1)
    decreases |letters|
  {
    hide Scan, RenderLetter;
    if letters == [] {
      assert Spell(letters) + "\"" + rest == ['\"'] + rest;
      ScanOne('\"', rest, depth, true, false);
    } else {
      SpellText(letters, rest);
      ScanLetter(letters[0], Spell(letters[1..]) + "\"" + rest, depth);
      ScanLiteral(letters[1..], rest, depth);
    }
  }

  /** So is everything between brackets. */
  lemma {:induction false} ScanBody(b: Body, rest: string, depth: int)
    requires Formed(b) && depth >= 1
    ensures Scan(Render(b) + rest, depth, false, false) == Shift(Scan(rest, depth, false, false), |Render(b)|)
    decreases b
  {
    hide Scan, Render;
    match b
    case Nothing =>
      NothingText();
      assert Render(b) + rest == rest;
    case Char(c, more) =>
      CharText(c, more, rest);
      ScanOne(c, Render(more) + rest, depth, false, false);
      ScanBody(more, rest, depth);
    case Literal(letters, more) =>
      var after := Render(more) + rest;
      LiteralText(letters, more, rest);
      ScanOne('\"', Spell(letters) + "\"" + after, depth, false, false);
      ScanLiteral(letters, after, depth);
      ScanBody(more, rest, depth);
    case Nested(open, inner, close, more) =>
      var after := Render(more) + rest;
      NestedText(open, inner, close, more, rest);
      ScanOne(open, Render(inner) + ([close] + after), depth, false, false);
      ScanBody(inner, [close] + after, depth + 1);
      ScanOne(close, after, depth + 1, false, false);
      ScanBody(more, rest, depth);
  }

  /** The end of an object is found, whatever follows it. */
  lemma ObjectEnd(inner: Body, close: char, rest: string)
    requires Formed(inner) && Closes(close)
    ensures EventEnd(ObjectText(inner, close) + rest) == Some(|ObjectText(inner, close)|)
  {
    hide Scan, ObjectText, Render;
    ObjectSplit(inner, close, rest);
    ScanOne('{', Render(inner) + ([close] + rest), 0, false, false);
    ScanBody(inner, [close] + rest, 1);
    ScanClose(close, rest);
  }

  lemma ScanClose(close: char, rest: string)
    requires Closes(close)
    ensures Scan([close] + rest, 1, false, false) == Some(1)
  {
  }

  /** Inside a string the scan goes on behind a literal. */
  lemma {:induction false} ReadLiteral(s: string, depth: int) returns (letters: seq<Letter>, rest: string)
    requires Scan(s, depth, true, false).Some?
    ensures Spelled(letters) && s == Spell(letters) + "\"" + rest
    ensures Scan(rest, depth, false, false).Some?
    decreases |s|
  {
    if s[0] == '\"' {
      letters, rest := [], s[1..];
    } else if s[0] == '\\' {
      var l := Escaped(s[1]);
      assert Scan(s[1..], depth, true, true).Some?;
      assert s[1..][1..] == s[2..];
      letters, rest := ReadLiteral(s[2..], depth);
      var all := [l] + letters;
      assert all[1..] == letters;
      assert s == RenderLetter(l) + s[2..];
      letters := all;
    } else {
      var l := Plain(s[0]);
      letters, rest := ReadLiteral(s[1..], depth);
      var all := [l] + letters;
      assert all[1..] == letters;
      assert s == RenderLetter(l) + s[1..];
      letters := all;
    }
  }

  /** Outside strings the text up to the bracket that closes the current level is a body. */
  lemma {:induction false} ReadBody(s: string, depth: int) returns (b: Body, close: char, rest: string)
    requires depth >= 1 && Scan(s, depth, false, false).Some?
    ensures Formed(b) && Closes(close) && s == Render(b) + ([close] + rest)
    ensures depth > 1 ==> Scan(rest, depth - 1, false, false).Some?
    decreases |s|
  {
    hide Render, Spell;
    assert s == [s[0]] + s[1..];
    if Closes(s[0]) {
      b, close, rest := Nothing, s[0], s[1..];
      NothingText();
    } else if s[0] == '\"' {
      var letters, after := ReadLiteral(s[1..], depth);
      var more, end, tail := ReadBody(after, depth);
      LiteralText(letters, more, [end] + tail);
      b, close, rest := Literal(letters, more), end, tail;
    } else if Opens(s[0]) {
      var inner, mid, after := ReadBody(s[1..], depth + 1);
      var more, end, tail := ReadBody(after, depth);
      NestedText(s[0], inner, mid, more, [end] + tail);
      b, close, rest := Nested(s[0], inner, mid, more), end, tail;
    } else {
      var more, end, tail := ReadBody(s[1..], depth);
      CharText(s[0], more, [end] + tail);
      b, close, rest := Char(s[0], more), end, tail;
    }
  }

  /** At a brace the scan finds an end exactly where an object ends. */
  lemma EventEndIff(s: string, n: nat)
    requires s != "" && s[0] == '{'
    ensures EventEnd(s) == Some(n) <==> n <= |s| && IsObject(s[..n])
  {
    if EventEnd(s).Some? {
      var inner, close, rest := ReadBody(s[1..], 1);
      assert s == ['{'] + s[1..];
      ObjectSplit(inner, close, rest);
      ObjectEnd(inner, close, rest);
      assert s[..EventEnd(s).value] == ObjectText(inner, close);
    }
    if n <= |s| && IsObject(s[..n]) {
      var inner, close :| Formed(inner) && Closes(close) && s[..n] == ObjectText(inner, close);
      ObjectEnd(inner, close, s[n..]);
      assert s == s[..n] + s[n..];
    }
  }

  // ---- mappings ----

  function AddRow(m: Mappings, row: FrameRow): Mappings {
    if row.frame.Some? && 0 < row.processId <= SAFE then
      m[row.frame.value := (if row.frame.value in m then m[row.frame.value] else {}) + {row.processId}]
    else m
  }

  function AddRows(m: Mappings, rows: seq<FrameRow>): Mappings
    decreases |rows|
  {
    if rows == [] then m else AddRows(AddRow(m, rows[0]), rows[1..])
  }

  function Apply(m: Mappings, e: TraceEvent): Mappings {
    match e
    case Frames(rows) => AddRows(m, rows)
    case Deleted(frame) => m - {frame}
    case Other => m
  }

  function Fold(m: Mappings, events: seq<TraceEvent>): Mappings
    decreases |events|
  {
    if events == [] then m else Fold(Apply(m, events[0]), events[1..])
  }

  // ---- pushing text ----

  /** The event loop of `push`. Without `bounded` it never gives up on an unfinished event, which
      is the reading the bounds are compared with. */
  function Loop(s: Trace, parse: EventParser, bounded: bool): Result<Trace>
    decreases |s.text|, 1
  {
    var text := TrimStart(s.text);
    if s.done then Ok(s)
    else if text == "" then Ok(s.(text := ""))
    else if text[0] == ']' then
      if !s.hasEvent || s.needComma then Ok(s.(text := text[1..], done := true)) else Err("observer-loss")
    else if !s.needComma then Item(s, parse, bounded, text)
    else if text[0] != ',' then Err("observer-loss")
    else Item(s, parse, bounded, TrimStart(text[1..]))
  }

  /** One turn at the start of an event, white space and comma already removed. */
  function Item(s: Trace, parse: EventParser, bounded: bool, body: string): Result<Trace>
    decreases |body|, 0
  {
    if body == "" then Ok(s.(text := "", needComma := false))
    else if body[0] != '{' then Err("observer-loss")
    else
      var end := EventEnd(body);
      if end.None? then
        if bounded && ByteLength(body) >= LINE then Err("observer-loss") else Ok(s.(text := body, needComma := false))
      else
        var event := parse(body[..end.value]);
        if event.None? then Err("observer-loss")
        else Loop(After(s, body[end.value..], event.value), parse, bounded)
  }

  function After(s: Trace, rest: string, event: TraceEvent): Trace {
    Trace(rest, s.started, false, true, true, Apply(s.mappings, event))
  }

  function Push(s: Trace, parse: EventParser, chunk: string, bounded: bool): Result<Trace> {
    var text := s.text + chunk;
    var rest := if s.started then Some(text) else Header(text);
    if rest.None? then
      if bounded && Units(text) >= PREFIX_LIMIT then Err("observer-loss") else Ok(s.(text := text))
    else if s.done && bounded && ByteLength(rest.value) >= LINE then Err("observer-loss")
    else Loop(s.(text := rest.value, started := true), parse, bounded)
  }

  const Empty := Trace("", false, false, false, false, map[])

  function PushAll(s: Trace, parse: EventParser, chunks: seq<string>, bounded: bool): Result<Trace>
    decreases |chunks|
  {
    if chunks == [] then Ok(s)
    else
      var r := Push(s, parse, chunks[0], bounded);
      if r.Err? then r else PushAll(r.value, parse, chunks[1..], bounded)
  }

  /** `end`: the array was closed and what follows it parses. */
  predicate Ends(s: Trace, tailOk: string -> bool) { s.started && s.done && tailOk(s.text) }

  /** The process of a frame, when it is unambiguous. */
  ghost predicate PidIs(s: Trace, frame: string, pid: int) { frame in s.mappings && s.mappings[frame] == {pid} }

  function Flat(chunks: seq<string>): string {
    if chunks == [] then "" else chunks[0] + Flat(chunks[1..])
  }

  predicate Sane(s: Trace) { (s.needComma ==> s.hasEvent) && (s.done ==> s.started) }

  // ---- appending text ----

  lemma {:induction false} TrimAppend(a: string, b: string)
    ensures TrimStart(a + b) == if TrimStart(a) == "" then TrimStart(b) else TrimStart(a) + b
    decreases |a|
  {
    if a == "" {
      assert a + b == b;
    } else if IsSpace(a[0]) {
      assert (a + b)[1..] == a[1..] + b;
      TrimAppend(a[1..], b);
    }
  }

  lemma TokenAppend(a: string, b: string, literal: string)
    requires literal != "" && Token(a, literal).Some?
    ensures Token(a + b, literal) == Some(Token(a, literal).value + b)
  {
    TrimAppend(a, b);
    var t := TrimStart(a);
    assert literal <= t + b && (t + b)[|literal|..] == t[|literal|..] + b;
  }

  lemma HeaderAppend(a: string, b: string)
    requires Header(a).Some?
    ensures Header(a + b) == Some(Header(a).value + b)
  {
    hide Token;
    TokenAppend(a, b, "{");
    var a1 := Token(a, "{").value;
    TokenAppend(a1, b, "\"traceEvents\"");
    var a2 := Token(a1, "\"traceEvents\"").value;
    TokenAppend(a2, b, ":");
    TokenAppend(Token(a2, ":").value, b, "[");
  }

  /** A value that is complete stays the same when more text arrives. */
  lemma {:induction false} ScanAppend(a: string, b: string, depth: int, inString: bool, escape: bool)
    requires Scan(a, depth, inString, escape).Some?
    ensures Scan(a + b, depth, inString, escape) == Scan(a, depth, inString, escape)
    decreases |a|
  {
    assert (a + b)[1..] == a[1..] + b;
    if !(Nesting(a[0], inString) == -1 && depth == 1) {
      ScanAppend(a[1..], b, depth + Nesting(a[0], inString), Quoted(a[0], inString, escape),
                 Escapes(a[0], inString, escape));
    }
  }

  /** The loop looks only at the text after leading white space. */
  lemma LoopTrim(s: Trace, parse: EventParser, text: string)
    requires !s.done && TrimStart(text) == TrimStart(s.text)
    ensures Loop(s.(text := text), parse, false) == Loop(s, parse, false)
  {
    ItemText(s, parse, text, TrimStart(text));
    if TrimStart(text) != "" {
      ItemText(s, parse, text, TrimStart(TrimStart(text)[1..]));
    }
  }

  /** The text field does not matter once the body was cut out of it. */
  lemma ItemText(s: Trace, parse: EventParser, text: string, body: string)
    ensures Item(s.(text := text), parse, false, body) == Item(s, parse, false, body)
  {
  }

  /** Resuming from a state with more text appended. */
  function Resume(r: Result<Trace>, parse: EventParser, b: string): Result<Trace> {
    if r.Err? then r
    else if r.value.done then Ok(r.value.(text := r.value.text + b))
    else Loop(r.value.(text := r.value.text + b), parse, false)
  }

  lemma {:induction false} ItemAppend(s: Trace, parse: EventParser, body: string, b: string)
    requires Sane(s) && s.started && !s.done && body != "" && TrimStart(body) == body
    ensures Item(s, parse, false, body + b) == Resume(Item(s, parse, false, body), parse, b)
    ensures Item(s, parse, false, body).Ok? ==> Sane(Item(s, parse, false, body).value)
    decreases |body|, 0
  {
    var whole := body + b;
    assert whole[0] == body[0];
    if body[0] == '{' {
      var end := EventEnd(body);
      if end.None? {
        TrimAppend(body, b);
        ItemText(s, parse, whole, whole);
        ItemComma(s.(text := whole), parse, whole);
      } else {
        ScanAppend(body, b, 0, false, false);
        assert whole[..end.value] == body[..end.value];
        assert whole[end.value..] == body[end.value..] + b;
        var event := parse(body[..end.value]);
        if event.Some? {
          LoopAppend(After(s, body[end.value..], event.value), parse, b);
        }
      }
    }
  }

  /** The comma flag is cleared before an item is read. */
  lemma ItemComma(s: Trace, parse: EventParser, body: string)
    ensures Item(s.(needComma := false), parse, false, body) == Item(s, parse, false, body)
  {
  }

  /** Running the loop, then again with more text, is running it once on all the text. */
  lemma {:induction false} LoopAppend(s: Trace, parse: EventParser, b: string)
    requires Sane(s) && s.started && !s.done
    ensures Loop(s.(text := s.text + b), parse, false) == Resume(Loop(s, parse, false), parse, b)
    ensures Loop(s, parse, false).Ok? ==> Sane(Loop(s, parse, false).value)
    decreases |s.text|, 1
  {
    TrimAppend(s.text, b);
    var text := TrimStart(s.text);
    if text == "" {
      assert "" + b == b;
      LoopTrim(s.(text := b), parse, s.text + b);
    } else if text[0] == ']' {
      assert (text + b)[1..] == text[1..] + b;
    } else if !s.needComma {
      ItemAppend(s, parse, text, b);
      ItemText(s, parse, s.text + b, text + b);
    } else if text[0] == ',' {
      assert (text + b)[1..] == text[1..] + b;
      TrimAppend(text[1..], b);
      var body := TrimStart(text[1..]);
      if body == "" {
        assert "" + b == b;
        CommaAppend(s, parse, b);
        ItemText(s, parse, s.text + b, TrimStart(b));
      } else {
        ItemAppend(s, parse, body, b);
        ItemText(s, parse, s.text + b, body + b);
      }
    }
  }

  /** A trailing comma: whether the next item arrives now or later, a closing bracket is refused. */
  lemma CommaAppend(s: Trace, parse: EventParser, b: string)
    requires !s.done && s.hasEvent
    ensures Item(s, parse, false, TrimStart(b)) == Loop(s.(text := b, needComma := false), parse, false)
  {
    ItemText(s, parse, b, TrimStart(b));
    ItemComma(s.(text := b), parse, TrimStart(b));
  }

  // ---- chunking ----

  lemma LoopStarted(s: Trace, parse: EventParser, bounded: bool)
    requires s.started
    ensures Loop(s, parse, bounded).Ok? ==> Loop(s, parse, bounded).value.started
    decreases |s.text|, 1
  {
    if TrimStart(s.text) != "" {
      ItemStarted(s, parse, bounded, TrimStart(s.text));
      ItemStarted(s, parse, bounded, TrimStart(TrimStart(s.text)[1..]));
    }
  }

  lemma ItemStarted(s: Trace, parse: EventParser, bounded: bool, body: string)
    requires s.started
    ensures Item(s, parse, bounded, body).Ok? ==> Item(s, parse, bounded, body).value.started
    decreases |body|, 0
  {
    if body != "" && EventEnd(body).Some? && parse(body[..EventEnd(body).value]).Some? {
      LoopStarted(After(s, body[EventEnd(body).value..], parse(body[..EventEnd(body).value]).value), parse, bounded);
    }
  }

  /** Pushing two pieces is pushing their concatenation. */
  lemma PushAppend(s: Trace, parse: EventParser, a: string, b: string)
    requires Sane(s)
    ensures
      var first := Push(s, parse, a, false);
      && (first.Ok? ==> Sane(first.value))
      && Push(s, parse, a + b, false) == if first.Err? then first else Push(first.value, parse, b, false)
  {
    var text := s.text + a;
    assert s.text + (a + b) == text + b;
    var rest := if s.started then Some(text) else Header(text);
    if rest.None? {
    } else {
      if !s.started {
        HeaderAppend(text, b);
      }
      if !s.done {
        var t := s.(text := rest.value, started := true);
        LoopAppend(t, parse, b);
        LoopStarted(t, parse, false);
      }
    }
  }

  // ---- the bounds ----

  /** The unread text is within the limit of its kind: document head, open event, or tail. */
  predicate Fits(t: Trace) {
    if t.started then ByteLength(t.text) < LINE else Units(t.text) < PREFIX_LIMIT
  }

  lemma LoopBounded(s: Trace, parse: EventParser)
    ensures
      var free := Loop(s, parse, false);
      && (Loop(s, parse, true).Ok? ==>
            Loop(s, parse, true) == free && (free.value.done || ByteLength(free.value.text) < LINE))
      && (free.Ok? && (free.value.done || ByteLength(free.value.text) < LINE) ==> Loop(s, parse, true) == free)
    decreases |s.text|, 1
  {
    if !s.done && TrimStart(s.text) != "" {
      ItemBounded(s, parse, TrimStart(s.text));
      ItemBounded(s, parse, TrimStart(TrimStart(s.text)[1..]));
    }
  }

  lemma ItemBounded(s: Trace, parse: EventParser, body: string)
    requires !s.done
    ensures
      var free := Item(s, parse, false, body);
      && (Item(s, parse, true, body).Ok? ==>
            Item(s, parse, true, body) == free && (free.value.done || ByteLength(free.value.text) < LINE))
      && (free.Ok? && (free.value.done || ByteLength(free.value.text) < LINE) ==> Item(s, parse, true, body) == free)
    decreases |body|, 0
  {
    if body != "" && EventEnd(body).Some? && parse(body[..EventEnd(body).value]).Some? {
      LoopBounded(After(s, body[EventEnd(body).value..], parse(body[..EventEnd(body).value]).value), parse);
    }
  }

  /** The bounds can only reject, and reject only when the unread text is over its limit. */
  lemma PushBounded(s: Trace, parse: EventParser, chunk: string)
    requires Sane(s)
    ensures
      var free := Push(s, parse, chunk, false);
      && (Push(s, parse, chunk, true).Ok? ==>
            Push(s, parse, chunk, true) == free && (free.value.done || Fits(free.value)))
      && (free.Ok? && Fits(free.value) ==> Push(s, parse, chunk, true) == free)
  {
    var text := s.text + chunk;
    var rest := if s.started then Some(text) else Header(text);
    if rest.Some? {
      LoopBounded(s.(text := rest.value, started := true), parse);
      LoopStarted(s.(text := rest.value, started := true), parse, false);
    }
  }

  /** What one push must leave behind: unread text within its limit, except for the tail in the
      push that closes the array. */
  predicate Passes(s: Trace, t: Trace) { Fits(t) || (t.done && !s.done) }

  /** One push is refused by the bounds exactly when it leaves too much behind. */
  lemma PushIff(s: Trace, parse: EventParser, chunk: string, t: Trace)
    requires Sane(s)
    ensures Push(s, parse, chunk, true) == Ok(t) <==> Push(s, parse, chunk, false) == Ok(t) && Passes(s, t)
  {
    PushBounded(s, parse, chunk);
    var text := s.text + chunk;
    var rest := if s.started then Some(text) else Header(text);
    if rest.Some? {
      var u := s.(text := rest.value, started := true);
      LoopBounded(u, parse);
      LoopStarted(u, parse, false);
    }
  }

  /** The unbounded reading of the first `k` pieces. */
  function Reached(s: Trace, parse: EventParser, chunks: seq<string>, k: nat): Result<Trace>
    requires k <= |chunks|
  {
    PushAll(s, parse, chunks[..k], false)
  }

  /** The push of piece `k` is readable and leaves no more unread than its limit. */
  predicate PassesAt(s: Trace, parse: EventParser, chunks: seq<string>, k: nat)
    requires k < |chunks|
  {
    var before, after := Reached(s, parse, chunks, k), Reached(s, parse, chunks, k + 1);
    before.Ok? && after.Ok? && Passes(before.value, after.value)
  }

  ghost predicate EachPasses(s: Trace, parse: EventParser, chunks: seq<string>) {
    forall k :: 0 <= k < |chunks| ==> PassesAt(s, parse, chunks, k)
  }

  lemma FirstReached(s: Trace, parse: EventParser, chunks: seq<string>)
    requires chunks != []
    ensures Reached(s, parse, chunks, 0) == Ok(s) && Reached(s, parse, chunks, 1) == Push(s, parse, chunks[0], false)
  {
    hide Push;
    var one := chunks[..1];
    assert one[0] == chunks[0] && one[1..] == [];
    assert PushAll(s, parse, one, false) ==
           var r := Push(s, parse, one[0], false); if r.Err? then r else PushAll(r.value, parse, one[1..], false);
  }

  lemma ReachedTail(s: Trace, parse: EventParser, chunks: seq<string>, k: nat)
    requires k < |chunks| && Push(s, parse, chunks[0], false).Ok?
    ensures Reached(s, parse, chunks, k + 1) == Reached(Push(s, parse, chunks[0], false).value, parse, chunks[1..], k)
  {
    hide Push;
    var some := chunks[..k + 1];
    assert some[0] == chunks[0] && some[1..] == chunks[1..][..k];
  }

  lemma PassesTail(s: Trace, parse: EventParser, chunks: seq<string>)
    requires chunks != [] && Push(s, parse, chunks[0], false).Ok?
    ensures
      var u := Push(s, parse, chunks[0], false).value;
      EachPasses(s, parse, chunks) <==> Passes(s, u) && EachPasses(u, parse, chunks[1..])
  {
    hide Push, Passes, Reached;
    var u, rest := Push(s, parse, chunks[0], false).value, chunks[1..];
    FirstReached(s, parse, chunks);
    assert PassesAt(s, parse, chunks, 0) <==> Passes(s, u);
    forall k | 0 < k < |chunks| ensures PassesAt(s, parse, chunks, k) <==> PassesAt(u, parse, rest, k - 1) {
      ReachedTail(s, parse, chunks, k - 1);
      ReachedTail(s, parse, chunks, k);
    }
    if EachPasses(s, parse, chunks) {
      forall k | 0 <= k < |rest| ensures PassesAt(u, parse, rest, k) {
        assert PassesAt(s, parse, chunks, k + 1);
      }
    }
  }

  /** A cutting is accepted exactly when the unbounded reading accepts its text and what is left
      unread after each of its own pushes is within its limit. */
  lemma {:induction false} CuttingIff(s: Trace, parse: EventParser, chunks: seq<string>, t: Trace)
    requires Sane(s)
    ensures PushAll(s, parse, chunks, true) == Ok(t) <==>
              PushAll(s, parse, chunks, false) == Ok(t) && EachPasses(s, parse, chunks)
    decreases |chunks|
  {
    hide Push, Passes, EachPasses;
    if chunks == [] {
      NonePasses(s, parse);
    } else {
      var first := Push(s, parse, chunks[0], false);
      if first.Ok? {
        PushIff(s, parse, chunks[0], first.value);
        PushAppend(s, parse, chunks[0], "");
        CuttingIff(first.value, parse, chunks[1..], t);
        PassesTail(s, parse, chunks);
      }
      if Push(s, parse, chunks[0], true).Ok? {
        PushIff(s, parse, chunks[0], Push(s, parse, chunks[0], true).value);
      }
    }
  }

  lemma NonePasses(s: Trace, parse: EventParser)
    ensures EachPasses(s, parse, [])
  {
  }

  /** After every prefix of the text, what the parser has not consumed is within its limit. */
  ghost predicate WithinBounds(s: Trace, parse: EventParser, text: string) {
    forall k :: 0 <= k <= |text| ==>
      Push(s, parse, text[..k], false).Ok? ==> Fits(Push(s, parse, text[..k], false).value)
  }

  lemma WithinTail(s: Trace, parse: EventParser, a: string, b: string)
    requires Sane(s) && WithinBounds(s, parse, a + b) && Push(s, parse, a, false).Ok?
    ensures WithinBounds(Push(s, parse, a, false).value, parse, b)
  {
    var t := Push(s, parse, a, false).value;
    forall k | 0 <= k <= |b| && Push(t, parse, b[..k], false).Ok? ensures Fits(Push(t, parse, b[..k], false).value) {
      PushAppend(s, parse, a, b[..k]);
      assert (a + b)[..|a| + k] == a + b[..k];
    }
  }

  /** Within the bounds every cutting gives the result of one unbounded reading; beyond them,
      whatever is accepted is still that result. */
  lemma {:induction false} ChunkingIndependence(s: Trace, parse: EventParser, chunks: seq<string>)
    requires Sane(s) && chunks != []
    ensures
      var whole := Push(s, parse, Flat(chunks), false);
      var cut := PushAll(s, parse, chunks, true);
      && (cut.Ok? ==> cut == whole)
      && (WithinBounds(s, parse, Flat(chunks)) && whole.Ok? ==> cut == whole)
    decreases |chunks|
  {
    var a, b := chunks[0], Flat(chunks[1..]);
    PushAppend(s, parse, a, b);
    PushBounded(s, parse, a);
    var first := Push(s, parse, a, false);
    if WithinBounds(s, parse, Flat(chunks)) && first.Ok? {
      assert Flat(chunks)[..|a|] == a;
      WithinTail(s, parse, a, b);
    }
    if |chunks| == 1 {
      assert b == "" && Flat(chunks) == a;
    } else if first.Ok? {
      ChunkingIndependence(first.value, parse, chunks[1..]);
    }
  }

  lemma {:induction false} ByteLengthAppend(a: string, b: string)
    ensures ByteLength(a + b) == ByteLength(a) + ByteLength(b)
    decreases |a|
  {
    if a == "" {
      assert a + b == b;
    } else {
      assert (a + b)[1..] == a[1..] + b;
      ByteLengthAppend(a[1..], b);
    }
  }

  /** Outside the bounds, cutting at the offending prefix is refused. */
  lemma CutRefused(s: Trace, parse: EventParser, a: string, b: string)
    requires Sane(s)
    requires Push(s, parse, a, false).Ok? && !Fits(Push(s, parse, a, false).value)
    ensures PushAll(s, parse, [a, b], true).Err?
  {
    PushBounded(s, parse, a);
    PushAppend(s, parse, a, b);
    var t := Push(s, parse, a, false).value;
    if Push(s, parse, a, true).Ok? {
      ByteLengthAppend(t.text, b);
      assert PushAll(s, parse, [a, b], true) == PushAll(t, parse, [b], true);
    }
  }

  lemma FlatPair(a: string, b: string)
    ensures Flat([a, b]) == a + b
  {
    assert [a, b][1..] == [b];
    assert Flat([b]) == b + Flat([b][1..]);
    assert Flat([b][1..]) == "";
  }

  ghost predicate EveryCut(s: Trace, parse: EventParser, text: string) {
    forall chunks: seq<string> :: chunks != [] && Flat(chunks) == text ==>
      PushAll(s, parse, chunks, true) == Push(s, parse, text, false)
  }

  /** Staying within the bounds is exactly what makes every cutting of a readable text succeed. */
  lemma BoundsExact(s: Trace, parse: EventParser, text: string)
    requires Sane(s) && Push(s, parse, text, false).Ok?
    ensures WithinBounds(s, parse, text) <==> EveryCut(s, parse, text)
  {
    forall chunks: seq<string> | WithinBounds(s, parse, text) && chunks != [] && Flat(chunks) == text
      ensures PushAll(s, parse, chunks, true) == Push(s, parse, text, false)
    {
      ChunkingIndependence(s, parse, chunks);
    }
    forall k | EveryCut(s, parse, text) && 0 <= k <= |text| && Push(s, parse, text[..k], false).Ok?
      ensures Fits(Push(s, parse, text[..k], false).value)
    {
      var a, b := text[..k], text[k..];
      FlatPair(a, b);
      assert a + b == text;
      assert PushAll(s, parse, [a, b], true) == Push(s, parse, text, false);
      if !Fits(Push(s, parse, a, false).value) {
        CutRefused(s, parse, a, b);
      }
    }
  }

  // ---- the reference: one document, its events in order ----

  predicate Blank(w: string) { forall i :: 0 <= i < |w| ==> IsSpace(w[i]) }

  /** What stands before an event: white space, and a comma unless it is the first. */
  ghost predicate Gap(g: string, first: bool) {
    if first then Blank(g) else exists w, v :: Blank(w) && Blank(v) && g == w + ("," + v)
  }

  /** White space, the literal, then `rest`. */
  ghost predicate Spaced(s: string, literal: string, rest: string) {
    exists w :: Blank(w) && s == w + (literal + rest)
  }

  /** The text is a comma-separated array body of `items`, then `]`, then `tail`. */
  ghost predicate Elements(text: string, items: seq<string>, tail: string, first: bool)
    decreases |items|
  {
    if items == [] then Spaced(text, "]", tail)
    else
      && IsObject(items[0])
      && exists gap, rest ::
           Gap(gap, first) && text == gap + (items[0] + rest) && Elements(rest, items[1..], tail, false)
  }

  /** The same, as the loop goes through it. */
  ghost predicate Walks(text: string, items: seq<string>, tail: string, first: bool)
    decreases |items|
  {
    var t := TrimStart(text);
    if items == [] then t == "]" + tail
    else
      && (first || (t != "" && t[0] == ','))
      && var body := if first then t else TrimStart(t[1..]);
         IsObject(items[0]) && items[0] <= body && Walks(body[|items[0]|..], items[1..], tail, false)
  }

  lemma {:induction false} Trimmed(s: string) returns (w: string)
    ensures Blank(w) && s == w + TrimStart(s)
    decreases |s|
  {
    hide IsSpace;
    w := "";
    if s != "" && IsSpace(s[0]) {
      var rest := Trimmed(s[1..]);
      w := [s[0]] + rest;
      assert s == [s[0]] + s[1..];
    }
  }

  lemma {:induction false} TrimBlank(w: string, r: string)
    requires Blank(w) && (r == "" || !IsSpace(r[0]))
    ensures TrimStart(w + r) == r
    decreases |w|
  {
    if w == "" {
      assert w + r == r;
    } else {
      assert (w + r)[1..] == w[1..] + r;
      TrimBlank(w[1..], r);
    }
  }

  /** The text before an event, and the event on. */
  lemma GapBefore(text: string, first: bool) returns (gap: string)
    requires
      var t := TrimStart(text);
      first || (t != "" && t[0] == ',')
    ensures
      var t := TrimStart(text);
      Gap(gap, first) && text == gap + if first then t else TrimStart(t[1..])
  {
    hide TrimStart;
    gap := Trimmed(text);
    if !first {
      var t := TrimStart(text);
      var v := Trimmed(t[1..]);
      assert t == "," + t[1..];
      CommaGap(gap, v);
      assert text == (gap + ("," + v)) + TrimStart(t[1..]);
      gap := gap + ("," + v);
    }
  }

  lemma CommaGap(w: string, v: string)
    requires Blank(w) && Blank(v)
    ensures Gap(w + ("," + v), false)
  {
  }

  lemma {:induction false} WalksElements(text: string, items: seq<string>, tail: string, first: bool)
    requires Walks(text, items, tail, first)
    ensures Elements(text, items, tail, first)
    decreases |items|
  {
    hide IsObject, TrimStart, Gap, Blank;
    if items == [] {
      var w := Trimmed(text);
    } else {
      var t := TrimStart(text);
      var gap := GapBefore(text, first);
      var body := if first then t else TrimStart(t[1..]);
      var rest := body[|items[0]|..];
      WalksElements(rest, items[1..], tail, false);
      assert body == items[0] + rest;
    }
  }

  lemma CommaText(w: string, v: string, body: string)
    ensures (w + ("," + v)) + body == w + ("," + (v + body))
    ensures ("," + (v + body))[0] == ',' && ("," + (v + body))[1..] == v + body
  {
  }

  lemma CommaStart()
    ensures !IsSpace(',')
  {
  }

  /** The loop comes past the text before an event. */
  lemma GapPassed(gap: string, body: string, first: bool)
    requires Gap(gap, first) && body != "" && !IsSpace(body[0])
    ensures
      var t := TrimStart(gap + body);
      if first then t == body else t != "" && t[0] == ',' && TrimStart(t[1..]) == body
  {
    hide TrimStart, IsSpace, Blank;
    if first {
      TrimBlank(gap, body);
    } else {
      var w, v :| Blank(w) && Blank(v) && gap == w + ("," + v);
      CommaText(w, v, body);
      CommaStart();
      TrimBlank(w, "," + (v + body));
      TrimBlank(v, body);
    }
  }

  lemma ObjectStart(item: string)
    requires IsObject(item)
    ensures item != "" && item[0] == '{' && !IsSpace(item[0])
  {
  }

  lemma {:induction false} ElementsWalk(text: string, items: seq<string>, tail: string, first: bool)
    requires Elements(text, items, tail, first)
    ensures Walks(text, items, tail, first)
    decreases |items|
  {
    hide TrimStart, IsObject, Gap, IsSpace, Blank;
    if items == [] {
      var w :| Blank(w) && text == w + ("]" + tail);
      BracketStart();
      TrimBlank(w, "]" + tail);
    } else {
      var item := items[0];
      var gap, rest :| Gap(gap, first) && text == gap + (item + rest) && Elements(rest, items[1..], tail, false);
      ElementsWalk(rest, items[1..], tail, false);
      ObjectStart(item);
      assert (item + rest)[0] == item[0] && (item + rest)[|item|..] == rest;
      GapPassed(gap, item + rest, first);
    }
  }

  lemma BracketStart()
    ensures !IsSpace(']')
  {
  }

  predicate AllParse(parse: EventParser, items: seq<string>) {
    forall i :: 0 <= i < |items| ==> parse(items[i]).Some?
  }

  function Events(parse: EventParser, items: seq<string>): seq<TraceEvent>
    requires AllParse(parse, items)
  {
    if items == [] then [] else [parse(items[0]).value] + Events(parse, items[1..])
  }

  lemma EventPrefix(item: string, body: string)
    requires IsObject(item) && item <= body
    ensures body != "" && body[0] == '{' && EventEnd(body) == Some(|item|) && body[..|item|] == item
  {
    assert item[0] == body[0];
    EventEndIff(body, |item|);
  }

  /** Between events: either none was read and no comma is due, or one was and it is. */
  predicate Boundary(s: Trace) { s.started && !s.done && s.hasEvent == s.needComma }

  lemma {:induction false} ElementsRead(s: Trace, parse: EventParser, items: seq<string>, tail: string)
    requires Boundary(s) && Walks(s.text, items, tail, !s.needComma) && AllParse(parse, items)
    ensures Loop(s, parse, false) ==
              Ok(Trace(tail, true, true, s.needComma || items != [], s.hasEvent
                  || items != [], Fold(s.mappings, Events(parse, items))))
    decreases |items|
  {
    hide TrimStart, Scan, ByteLength, Apply;
    if items == [] {
      assert TrimStart(s.text)[1..] == tail;
    } else {
      var t := TrimStart(s.text);
      var body := if s.needComma then TrimStart(t[1..]) else t;
      EventPrefix(items[0], body);
      var next := After(s, body[|items[0]|..], parse(items[0]).value);
      ElementsRead(next, parse, items[1..], tail);
      assert Events(parse, items)[1..] == Events(parse, items[1..]);
    }
  }

  lemma {:induction false} ReadElements(s: Trace, parse: EventParser) returns (items: seq<string>)
    requires Boundary(s) && Loop(s, parse, false).Ok? && Loop(s, parse, false).value.done
    ensures Walks(s.text, items, Loop(s, parse, false).value.text, !s.needComma) && AllParse(parse, items)
    decreases |s.text|
  {
    hide TrimStart, ByteLength, Apply;
    var t := TrimStart(s.text);
    if t[0] == ']' {
      items := [];
      assert t == "]" + t[1..];
    } else {
      var body := if s.needComma then TrimStart(t[1..]) else t;
      var end := EventEnd(body).value;
      var item := body[..end];
      EventEndIff(body, end);
      var next := After(s, body[end..], parse(item).value);
      var more := ReadElements(next, parse);
      items := [item] + more;
      assert items[1..] == more;
    }
  }

  /** The opening of the document, up to the bracket of the event array. */
  ghost predicate Opening(text: string, rest: string) {
    exists a, b, c ::
      Spaced(text, "{", a) && Spaced(a, "\"traceEvents\"", b) && Spaced(b, ":", c) && Spaced(c, "[", rest)
  }

  lemma TokenIff(s: string, literal: string, rest: string)
    requires literal != "" && !IsSpace(literal[0])
    ensures Token(s, literal) == Some(rest) <==> Spaced(s, literal, rest)
  {
    var t := TrimStart(s);
    if Token(s, literal) == Some(rest) {
      var w := Trimmed(s);
      assert t == literal + rest;
    }
    if w :| Blank(w) && s == w + (literal + rest) {
      TrimBlank(w, literal + rest);
      assert (literal + rest)[|literal|..] == rest;
    }
  }

  lemma HeaderIff(text: string, rest: string)
    ensures Header(text) == Some(rest) <==> Opening(text, rest)
  {
    hide Token, Spaced;
    forall s, r ensures Token(s, "{") == Some(r) <==> Spaced(s, "{", r) {
      TokenIff(s, "{", r);
    }
    forall s, r ensures Token(s, "\"traceEvents\"") == Some(r) <==> Spaced(s, "\"traceEvents\"", r) {
      TokenIff(s, "\"traceEvents\"", r);
    }
    forall s, r ensures Token(s, ":") == Some(r) <==> Spaced(s, ":", r) {
      TokenIff(s, ":", r);
    }
    forall s, r ensures Token(s, "[") == Some(r) <==> Spaced(s, "[", r) {
      TokenIff(s, "[", r);
    }
  }

  /** The document grammar: head, event array, tail. */
  ghost predicate Document(parse: EventParser, text: string, items: seq<string>, tail: string) {
    (exists rest :: Opening(text, rest) && Elements(rest, items, tail, true)) && AllParse(parse, items)
  }

  /** One reading closes the array exactly on documents, and leaves the fold of their events. */
  lemma DocumentIff(parse: EventParser, text: string, t: Trace)
    ensures
      Push(Empty, parse, text, false) == Ok(t) && t.started && t.done <==>
        exists items :: && Document(parse, text, items, t.text)
                        && t == Trace(t.text, true, true, items != [], items != [], Fold(map[], Events(parse, items)))
  {
    hide Header, Elements, Opening, Walks;
    assert "" + text == text;
    if Push(Empty, parse, text, false) == Ok(t) && t.started && t.done {
      var rest := Header(text).value;
      var s := Trace(rest, true, false, false, false, map[]);
      var items := ReadElements(s, parse);
      ElementsRead(s, parse, items, t.text);
      HeaderIff(text, rest);
      WalksElements(rest, items, t.text, true);
      assert Document(parse, text, items, t.text);
    }
    if items :| Document(parse, text, items, t.text)
                && t == Trace(t.text, true, true, items != [], items != [], Fold(map[], Events(parse, items))) {
      var rest :| Opening(text, rest) && Elements(rest, items, t.text, true);
      HeaderIff(text, rest);
      ElementsWalk(rest, items, t.text, true);
      ElementsRead(Trace(rest, true, false, false, false, map[]), parse, items, t.text);
    }
  }

  /** The parser accepts text, however it was cut within the bounds, exactly when it is a
      document with a parsable tail; its mappings are the fold of the document's events. */
  lemma TraceAccepted(parse: EventParser, tailOk: string -> bool, chunks: seq<string>, t: Trace)
    requires chunks != [] && WithinBounds(Empty, parse, Flat(chunks))
    ensures
      PushAll(Empty, parse, chunks, true) == Ok(t) && Ends(t, tailOk) <==>
        && tailOk(t.text)
        && exists items :: && Document(parse, Flat(chunks), items, t.text)
                           && t == Trace(t.text, true, true, items != [], items != [],
                                Fold(map[], Events(parse, items)))
  {
    ChunkingIndependence(Empty, parse, chunks);
    DocumentIff(parse, Flat(chunks), t);
  }

  // ---- what the fold of the events means ----

  ghost predicate Registers(e: TraceEvent, frame: string, pid: int) {
    e.Frames? && 0 < pid <= SAFE && FrameRow(Some(frame), pid) in e.rows
  }

  /** A process was registered for the frame, and the frame was not deleted after that. */
  ghost predicate Live(events: seq<TraceEvent>, frame: string, pid: int) {
    exists i :: 0 <= i < |events| && Registers(events[i], frame, pid) && Deleted(frame) !in events[i + 1..]
  }

  predicate Maps(m: Mappings, frame: string, pid: int) { frame in m && pid in m[frame] }

  lemma {:induction false} RowsMeaning(m: Mappings, rows: seq<FrameRow>, frame: string, pid: int)
    ensures Maps(AddRows(m, rows), frame, pid) <==>
              Maps(m, frame, pid) || (0 < pid <= SAFE && FrameRow(Some(frame), pid) in rows)
    decreases |rows|
  {
    if rows != [] {
      assert rows == [rows[0]] + rows[1..];
      RowsMeaning(AddRow(m, rows[0]), rows[1..], frame, pid);
    }
  }

  lemma {:induction false} FoldMeaning(m: Mappings, events: seq<TraceEvent>, frame: string, pid: int)
    ensures Maps(Fold(m, events), frame, pid) <==>
              (Maps(m, frame, pid) && Deleted(frame) !in events) || Live(events, frame, pid)
    decreases |events|
  {
    if events != [] {
      var e, rest := events[0], events[1..];
      assert events == [e] + rest;
      FoldMeaning(Apply(m, e), rest, frame, pid);
      if e.Frames? {
        RowsMeaning(m, e.rows, frame, pid);
      }
      LiveTail(events, frame, pid);
    }
  }

  lemma LiveTail(events: seq<TraceEvent>, frame: string, pid: int)
    requires events != []
    ensures Live(events, frame, pid) <==>
              (Registers(events[0], frame, pid) && Deleted(frame) !in events[1..]) || Live(events[1..], frame, pid)
  {
    var rest := events[1..];
    if i :| 0 <= i < |rest| && Registers(rest[i], frame, pid) && Deleted(frame) !in rest[i + 1..] {
      assert events[i + 1] == rest[i] && events[i + 2..] == rest[i + 1..];
    }
    if i :| 0 < i < |events| && Registers(events[i], frame, pid) && Deleted(frame) !in events[i + 1..] {
      assert events[i] == rest[i - 1] && events[i + 1..] == rest[i..];
    }
  }

  /** A frame resolves to a process exactly when that is the only one live for it. */
  lemma PidMeaning(t: Trace, events: seq<TraceEvent>, frame: string, pid: int)
    requires t.mappings == Fold(map[], events)
    ensures PidIs(t, frame, pid) <==> forall p :: Live(events, frame, p) <==> p == pid
  {
    forall p ensures Maps(t.mappings, frame, p) <==> Live(events, frame, p) {
      FoldMeaning(map[], events, frame, p);
    }
    if forall p :: Live(events, frame, p) <==> p == pid {
      assert Maps(t.mappings, frame, pid);
      forall p | p in t.mappings[frame] ensures p == pid {
        assert Maps(t.mappings, frame, p);
      }
    }
  }

  // ---- the parser object ----

  lemma ScanNext(text: string, i: nat, depth: int, inString: bool, escape: bool)
    requires i < |text|
    ensures Scan(text[i..], depth, inString, escape) ==
              if Nesting(text[i], inString) == -1 && depth == 1 then Some(1)
              else Shift(Scan(text[i + 1..], depth + Nesting(text[i], inString),
                              Quoted(text[i], inString, escape), Escapes(text[i], inString, escape)), 1)
  {
    assert text[i..][0] == text[i] && text[i..][1..] == text[i + 1..];
  }

  lemma ScanEnd(text: string, depth: int, inString: bool, escape: bool)
    ensures Scan(text[|text|..], depth, inString, escape) == None
  {
  }

  /** An event clears the comma flag and replaces the text it was cut from. */
  lemma ItemFlags(s: Trace, parse: EventParser, body: string)
    requires body != ""
    ensures Item(s.(text := body, needComma := false), parse, true, body) == Item(s, parse, true, body)
  {
  }

  /** The scan for the end of an event: of the object the text begins with, if one is complete. */
  method FindEnd(text: string) returns (end: Option<nat>)
    ensures end == EventEnd(text)
    ensures text != "" && text[0] == '{' ==> forall n: nat :: end == Some(n) <==> n <= |text| && IsObject(text[..n])
  {
    hide Scan, IsObject;
    if text != "" && text[0] == '{' {
      forall n: nat ensures EventEnd(text) == Some(n) <==> n <= |text| && IsObject(text[..n]) {
        EventEndIff(text, n);
      }
    }
    var depth, inString, escape := 0, false, false;
    assert text[0..] == text;
    for i := 0 to |text|
      invariant escape ==> inString
      invariant EventEnd(text) == Shift(Scan(text[i..], depth, inString, escape), i)
    {
      var c := text[i];
      ScanNext(text, i, depth, inString, escape);
      if inString {
        if escape {
          escape := false;
        } else if c == '\\' {
          escape := true;
        } else if c == '\"' {
          inString := false;
        }
      } else if c == '\"' {
        inString := true;
      } else if c == '{' || c == '[' {
        depth := depth + 1;
      } else if c == '}' || c == ']' {
        depth := depth - 1;
        if depth == 0 {
          return Some(i + 1);
        }
      }
    }
    ScanEnd(text, depth, inString, escape);
    return None;
  }

  class Parser {
    var text: string
    var started: bool
    var done: bool
    var needComma: bool
    var hasEvent: bool
    var mappings: Mappings

    ghost function State(): Trace
      reads this
    {
      Trace(text, started, done, needComma, hasEvent, mappings)
    }

    constructor ()
      ensures State() == Empty
    {
      text, started, done, needComma, hasEvent, mappings := "", false, false, false, false, map[];
    }

    /** Applies one parsed event. */
    method Register(event: TraceEvent)
      modifies this`mappings
      ensures mappings == Apply(old(mappings), event)
    {
      match event
      case Frames(rows) =>
        for i := 0 to |rows|
          invariant AddRows(mappings, rows[i..]) == AddRows(old(mappings), rows)
        {
          var row := rows[i];
          assert rows[i..][0] == row && rows[i..][1..] == rows[i + 1..];
          if row.frame.Some? && 0 < row.processId <= SAFE {
            var known := if row.frame.value in mappings then mappings[row.frame.value] else {};
            mappings := mappings[row.frame.value := known + {row.processId}];
          }
        }
      case Deleted(frame) => mappings := mappings - {frame};
      case Other =>
    }

    /** Reads one event off the front, or stops with a verdict. */
    method TakeEvent(parse: EventParser) returns (stopped: Option<bool>)
      requires text != "" && !needComma && !done
      modifies this
      ensures
        var goal := Item(old(State()), parse, true, old(text));
        match stopped
        case None => goal == Loop(State(), parse, true) && |text| < |old(text)| && !done
        case Some(ok) => goal.Ok? == ok && (ok ==> State() == goal.value)
    {
      hide TrimStart, ByteLength, Apply, Loop, Scan;
      if text[0] != '{' {
        return Some(false);
      }
      var end := FindEnd(text);
      if end.None? {
        return Some(ByteLength(text) < LINE);
      }
      var event := parse(text[..end.value]);
      if event.None? {
        return Some(false);
      }
      Register(event.value);
      text, needComma, hasEvent := text[end.value..], true, true;
      assert State() == After(old(State()), text, event.value);
      return None;
    }

    /** Consumes complete events out of the buffer. */
    method Drain(parse: EventParser) returns (ok: bool)
      modifies this
      ensures ok == Loop(old(State()), parse, true).Ok?
      ensures ok ==> State() == Loop(old(State()), parse, true).value
    {
      hide TrimStart, EventEnd, Apply, ByteLength;
      ghost var goal := Loop(State(), parse, true);
      while !done
        invariant Loop(State(), parse, true) == goal
        decreases !done, |text|
      {
        var trimmed := TrimStart(text);
        ghost var before := State();
        if trimmed == "" {
          text := "";
          return true;
        }
        if trimmed[0] == ']' {
          if hasEvent && !needComma {
            return false;
          }
          done, text := true, trimmed[1..];
          return true;
        }
        text := trimmed;
        if needComma {
          if text[0] != ',' {
            return false;
          }
          text := TrimStart(text[1..]);
          needComma := false;
          if text == "" {
            return true;
          }
        }
        assert State() == before.(text := text, needComma := false);
        ItemFlags(before, parse, text);
        var stopped := TakeEvent(parse);
        if stopped.Some? {
          return stopped.value;
        }
      }
      return true;
    }

    /** Adds a piece of the document. */
    method Feed(parse: EventParser, chunk: string) returns (ok: bool)
      modifies this
      ensures ok == Push(old(State()), parse, chunk, true).Ok?
      ensures ok ==> State() == Push(old(State()), parse, chunk, true).value
    {
      hide Loop, Units, ByteLength, Header;
      text := text + chunk;
      if !started {
        var rest := Header(text);
        if rest.None? {
          return Units(text) < PREFIX_LIMIT;
        }
        text, started := rest.value, true;
      }
      if done && ByteLength(text) >= LINE {
        return false;
      }
      assert State() == old(State()).(text := text, started := true);
      ok := Drain(parse);
    }

    method End(tailOk: string -> bool) returns (ok: bool)
      ensures ok == Ends(State(), tailOk)
    {
      ok := started && done && tailOk(text);
    }

    /** The process of a frame, when exactly one was seen since the frame was last deleted. */
    method Pid(frame: string) returns (pid: Option<int>)
      ensures forall p :: pid == Some(p) <==> PidIs(State(), frame, p)
    {
      if frame !in mappings || |mappings[frame]| != 1 {
        forall p: int ensures |{p}| == 1 {}
        return None;
      }
      var pids := mappings[frame];
      Single(pids);
      var p :| p in pids;
      return Some(p);
    }
  }

  lemma Inhabited(s: set<int>)
    ensures s == {} || exists p :: p in s
  {
    if forall p :: p !in s {
      assert s == {};
    }
  }

  lemma Single(s: set<int>)
    requires |s| == 1
    ensures exists p :: p in s && s == {p}
  {
    Inhabited(s);
    var p :| p in s;
    assert |s - {p}| == 0;
  }
}

// internal/cli/paste.go: the shell tokeniser a pasted command goes through.
module Shell {
  import opened Wrappers

  predicate IsBlank(c: char) { c == ' ' || c == '\t' || c == '\n' || c == '\r' }

  predicate IsBreak(c: char) { c == '\n' || c == '\r' }

  predicate IsQuote(c: char) { c == '\'' || c == '"' }

  function Flush(started: bool, cur: string): seq<string> { if started then [cur] else [] }

  // The tokens of the rest of a command, `cur` being the token under way.
  function Tokens(s: string, quote: Option<char>, started: bool, cur: string): seq<string>
    decreases |s|
  {
    if s == [] then Flush(started, cur)
    else
      var r := s[0];
      match quote
      case Some(q) =>
        if r == q then Tokens(s[1..], None, started, cur)
        else if q == '"' && r == '\\' && |s| > 1 then Tokens(s[2..], quote, true, cur + [s[1]])
        else Tokens(s[1..], quote, true, cur + [r])
      case None =>
        if IsQuote(r) then Tokens(s[1..], Some(r), true, cur)
        else if r == '\\' && |s| > 1 then
          if IsBreak(s[1]) then Tokens(s[2..], None, started, cur) else Tokens(s[2..], None, true, cur + [s[1]])
        else if IsBlank(r) then Flush(started, cur) + Tokens(s[1..], None, false, [])
        else if r == '^' && |s| > 1 && IsBreak(s[1]) then Tokens(s[2..], None, started, cur)
        else Tokens(s[1..], None, true, cur + [r])
  }

  // paste.go:142-193
  method ShellSplit(s: string) returns (tokens: seq<string>)
    ensures tokens == Tokens(s, None, false, [])
  {
    tokens := [];
    var cur: string := [];
    var quote: Option<char> := None;
    var started := false;
    var i := 0;
    while i < |s|
      invariant 0 <= i <= |s|
      invariant !started ==> cur == []
      invariant tokens + Tokens(s[i..], quote, started, cur) == Tokens(s, None, false, [])
      decreases |s| - i
    {
      var r := s[i];
      assert s[i..][0] == r && s[i..][1..] == s[i + 1..];
      if i + 1 < |s| { assert s[i..][1] == s[i + 1] && s[i..][2..] == s[i + 2..]; }
      if quote.Some? {
        if r == quote.value {
          quote := None;
        } else if quote.value == '"' && r == '\\' && i + 1 < |s| {
          i := i + 1;
          cur := cur + [s[i]];
          started := true;
        } else {
          cur := cur + [r];
          started := true;
        }
      } else if r == '\'' || r == '"' {
        quote := Some(r);
        started := true;
      } else if r == '\\' && i + 1 < |s| {
        i := i + 1;
        if s[i] != '\n' && s[i] != '\r' {
          cur := cur + [s[i]];
          started := true;
        }
      } else if r == ' ' || r == '\t' || r == '\n' || r == '\r' {
        if started {
          tokens := tokens + [cur];
          cur := [];
          started := false;
        }
      } else if r == '^' && i + 1 < |s| && (s[i + 1] == '\n' || s[i + 1] == '\r') {
        i := i + 1;
      } else {
        cur := cur + [r];
        started := true;
      }
      i := i + 1;
    }
    if started { tokens := tokens + [cur]; }
  }

  // ----- writing a command -----

  // A piece of a token as a shell user writes it: in double quotes, in single quotes, as it is, or one
  // character behind a backslash. A token is any such pieces side by side.
  datatype Segment = Double(text: string) | Single(text: string) | Bare(text: string) | Backslash(c: char)

  type Word = seq<Segment>

  // What stands between two tokens: blanks and line continuations.
  datatype Piece = Blank(c: char) | Continuation(mark: char, brk: char)

  datatype Item = Item(gap: seq<Piece>, word: Word)

  predicate Plain(c: char) { !IsQuote(c) && !IsBlank(c) && c != '\\' && c != '^' }

  predicate SegmentOk(g: Segment) {
    match g
    case Double(_) => true
    case Single(text) => '\'' !in text
    case Bare(text) => text != [] && forall c :: c in text ==> Plain(c)
    case Backslash(c) => !IsBreak(c)
  }

  predicate WordOk(w: Word) { w != [] && forall g :: g in w ==> SegmentOk(g) }

  predicate PieceOk(p: Piece) {
    match p
    case Blank(c) => IsBlank(c)
    case Continuation(mark, brk) => (mark == '\\' || mark == '^') && IsBreak(brk)
  }

  predicate HasBlank(gap: seq<Piece>) { exists p :: p in gap && p.Blank? }

  predicate ItemsOk(items: seq<Item>) {
    && (forall item :: item in items ==> WordOk(item.word) && forall p :: p in item.gap ==> PieceOk(p))
    && (forall i :: 0 < i < |items| ==> HasBlank(items[i].gap))
  }

  function Escaped(text: string): string {
    if text == [] then []
    else (if text[0] == '"' || text[0] == '\\' then ['\\', text[0]] else [text[0]]) + Escaped(text[1..])
  }

  function SegmentText(g: Segment): string { if g.Backslash? then [g.c] else g.text }

  function WrittenSegment(g: Segment): string {
    match g
    case Double(text) => ['"'] + Escaped(text) + ['"']
    case Single(text) => ['\''] + text + ['\'']
    case Bare(text) => text
    case Backslash(c) => ['\\', c]
  }

  function Text(w: Word): string {
    if w == [] then [] else SegmentText(w[0]) + Text(w[1..])
  }

  function Written(w: Word): string {
    if w == [] then [] else WrittenSegment(w[0]) + Written(w[1..])
  }

  function GapText(gap: seq<Piece>): string {
    if gap == [] then []
    else (match gap[0] case Blank(c) => [c] case Continuation(mark, brk) => [mark, brk]) + GapText(gap[1..])
  }

  function Command(items: seq<Item>): string {
    if items == [] then [] else GapText(items[0].gap) + Written(items[0].word) + Command(items[1..])
  }

  function Words(items: seq<Item>): seq<string> {
    if items == [] then [] else [Text(items[0].word)] + Words(items[1..])
  }

  lemma {:induction false} InDoubleQuotes(text: string, rest: string, cur: string)
    ensures Tokens(Escaped(text) + ['"'] + rest, Some('"'), true, cur) == Tokens(rest, None, true, cur + text)
    decreases text
  {
    var s := Escaped(text) + ['"'] + rest;
    if text == [] {
      assert s[1..] == rest && cur + text == cur;
    } else {
      var more := Escaped(text[1..]) + ['"'] + rest;
      if text[0] == '"' || text[0] == '\\' {
        assert s[2..] == more;
      } else {
        assert s[1..] == more;
      }
      InDoubleQuotes(text[1..], rest, cur + [text[0]]);
      assert cur + [text[0]] + text[1..] == cur + text;
    }
  }

  lemma {:induction false} InSingleQuotes(text: string, rest: string, cur: string)
    requires '\'' !in text
    ensures Tokens(text + ['\''] + rest, Some('\''), true, cur) == Tokens(rest, None, true, cur + text)
    decreases text
  {
    var s := text + ['\''] + rest;
    if text == [] {
      assert s[1..] == rest && cur + text == cur;
    } else {
      assert s[1..] == text[1..] + ['\''] + rest;
      InSingleQuotes(text[1..], rest, cur + [text[0]]);
      assert cur + [text[0]] + text[1..] == cur + text;
    }
  }

  lemma {:induction false} OutsideQuotes(text: string, rest: string, started: bool, cur: string)
    requires forall c :: c in text ==> Plain(c)
    ensures Tokens(text + rest, None, started, cur) == Tokens(rest, None, started || text != [], cur + text)
    decreases text
  {
    if text == [] {
      assert text + rest == rest && cur + text == cur;
    } else {
      assert (text + rest)[0] == text[0] && Plain(text[0]);
      assert (text + rest)[1..] == text[1..] + rest;
      OutsideQuotes(text[1..], rest, true, cur + [text[0]]);
      assert cur + [text[0]] + text[1..] == cur + text;
    }
  }

  lemma QuoteOpens(q: char, s: string, started: bool, cur: string)
    requires IsQuote(q)
    ensures Tokens([q] + s, None, started, cur) == Tokens(s, Some(q), true, cur)
  {
    assert ([q] + s)[1..] == s;
  }

  lemma DoubleRead(text: string, rest: string, started: bool, cur: string)
    ensures Tokens(WrittenSegment(Double(text)) + rest, None, started, cur) == Tokens(rest, None, true, cur + text)
  {
    var inner := Escaped(text) + ['"'] + rest;
    assert WrittenSegment(Double(text)) + rest == ['"'] + inner;
    QuoteOpens('"', inner, started, cur);
    InDoubleQuotes(text, rest, cur);
  }

  lemma SingleRead(text: string, rest: string, started: bool, cur: string)
    requires '\'' !in text
    ensures Tokens(WrittenSegment(Single(text)) + rest, None, started, cur) == Tokens(rest, None, true, cur + text)
  {
    var inner := text + ['\''] + rest;
    assert WrittenSegment(Single(text)) + rest == ['\''] + inner;
    QuoteOpens('\'', inner, started, cur);
    InSingleQuotes(text, rest, cur);
  }

  lemma BackslashRead(c: char, rest: string, started: bool, cur: string)
    requires !IsBreak(c)
    ensures Tokens(['\\', c] + rest, None, started, cur) == Tokens(rest, None, true, cur + [c])
  {
    assert (['\\', c] + rest)[2..] == rest;
  }

  lemma SegmentRead(g: Segment, rest: string, started: bool, cur: string)
    requires SegmentOk(g)
    ensures Tokens(WrittenSegment(g) + rest, None, started, cur) == Tokens(rest, None, true, cur + SegmentText(g))
  {
    match g
    case Double(text) => DoubleRead(text, rest, started, cur);
    case Single(text) => SingleRead(text, rest, started, cur);
    case Bare(text) => OutsideQuotes(text, rest, started, cur);
    case Backslash(c) => BackslashRead(c, rest, started, cur);
  }

  lemma {:induction false} WordRead(w: Word, rest: string, started: bool, cur: string)
    requires forall g :: g in w ==> SegmentOk(g)
    ensures Tokens(Written(w) + rest, None, started, cur) == Tokens(rest, None, started || w != [], cur + Text(w))
    decreases w
  {
    if w == [] {
      assert [] + rest == rest && cur + [] == cur;
    } else {
      var tail := Written(w[1..]) + rest;
      assert Written(w) + rest == WrittenSegment(w[0]) + tail;
      assert w[0] in w && forall g :: g in w[1..] ==> g in w;
      SegmentRead(w[0], tail, started, cur);
      WordRead(w[1..], rest, true, cur + SegmentText(w[0]));
      assert cur + SegmentText(w[0]) + Text(w[1..]) == cur + Text(w);
    }
  }

  lemma BlankRead(c: char, rest: string, started: bool, cur: string)
    requires IsBlank(c)
    ensures Tokens([c] + rest, None, started, cur) == Flush(started, cur) + Tokens(rest, None, false, [])
  {
    assert ([c] + rest)[1..] == rest;
  }

  lemma ContinuationRead(mark: char, brk: char, rest: string, started: bool, cur: string)
    requires (mark == '\\' || mark == '^') && IsBreak(brk)
    ensures Tokens([mark, brk] + rest, None, started, cur) == Tokens(rest, None, started, cur)
  {
    var s := [mark, brk] + rest;
    assert s[0] == mark && s[1] == brk && s[2..] == rest;
  }

  // A gap ends the token under way when it holds a blank; a continuation alone does not.
  lemma {:induction false} GapRead(gap: seq<Piece>, rest: string, started: bool, cur: string)
    requires (forall p :: p in gap ==> PieceOk(p)) && (!started ==> cur == [])
    ensures Tokens(GapText(gap) + rest, None, started, cur) ==
      if HasBlank(gap) then Flush(started, cur) + Tokens(rest, None, false, []) else Tokens(rest, None, started, cur)
    decreases gap
  {
    if gap == [] {
      assert GapText(gap) + rest == rest;
    } else {
      var tail := GapText(gap[1..]) + rest;
      assert gap[0] in gap && PieceOk(gap[0]);
      assert HasBlank(gap) == (gap[0].Blank? || HasBlank(gap[1..]));
      match gap[0]
      case Blank(c) =>
        assert GapText(gap) + rest == [c] + tail;
        BlankRead(c, tail, started, cur);
        GapRead(gap[1..], rest, false, []);
        assert Flush(false, []) == [];
      case Continuation(mark, brk) =>
        assert GapText(gap) + rest == [mark, brk] + tail;
        ContinuationRead(mark, brk, tail, started, cur);
        GapRead(gap[1..], rest, started, cur);
    }
  }

  lemma ItemRead(item: Item, rest: string, started: bool, cur: string)
    requires WordOk(item.word) && (forall p :: p in item.gap ==> PieceOk(p))
    requires if started then HasBlank(item.gap) else cur == []
    ensures Tokens(GapText(item.gap) + Written(item.word) + rest, None, started, cur)
         == Flush(started, cur) + Tokens(rest, None, true, Text(item.word))
  {
    var tail := Written(item.word) + rest;
    assert GapText(item.gap) + Written(item.word) + rest == GapText(item.gap) + tail;
    GapRead(item.gap, tail, started, cur);
    WordRead(item.word, rest, false, []);
    assert [] + Text(item.word) == Text(item.word);
  }

  lemma ItemsTail(items: seq<Item>)
    requires ItemsOk(items) && items != []
    ensures ItemsOk(items[1..]) && (items[1..] != [] ==> HasBlank(items[1..][0].gap))
    ensures WordOk(items[0].word) && forall p :: p in items[0].gap ==> PieceOk(p)
  {
    assert items[0] in items;
    assert forall i :: 0 <= i < |items[1..]| ==> items[1..][i] == items[i + 1];
  }

  lemma {:induction false} CommandRead(items: seq<Item>, started: bool, cur: string)
    requires ItemsOk(items)
    requires if started then items != [] ==> HasBlank(items[0].gap) else cur == []
    ensures Tokens(Command(items), None, started, cur) == Flush(started, cur) + Words(items)
    decreases items
  {
    if items != [] {
      ItemsTail(items);
      ItemRead(items[0], Command(items[1..]), started, cur);
      CommandRead(items[1..], true, Text(items[0].word));
      assert Words(items) == Flush(true, Text(items[0].word)) + Words(items[1..]);
    }
  }

  // However a list of tokens is written as a command -- each in any mixture of bare text, single and
  // double quotes and backslashes, with blanks and line continuations between them -- splitting gives
  // the list back.
  lemma SplitIsTheInverseOfWriting(items: seq<Item>)
    requires ItemsOk(items)
    ensures Tokens(Command(items), None, false, []) == Words(items)
  {
    CommandRead(items, false, []);
  }

  // In particular every list of tokens, empty tokens included, can be written.
  function DoubleQuoted(tokens: seq<string>): seq<Item> {
    if tokens == [] then [] else [Item([Blank(' ')], [Double(tokens[0])])] + DoubleQuoted(tokens[1..])
  }

  lemma {:induction false} EveryListCanBeWritten(tokens: seq<string>)
    ensures ItemsOk(DoubleQuoted(tokens)) && Words(DoubleQuoted(tokens)) == tokens
    ensures Tokens(Command(DoubleQuoted(tokens)), None, false, []) == tokens
  {
    if tokens != [] {
      EveryListCanBeWritten(tokens[1..]);
      var items, more := DoubleQuoted(tokens), DoubleQuoted(tokens[1..]);
      assert items[0].gap[0].Blank? && HasBlank(items[0].gap);
      assert Text([Double(tokens[0])]) == tokens[0] + Text([]) == tokens[0];
      assert more != [] ==> more[0].gap[0].Blank?;
    }
    SplitIsTheInverseOfWriting(DoubleQuoted(tokens));
  }
}

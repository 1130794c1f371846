/** Every list of nonempty words can be typed, bare or in quotes, and is read back. */
module CommandWords {
  import opened Prelude
  import opened CommandLine

  /** A word can be typed bare or in either kind of quotes, with backslashes where they are needed. */
  datatype Style = Bare | InDouble | InSingle

  function Mark(style: Style): char
    requires !style.Bare?
  {
    if style.InDouble? then '"' else '\''
  }

  /** A space, or one of the control characters from the tab to the carriage return. */
  predicate Blank(c: char) { c == ' ' || 9 <= c as int <= 13 }

  predicate NeedsBackslash(style: Style, c: char) {
    if style.Bare? then Blank(c) || c == '"' || c == '\'' || c == '\\' else c == Mark(style) || c == '\\'
  }

  function Escaped(style: Style, word: string): string {
    if word == "" then ""
    else (if NeedsBackslash(style, word[0]) then ['\\', word[0]] else [word[0]]) + Escaped(style, word[1..])
  }

  function Typed(style: Style, word: string): string {
    if style.Bare? then Escaped(style, word) else [Mark(style)] + Escaped(style, word) + [Mark(style)]
  }

  /** A word, how it is typed, and the blank typed behind it. */
  datatype Word = Word(text: string, style: Style, blank: char)

  function TypedLine(words: seq<Word>): string {
    if words == [] then ""
    else Typed(words[0].style, words[0].text) + [words[0].blank] + TypedLine(words[1..])
  }

  ghost predicate Separated(words: seq<Word>) { forall i :: 0 <= i < |words| ==> Blank(words[i].blank) }

  function NonEmpty(words: seq<Word>): seq<string> {
    if words == [] then [] else (if words[0].text == "" then [] else [words[0].text]) + NonEmpty(words[1..])
  }

  function ModeOf(style: Style): Mode { if style.Bare? then Plain else Quoted(Mark(style)) }

  lemma Behind(c: char, tail: string, rest: string)
    ensures var line := ([c] + tail) + rest; line != "" && line[0] == c && line[1..] == tail + rest
  {}

  lemma EscapedFirst(style: Style, word: string, rest: string)
    requires word != ""
    ensures var line := Escaped(style, word) + rest;
            var tail := Escaped(style, word[1..]) + rest;
            if NeedsBackslash(style, word[0])
            then |line| > 1 && line[0] == '\\' && line[1..] == [word[0]] + tail
            else line != "" && line[0] == word[0] && line[1..] == tail
  {
    var tail := Escaped(style, word[1..]);
    if NeedsBackslash(style, word[0]) {
      assert ['\\', word[0]] + tail == ['\\'] + ([word[0]] + tail);
      Behind('\\', [word[0]] + tail, rest);
      Reassociate([word[0]], tail, rest);
    } else {
      Behind(word[0], tail, rest);
    }
  }

  lemma LexOpens(mark: char, rest: string, tokens: seq<string>)
    requires IsQuote(mark)
    ensures Lex([mark] + rest, Plain, "", tokens) == Lex(rest, Quoted(mark), "", tokens)
  {
    assert ([mark] + rest)[1..] == rest;
  }

  lemma LexCloses(mark: char, rest: string, current: string, tokens: seq<string>)
    ensures Lex([mark] + rest, Quoted(mark), current, tokens) == Lex(rest, Plain, current, tokens)
  {
    assert ([mark] + rest)[1..] == rest;
  }

  lemma LexBlank(blank: char, rest: string, current: string, tokens: seq<string>)
    requires Blank(blank)
    ensures Lex([blank] + rest, Plain, current, tokens) == Lex(rest, Plain, "", Finish(current, tokens))
  {
    assert ([blank] + rest)[1..] == rest;
  }

  /** One character of a word, as typed. */
  lemma LexOne(style: Style, c: char, tail: string, line: string, current: string, tokens: seq<string>)
    requires if NeedsBackslash(style, c) then |line| > 1 && line[0] == '\\' && line[1..] == [c] + tail
             else line != "" && line[0] == c && line[1..] == tail
    ensures Lex(line, ModeOf(style), current, tokens) == Lex(tail, ModeOf(style), current + [c], tokens)
  {
    assert ([c] + tail)[1..] == tail;
  }

  lemma {:induction false} EscapedIsRead(style: Style, word: string, rest: string, current: string, tokens: seq<string>)
    ensures Lex(Escaped(style, word) + rest, ModeOf(style), current, tokens) ==
            Lex(rest, ModeOf(style), current + word, tokens)
    decreases |word|
  {
    if word == "" {
      assert "" + rest == rest && current + "" == current;
    } else {
      var (mode, tail) := (ModeOf(style), Escaped(style, word[1..]) + rest);
      calc {
        Lex(Escaped(style, word) + rest, mode, current, tokens);
        { EscapedFirst(style, word, rest); LexOne(style, word[0], tail, Escaped(style, word) + rest, current, tokens); }
        Lex(tail, mode, current + [word[0]], tokens);
        { EscapedIsRead(style, word[1..], rest, current + [word[0]], tokens); }
        Lex(rest, mode, (current + [word[0]]) + word[1..], tokens);
        { assert (current + [word[0]]) + word[1..] == current + word; }
        Lex(rest, mode, current + word, tokens);
      }
    }
  }

  lemma TypedIsRead(style: Style, word: string, rest: string, tokens: seq<string>)
    ensures Lex(Typed(style, word) + rest, Plain, "", tokens) == Lex(rest, Plain, word, tokens)
  {
    assert "" + word == word;
    if style.Bare? {
      EscapedIsRead(style, word, rest, "", tokens);
    } else {
      QuotedIsRead(style, word, rest, tokens);
    }
  }

  lemma QuotedParts(mark: string, inside: string, rest: string)
    ensures (mark + inside + mark) + rest == mark + (inside + (mark + rest))
  {}

  lemma QuotedIsRead(style: Style, word: string, rest: string, tokens: seq<string>)
    requires !style.Bare?
    ensures Lex(Typed(style, word) + rest, Plain, "", tokens) == Lex(rest, Plain, word, tokens)
  {
    var (mark, inside) := ([Mark(style)], Escaped(style, word));
    calc {
      Lex(Typed(style, word) + rest, Plain, "", tokens);
      { QuotedParts(mark, inside, rest); }
      Lex(mark + (inside + (mark + rest)), Plain, "", tokens);
      { LexOpens(Mark(style), inside + (mark + rest), tokens); }
      Lex(inside + (mark + rest), ModeOf(style), "", tokens);
      { EscapedIsRead(style, word, mark + rest, "", tokens); assert "" + word == word; }
      Lex(mark + rest, ModeOf(style), word, tokens);
      { LexCloses(Mark(style), rest, word, tokens); }
      Lex(rest, Plain, word, tokens);
    }
  }

  /** However each word is typed, the words come back in order, but for empty ones. */
  lemma {:induction false} TypedLineIsRead(words: seq<Word>, tokens: seq<string>)
    requires Separated(words)
    ensures Lex(TypedLine(words), Plain, "", tokens) == tokens + NonEmpty(words)
    decreases |words|
  {
    if words == [] {
      assert tokens + [] == tokens;
    } else {
      var (w, rest) := (words[0], TypedLine(words[1..]));
      calc {
        Lex(TypedLine(words), Plain, "", tokens);
        { Reassociate(Typed(w.style, w.text), [w.blank], rest); }
        Lex(Typed(w.style, w.text) + ([w.blank] + rest), Plain, "", tokens);
        { TypedIsRead(w.style, w.text, [w.blank] + rest, tokens); }
        Lex([w.blank] + rest, Plain, w.text, tokens);
        { LexBlank(w.blank, rest, w.text, tokens); }
        Lex(rest, Plain, "", Finish(w.text, tokens));
        { TypedLineIsRead(words[1..], Finish(w.text, tokens)); }
        Finish(w.text, tokens) + NonEmpty(words[1..]);
        { FirstWord(w.text, tokens, NonEmpty(words[1..])); }
        tokens + NonEmpty(words);
      }
    }
  }

  lemma FirstWord(word: string, tokens: seq<string>, more: seq<string>)
    ensures Finish(word, tokens) + more == tokens + ((if word == "" then [] else [word]) + more)
  {}

  /** Every command can be given every list of nonempty arguments, typed in any of the three ways. */
  lemma EveryArgumentArrives(words: seq<Word>)
    requires words != [] && Separated(words) && forall i :: 0 <= i < |words| ==> words[i].text != ""
    ensures ParseCommand("/" + TypedLine(words)).Some?
    ensures var args := ParseCommand("/" + TypedLine(words)).value.args;
            |args| == |words| - 1 && forall i :: 0 <= i < |args| ==> args[i] == words[i + 1].text
  {
    var line := "/" + TypedLine(words);
    assert line[1..] == TypedLine(words);
    TypedLineIsRead(words, []);
    AllNonEmpty(words);
    assert [] + NonEmpty(words) == NonEmpty(words);
  }

  lemma {:induction false} AllNonEmpty(words: seq<Word>)
    requires forall i :: 0 <= i < |words| ==> words[i].text != ""
    ensures |NonEmpty(words)| == |words| && forall i :: 0 <= i < |words| ==> NonEmpty(words)[i] == words[i].text
  {
    if words != [] {
      AllNonEmpty(words[1..]);
    }
  }
}

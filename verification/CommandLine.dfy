/** The command tokenizer, the quoting of dropped file paths, and when the two undo each other. */
module CommandLine {
  import opened Prelude

  predicate IsSpace(c: char) { c == ' ' || '\t' <= c <= '\r' }

  predicate IsQuote(c: char) { c == '"' || c == '\'' }

  datatype Mode = Plain | Quoted(q: char)

  function Finish(current: string, tokens: seq<string>): seq<string> {
    if current == "" then tokens else tokens + [current]
  }

  /** The tokenizer from any point of its scan. */
  function Lex(line: string, mode: Mode, current: string, tokens: seq<string>): seq<string>
    decreases |line|
  {
    if line == "" then Finish(current, tokens)
    else
      var (ch, rest) := (line[0], line[1..]);
      match mode
      case Quoted(q) =>
        if ch == q then Lex(rest, Plain, current, tokens)
        else if ch == '\\' && rest != "" && (rest[0] == q || rest[0] == '\\') then
          Lex(rest[1..], mode, current + [rest[0]], tokens)
        else Lex(rest, mode, current + [ch], tokens)
      case Plain =>
        if IsSpace(ch) then Lex(rest, Plain, "", Finish(current, tokens))
        else if IsQuote(ch) then Lex(rest, Quoted(ch), current, tokens)
        else if ch == '\\' && rest != "" && (IsSpace(rest[0]) || IsQuote(rest[0]) || rest[0] == '\\') then
          Lex(rest[1..], Plain, current + [rest[0]], tokens)
        else Lex(rest, Plain, current + [ch], tokens)
  }

  method Tokenize(line: string) returns (tokens: seq<string>)
    ensures tokens == Lex(line, Plain, "", [])
  {
    tokens := [];
    var current := "";
    var inQuotes, quoteChar := false, '\0';
    var i := 0;
    assert line[0..] == line;
    while i < |line|
      invariant i <= |line|
      invariant Lex(line, Plain, "", []) ==
                Lex(line[i..], if inQuotes then Quoted(quoteChar) else Plain, current, tokens)
    {
      var ch := line[i];
      ghost var left := line[i..];
      assert left[1..] == line[i + 1..];
      if inQuotes {
        if ch == quoteChar {
          inQuotes, quoteChar := false, '\0';
        } else if ch == '\\' && i + 1 < |line| && (line[i + 1] == quoteChar || line[i + 1] == '\\') {
          assert left[1..][1..] == line[i + 2..];
          current := current + [line[i + 1]];
          i := i + 1;
        } else {
          current := current + [ch];
        }
      } else if IsSpace(ch) {
        if current != "" {
          tokens := tokens + [current];
          current := "";
        }
      } else if IsQuote(ch) {
        inQuotes, quoteChar := true, ch;
      } else if ch == '\\' && i + 1 < |line| &&
                (IsSpace(line[i + 1]) || IsQuote(line[i + 1]) || line[i + 1] == '\\') {
        assert left[1..][1..] == line[i + 2..];
        current := current + [line[i + 1]];
        i := i + 1;
      } else {
        current := current + [ch];
      }
      i := i + 1;
    }
    if current != "" {
      tokens := tokens + [current];
    }
  }

  /** A path with its double quotes escaped. */
  function Body(p: string): string {
    if p == "" then "" else (if p[0] == '"' then "\\\"" else [p[0]]) + Body(p[1..])
  }

  function Quote(p: string): string { "\"" + Body(p) + "\"" }

  method QuoteForUpload(text: string) returns (result: string)
    ensures result == Quote(text)
  {
    result := "\"";
    for i := 0 to |text|
      invariant result + Body(text[i..]) == "\"" + Body(text)
    {
      assert text[i..][1..] == text[i + 1..];
      if text[i] == '"' {
        result := result + "\\\"";
      } else {
        result := result + [text[i]];
      }
    }
    result := result + "\"";
  }

  // ----- parse_command -----

  datatype ParsedCommand = ParsedCommand(name: string, args: seq<string>)

  function LowerChar(c: char): char {
    if 'A' <= c <= 'Z' then (c as int + 32) as char else c
  }

  function Lower(s: string): string {
    if s == "" then "" else [LowerChar(s[0])] + Lower(s[1..])
  }

  const Aliases: map<string, string> := map[
    "/j" := "/join", "/p" := "/part", "/w" := "/msg", "/afk" := "/away", "/q" := "/quit", "/h" := "/help",
    "/rh" := "/reload_help", "/st" := "/status", "/ns" := "/names", "/ver" := "/version", "/up" := "/upload",
    "/dl" := "/download", "/xfers" := "/transfers", "/ls" := "/files", "/dir" := "/downloads", "/ptt" := "/vmode"]

  function ParseCommand(line: string): Option<ParsedCommand> {
    if line == "" || line[0] != '/' then None
    else
      var tokens := Lex(line[1..], Plain, "", []);
      if tokens == [] then None
      else
        var name := Lower("/" + tokens[0]);
        Some(ParsedCommand(if name in Aliases then Aliases[name] else name, tokens[1..]))
  }

  /** Aliases are resolved once: no target is an alias itself. */
  lemma AliasesResolveOnce(name: string)
    requires name in Aliases
    ensures Aliases[name] !in Aliases
  {}

  lemma {:induction false} LowerIsLower(s: string)
    ensures |Lower(s)| == |s| && forall i :: 0 <= i < |s| ==> Lower(s)[i] == LowerChar(s[i])
  {
    if s != "" {
      LowerIsLower(s[1..]);
    }
  }

  predicate HasUpper(s: string) { exists i :: 0 <= i < |s| && 'A' <= s[i] <= 'Z' }

  lemma TargetsAreLower(name: string)
    requires name in Aliases
    ensures !HasUpper(Aliases[name])
  {}

  /** The name of a parsed command is in its final form: parsing it again changes nothing. */
  lemma ParsedNameIsFinal(line: string)
    requires ParseCommand(line).Some?
    ensures var name := ParseCommand(line).value.name; name !in Aliases && !HasUpper(name)
  {
    var typed := "/" + Lex(line[1..], Plain, "", [])[0];
    LowerIsLower(typed);
    if Lower(typed) in Aliases {
      AliasesResolveOnce(Lower(typed));
      TargetsAreLower(Lower(typed));
    }
  }

  /** Same length, upper-case letters by the letter 32 places on, all else as it was. */
  ghost predicate LowerCaseOf(lower: string, typed: string) {
    && |lower| == |typed|
    && forall i :: 0 <= i < |typed| ==>
         lower[i] as int == if 'A' <= typed[i] <= 'Z' then typed[i] as int + 32 else typed[i] as int
  }

  /** A line is a command exactly if it begins with a slash and a word can be read behind it. Its name is
      that word in lower case with the slash, or what this is an alias for; its arguments are the other
      words, whatever the name. */
  lemma ParsedExactly(line: string)
    ensures ParseCommand(line).Some? <==> line != "" && line[0] == '/' && Lex(line[1..], Plain, "", []) != []
    ensures ParseCommand(line).Some? ==>
              var (command, words) := (ParseCommand(line).value, Lex(line[1..], Plain, "", []));
              var lower := Lower("/" + words[0]);
              && command.args == words[1..] && LowerCaseOf(lower, "/" + words[0])
              && command.name == if lower in Aliases then Aliases[lower] else lower
  {
    if ParseCommand(line).Some? {
      LowerIsLower("/" + Lex(line[1..], Plain, "", [])[0]);
    }
  }

  function UploadCommand(path: string): string { "/upload " + Quote(path) }

  // ----- when quoting and tokenizing undo each other -----

  /** No backslash is followed by a backslash, a double quote or the end. */
  ghost predicate Safe(p: string) {
    forall i :: 0 <= i < |p| && p[i] == '\\' ==> i + 1 < |p| && p[i + 1] != '\\' && p[i + 1] != '"'
  }

  lemma SafeTail(p: string)
    requires p != ""
    ensures Safe(p) <==> Safe(p[1..]) && (p[0] == '\\' ==> |p| > 1 && p[1] != '\\' && p[1] != '"')
  {
    assert forall i :: 1 <= i < |p| ==> p[i] == p[1..][i - 1];
    if Safe(p[1..]) && (p[0] == '\\' ==> |p| > 1 && p[1] != '\\' && p[1] != '"') {
      forall i | 0 <= i < |p| && p[i] == '\\' ensures i + 1 < |p| && p[i + 1] != '\\' && p[i + 1] != '"' {
        if i > 0 {
          assert p[1..][i - 1] == '\\';
        }
      }
    }
    if Safe(p) {
      forall i | 0 <= i < |p[1..]| && p[1..][i] == '\\'
        ensures i + 1 < |p[1..]| && p[1..][i + 1] != '\\' && p[1..][i + 1] != '"' {
        assert p[i + 1] == '\\';
      }
    }
  }

  /** What is left to scan of a quoted path. */
  function Raw(p: string): string { Body(p) + "\"" }

  lemma RawStart(p: string)
    ensures Raw(p) != ""
    ensures p == "" ==> Raw(p) == "\""
    ensures p != "" && p[0] != '"' ==> Raw(p)[0] == p[0] && Raw(p)[1..] == Raw(p[1..])
    ensures p != "" && p[0] == '"' ==>
              Raw(p)[0] == '\\' && Raw(p)[1..] == "\"" + Raw(p[1..])
  {
    if p != "" && p[0] == '"' {
      assert Raw(p) == "\\" + ("\"" + Raw(p[1..]));
    } else if p != "" {
      assert Raw(p) == [p[0]] + Raw(p[1..]);
    }
  }

  /** A safe path comes out of the quotes as it went in. */
  lemma {:induction false} SafeComesBack(p: string, current: string, tokens: seq<string>)
    requires Safe(p)
    ensures Lex(Raw(p), Quoted('"'), current, tokens) == Finish(current + p, tokens)
    decreases |p|
  {
    RawStart(p);
    if p == "" {
      assert current + "" == current && Raw(p)[1..] == "";
    } else {
      SafeTail(p);
      RawStart(p[1..]);
      SafeComesBack(p[1..], current + [p[0]], tokens);
      assert current + [p[0]] + p[1..] == current + p;
      if p[0] == '"' {
        assert ("\"" + Raw(p[1..]))[1..] == Raw(p[1..]);
      }
    }
  }

  /** What the scanner does at the front of a quoted path: path characters eaten, characters
      appended to the token, the mode afterwards; a split ends the token first, and an escaped
      closing quote ends the scan. */
  datatype Move = Move(eaten: nat, out: string, mode: Mode, splits: bool, ends: bool)

  function Take(n: nat, out: string, mode: Mode): Move { Move(n, out, mode, false, false) }

  function FirstMove(p: string, mode: Mode): (m: Move)
    requires p != ""
    ensures 1 <= m.eaten <= |p|
  {
    match mode
    case Quoted(q) =>
      if q == '"' then
        if p[0] == '\\' && |p| == 1 then Move(1, "\"", mode, false, true)
        else if p[0] == '\\' && p[1] == '\\' then Take(2, "\\", mode)
        else if p[0] == '\\' && p[1] == '"' then Take(2, "\\", Plain)
        else Take(1, [p[0]], mode)
      else
        if p[0] == q then Take(1, "", Plain)
        else if p[0] == '"' then Take(1, "\\\"", mode)
        else if p[0] == '\\' && |p| > 1 && p[1] == '"' then Take(2, "\\\"", mode)
        else if p[0] == '\\' && |p| > 1 && (p[1] == q || p[1] == '\\') then Take(2, [p[1]], mode)
        else Take(1, [p[0]], mode)
    case Plain =>
      if IsSpace(p[0]) then Move(1, "", Plain, true, false)
      else if p[0] == '\'' then Take(1, "", Quoted('\''))
      else if p[0] == '\\' && |p| == 1 then Move(1, "\"", Plain, false, true)
      else if p[0] == '\\' && p[1] == '"' then Take(2, "\\", Quoted('"'))
      else if p[0] == '\\' && (IsSpace(p[1]) || p[1] == '\'' || p[1] == '\\') then Take(2, [p[1]], Plain)
      else Take(1, [p[0]], Plain)
  }

  function Moved(p: string, m: Move, current: string, tokens: seq<string>): seq<string>
    requires m.eaten <= |p|
  {
    if m.ends then Finish(current + m.out, tokens)
    else if m.splits then Lex(Raw(p[m.eaten..]), m.mode, "", Finish(current, tokens))
    else Lex(Raw(p[m.eaten..]), m.mode, current + m.out, tokens)
  }

  /** The characters waiting to be scanned, as far as one move looks. */
  lemma RawAhead(p: string)
    requires p != ""
    ensures p[0] == '"' ==>
              |Raw(p)| > 1 && Raw(p)[0] == '\\' && Raw(p)[1..][0] == '"' && Raw(p)[1..][1..] == Raw(p[1..])
    ensures p[0] != '"' ==> |Raw(p)| > 1 && Raw(p)[0] == p[0] && Raw(p)[1..] == Raw(p[1..])
    ensures |p| == 1 ==> Raw(p[1..]) == "\"" && Raw(p[1..])[1..] == ""
    ensures |p| > 1 && p[1] == '"' ==> Raw(p[1..])[0] == '\\' && Raw(p[1..])[1..] == "\"" + Raw(p[2..])
    ensures |p| > 1 && p[1] != '"' ==> Raw(p[1..])[0] == p[1] && Raw(p[1..])[1..] == Raw(p[2..])
  {
    RawStart(p);
    RawStart(p[1..]);
    if p[0] == '"' {
      assert ("\"" + Raw(p[1..]))[1..] == Raw(p[1..]);
    }
    if |p| > 1 {
      assert p[1..][1..] == p[2..];
    }
  }

  /** A quote character at the front: closes or opens, or is taken in single quotes. */
  lemma LexQuote(rest: string, mode: Mode, current: string, tokens: seq<string>)
    ensures Lex("\"" + rest, mode, current, tokens) ==
            match mode
            case Plain => Lex(rest, Quoted('"'), current, tokens)
            case Quoted(q) =>
              if q == '"' then Lex(rest, Plain, current, tokens) else Lex(rest, mode, current + "\"", tokens)
  {
    assert ("\"" + rest)[1..] == rest;
  }

  lemma MoveInDouble(p: string, current: string, tokens: seq<string>)
    requires p != ""
    ensures Lex(Raw(p), Quoted('"'), current, tokens) == Moved(p, FirstMove(p, Quoted('"')), current, tokens)
  {
    RawAhead(p);
    if p[0] == '\\' && |p| > 1 && p[1] == '"' {
      LexQuote(Raw(p[2..]), Quoted('"'), current + "\\", tokens);
    }
  }

  lemma MoveOutside(p: string, current: string, tokens: seq<string>)
    requires p != ""
    ensures Lex(Raw(p), Plain, current, tokens) == Moved(p, FirstMove(p, Plain), current, tokens)
  {
    RawAhead(p);
    assert current + "" == current;
    if p[0] == '\\' && |p| > 1 && p[1] == '"' {
      LexQuote(Raw(p[2..]), Plain, current + "\\", tokens);
    }
  }

  lemma MoveInSingle(p: string, current: string, tokens: seq<string>)
    requires p != ""
    ensures Lex(Raw(p), Quoted('\''), current, tokens) == Moved(p, FirstMove(p, Quoted('\'')), current, tokens)
  {
    if p[0] == '"' {
      QuoteInSingle(p, current, tokens);
    } else if p[0] == '\\' {
      EscapeInSingle(p, current, tokens);
    } else {
      RawAhead(p);
      assert current + "" == current;
    }
  }

  lemma QuoteInSingle(p: string, current: string, tokens: seq<string>)
    requires p != "" && p[0] == '"'
    ensures Lex(Raw(p), Quoted('\''), current, tokens) == Moved(p, FirstMove(p, Quoted('\'')), current, tokens)
  {
    RawAhead(p);
    assert current + "\\" + "\"" == current + "\\\"" && Raw(p)[1..] == "\"" + Raw(p[1..]);
    LexQuote(Raw(p[1..]), Quoted('\''), current + "\\", tokens);
  }

  lemma EscapeInSingle(p: string, current: string, tokens: seq<string>)
    requires p != "" && p[0] == '\\'
    ensures Lex(Raw(p), Quoted('\''), current, tokens) == Moved(p, FirstMove(p, Quoted('\'')), current, tokens)
  {
    RawAhead(p);
    if |p| > 1 && p[1] == '"' {
      assert current + "\\" + "\"" == current + "\\\"";
      LexQuote(Raw(p[2..]), Quoted('\''), current + "\\", tokens);
    }
  }

  // ----- an unsafe path is lost -----
  // Every character is given a weight, a single quote more than all the rest can be worth. Reading
  // a quoted path never adds weight outside single quotes, and on an unsafe path it loses some.

  function CharWeight(k: nat, c: char): nat {
    if c == '\'' then k else if c == '\\' then 2 else if c == '"' then 1 else 0
  }

  function Weight(k: nat, s: string): nat {
    if s == "" then 0 else CharWeight(k, s[0]) + Weight(k, s[1..])
  }

  lemma {:induction false} WeightConcat(k: nat, s: string, t: string)
    ensures Weight(k, s + t) == Weight(k, s) + Weight(k, t)
  {
    if s == "" {
      assert s + t == t;
    } else {
      WeightConcat(k, s[1..], t);
      assert (s + t)[1..] == s[1..] + t;
    }
  }

  function TokensWeight(k: nat, tokens: seq<string>): nat {
    if tokens == [] then 0 else TokensWeight(k, tokens[..|tokens| - 1]) + Weight(k, tokens[|tokens| - 1])
  }

  lemma FinishWeight(k: nat, current: string, tokens: seq<string>)
    ensures TokensWeight(k, Finish(current, tokens)) == TokensWeight(k, tokens) + Weight(k, current)
  {
    assert (tokens + [current])[..|tokens|] == tokens;
  }

  lemma WeightShort(k: nat, out: string, p: string)
    requires |out| <= 2
    ensures |out| == 1 ==> Weight(k, out) == CharWeight(k, out[0])
    ensures |out| == 2 ==> Weight(k, out) == CharWeight(k, out[0]) + CharWeight(k, out[1])
    ensures |p| > 1 ==> Weight(k, p) == CharWeight(k, p[0]) + CharWeight(k, p[1]) + Weight(k, p[2..])
  {
    if |out| > 1 {
      assert out[1..][1..] == "";
    }
    if |p| > 1 {
      assert p[1..][1..] == p[2..];
    }
  }

  ghost predicate Known(mode: Mode) { mode == Plain || mode == Quoted('"') || mode == Quoted('\'') }

  /** What single quotes may add to the weight of the path characters they take. */
  function Slack(p: string, mode: Mode): nat { if mode == Quoted('\'') then 2 * |p| + 1 else 0 }

  /** The weight of a quoted path with the slack of its mode, before and after one move. */
  function WeightBefore(k: nat, p: string, mode: Mode): nat { Weight(k, p) + Slack(p, mode) }

  function WeightAfter(k: nat, p: string, m: Move): nat
    requires m.eaten <= |p|
  {
    Weight(k, m.out) + Weight(k, p[m.eaten..]) + Slack(p[m.eaten..], m.mode)
  }

  lemma MoveShape(p: string, mode: Mode)
    requires p != "" && Known(mode)
    ensures var m := FirstMove(p, mode);
            && Known(m.mode)
            && (m.ends ==> p[m.eaten..] == "" && mode != Quoted('\'') && m.mode == mode)
            && (m.splits ==> m.out == "" && m.mode == Plain && mode == Plain)
  {}

  lemma WeightOutside(k: nat, p: string)
    requires p != "" && k > 2 * |p|
    ensures WeightAfter(k, p, FirstMove(p, Plain)) <= WeightBefore(k, p, Plain)
  {
    WeightShort(k, FirstMove(p, Plain).out, p);
  }

  lemma WeightInSingle(k: nat, p: string)
    requires p != "" && k > 2 * |p|
    ensures WeightAfter(k, p, FirstMove(p, Quoted('\''))) <= WeightBefore(k, p, Quoted('\''))
  {
    WeightShort(k, FirstMove(p, Quoted('\'')).out, p);
  }

  /** An unsafe path loses weight at once or stays unsafe. */
  lemma WeightInDouble(k: nat, p: string)
    requires p != ""
    ensures var (m, mode) := (FirstMove(p, Quoted('"')), Quoted('"'));
            var (before, after) := (WeightBefore(k, p, mode), WeightAfter(k, p, m));
            after <= before && (!Safe(p) ==> after < before || (m == Take(1, [p[0]], mode) && !Safe(p[1..])))
  {
    WeightShort(k, FirstMove(p, Quoted('"')).out, p);
    SafeTail(p);
  }

  /** One move, with the slack of what follows it, adds no weight. */
  lemma MoveWeight(k: nat, p: string, mode: Mode)
    requires p != "" && Known(mode) && k > 2 * |p|
    ensures WeightAfter(k, p, FirstMove(p, mode)) <= WeightBefore(k, p, mode)
  {
    if mode == Plain {
      WeightOutside(k, p);
    } else if mode == Quoted('"') {
      WeightInDouble(k, p);
    } else {
      WeightInSingle(k, p);
    }
  }

  function TotalAfter(k: nat, p: string, mode: Mode, current: string, tokens: seq<string>): nat {
    TokensWeight(k, Lex(Raw(p), mode, current, tokens))
  }

  lemma LastQuote(mode: Mode, current: string, tokens: seq<string>)
    requires Known(mode)
    ensures Lex(Raw(""), mode, current, tokens) ==
            Finish(if mode == Quoted('\'') then current + "\"" else current, tokens)
  {
    assert Raw("") == "\"" + "";
    LexQuote("", mode, current, tokens);
  }

  lemma AfterEnd(k: nat, mode: Mode, current: string, tokens: seq<string>)
    requires Known(mode)
    ensures TotalAfter(k, "", mode, current, tokens) <= TokensWeight(k, tokens) + Weight(k, current) + Slack("", mode)
  {
    LastQuote(mode, current, tokens);
    WeightConcat(k, current, "\"");
    WeightShort(k, "\"", "");
    FinishWeight(k, current, tokens);
    FinishWeight(k, current + "\"", tokens);
  }

  lemma LexMoves(p: string, mode: Mode, current: string, tokens: seq<string>)
    requires p != "" && Known(mode)
    ensures Lex(Raw(p), mode, current, tokens) == Moved(p, FirstMove(p, mode), current, tokens)
  {
    if mode == Plain {
      MoveOutside(p, current, tokens);
    } else if mode == Quoted('"') {
      MoveInDouble(p, current, tokens);
    } else {
      MoveInSingle(p, current, tokens);
    }
  }

  lemma {:induction false} ScanWeight(k: nat, p: string, mode: Mode, current: string, tokens: seq<string>)
    requires Known(mode) && k > 2 * |p|
    ensures TotalAfter(k, p, mode, current, tokens)
            <= TokensWeight(k, tokens) + Weight(k, current) + Weight(k, p) + Slack(p, mode)
    ensures mode == Quoted('"') && !Safe(p) ==>
              TotalAfter(k, p, mode, current, tokens) < TokensWeight(k, tokens) + Weight(k, current) + Weight(k, p)
    decreases |p|
  {
    if p == "" {
      AfterEnd(k, mode, current, tokens);
    } else {
      var m := FirstMove(p, mode);
      LexMoves(p, mode, current, tokens);
      MoveShape(p, mode);
      MoveWeight(k, p, mode);
      if mode == Quoted('"') {
        WeightInDouble(k, p);
      }
      WeightConcat(k, current, m.out);
      if m.ends {
        FinishWeight(k, current + m.out, tokens);
      } else if m.splits {
        FinishWeight(k, current, tokens);
        ScanWeight(k, p[m.eaten..], m.mode, "", Finish(current, tokens));
      } else {
        ScanWeight(k, p[m.eaten..], m.mode, current + m.out, tokens);
      }
    }
  }

  /** The scan of the command word, up to the opening quote of the path. */
  lemma {:induction false} LexWord(word: string, rest: string, current: string)
    requires forall i :: 0 <= i < |word| ==> 'a' <= word[i] <= 'z'
    ensures Lex(word + rest, Plain, current, []) == Lex(rest, Plain, current + word, [])
    decreases |word|
  {
    if word == "" {
      assert "" + rest == rest && current + "" == current;
    } else {
      assert (word + rest)[1..] == word[1..] + rest;
      LexWord(word[1..], rest, current + [word[0]]);
      assert current + [word[0]] + word[1..] == current + word;
    }
  }

  lemma UploadTokens(path: string)
    ensures Lex(UploadCommand(path)[1..], Plain, "", []) == Lex(Raw(path), Quoted('"'), "", ["upload"])
  {
    var quoted := "\"" + Raw(path);
    assert Quote(path) == quoted;
    assert UploadCommand(path)[1..] == "upload" + (" " + quoted);
    LexWord("upload", " " + quoted, "");
    assert (" " + quoted)[1..] == quoted && quoted[1..] == Raw(path);
    assert "" + "upload" == "upload" && [] + ["upload"] == ["upload"];
    assert Lex("upload" + (" " + quoted), Plain, "", []) == Lex(" " + quoted, Plain, "upload", []);
    assert Lex(" " + quoted, Plain, "upload", []) == Lex(quoted, Plain, "", ["upload"]);
  }

  lemma LowerOfLower(s: string)
    requires forall i :: 0 <= i < |s| ==> !('A' <= s[i] <= 'Z')
    ensures Lower(s) == s
  {
    if s != "" {
      LowerOfLower(s[1..]);
    }
  }

  lemma UploadIsFinal()
    ensures Lower("/" + "upload") == "/upload" && "/upload" !in Aliases
  {
    assert "/" + "upload" == "/upload";
    LowerOfLower("/upload");
  }

  lemma ParsedAsUpload(line: string, tokens: seq<string>)
    requires line != "" && line[0] == '/' && tokens == Lex(line[1..], Plain, "", [])
    requires tokens != [] && tokens[0] == "upload"
    ensures ParseCommand(line) == Some(ParsedCommand("/upload", tokens[1..]))
  {
    UploadIsFinal();
  }

  lemma {:induction false} TokensStart(line: string, mode: Mode, current: string, tokens: seq<string>)
    ensures tokens <= Lex(line, mode, current, tokens)
    decreases |line|
  {
    if line != "" {
      var (ch, rest) := (line[0], line[1..]);
      TokensStart(rest, Plain, "", Finish(current, tokens));
      TokensStart(rest, Plain, current, tokens);
      TokensStart(rest, Plain, current + [ch], tokens);
      TokensStart(rest, mode, current + [ch], tokens);
      TokensStart(rest, Quoted(ch), current, tokens);
      if rest != "" {
        TokensStart(rest[1..], mode, current + [rest[0]], tokens);
      }
    }
  }

  lemma UploadParsed(path: string)
    ensures ["upload"] <= Lex(Raw(path), Quoted('"'), "", ["upload"])
    ensures ParseCommand(UploadCommand(path)) ==
            Some(ParsedCommand("/upload", Lex(Raw(path), Quoted('"'), "", ["upload"])[1..]))
  {
    var tokens := Lex(Raw(path), Quoted('"'), "", ["upload"]);
    UploadTokens(path);
    TokensStart(Raw(path), Quoted('"'), "", ["upload"]);
    assert tokens[0] == ["upload"][0];
    ParsedAsUpload(UploadCommand(path), tokens);
  }

  lemma SafeArrives(path: string)
    requires path != "" && Safe(path)
    ensures Lex(Raw(path), Quoted('"'), "", ["upload"]) == ["upload", path]
  {
    SafeComesBack(path, "", ["upload"]);
    assert "" + path == path;
  }

  lemma UnsafeIsLost(path: string)
    requires path == "" || !Safe(path)
    ensures Lex(Raw(path), Quoted('"'), "", ["upload"]) != ["upload", path]
  {
    var k := 2 * |path| + 1;
    if path == "" {
      RawStart("");
      assert Raw("")[1..] == "";
    } else {
      ScanWeight(k, path, Quoted('"'), "", ["upload"]);
      assert ["upload", path][..1] == ["upload"];
    }
  }

  /** Dropping a file yields a command with exactly that path as its argument if and only if the
      path is nonempty and no backslash in it precedes a backslash, a double quote or the end. */
  lemma UploadRoundTrip(path: string)
    ensures ParseCommand(UploadCommand(path)) == Some(ParsedCommand("/upload", [path])) <==> path != "" && Safe(path)
  {
    UploadParsed(path);
    var tokens := Lex(Raw(path), Quoted('"'), "", ["upload"]);
    assert tokens[1..] == [path] <==> tokens == ["upload", path] by {
      assert tokens == ["upload"] + tokens[1..];
    }
    if path != "" && Safe(path) {
      SafeArrives(path);
    } else {
      UnsafeIsLost(path);
    }
  }

  /** A network path is not safe: its leading backslashes are merged. */
  lemma NetworkPathIsMangled()
    ensures ParseCommand(UploadCommand("\\\\srv")) != Some(ParsedCommand("/upload", ["\\\\srv"]))
  {
    var p := "\\\\srv";
    UploadRoundTrip(p);
    assert p[0] == '\\' && p[1] == '\\';
  }
}

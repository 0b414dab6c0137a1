/** Splitting a script into statements without breaking quoted strings or dollar-quoted blocks. */
module SqlSplitter {
  import opened Sequences
  import opened SqlTokens

  // ---------- What the splitter computes ----------

  /** What a token leaves in the statement: a line comment leaves its newline, a block comment nothing. */
  function Emit(t: Token): string
    requires !t.Semicolon?
  {
    match t
    case LineComment(_, closed) => if closed then "\n" else ""
    case BlockComment(_, _) => ""
    case _ => Print(t)
  }

  function StripLeft(cls: Classes, s: string): string {
    if s != "" && cls.space(s[0]) then StripLeft(cls, s[1..]) else s
  }

  function StripRight(cls: Classes, s: string): string {
    if s != "" && cls.space(s[|s| - 1]) then StripRight(cls, s[..|s| - 1]) else s
  }

  function Strip(cls: Classes, s: string): string {
    StripRight(cls, StripLeft(cls, s))
  }

  /** The statement that a piece of text makes, if it is not blank. */
  function Statement(cls: Classes, piece: string): seq<string> {
    if Strip(cls, piece) == "" then [] else [Strip(cls, piece)]
  }

  /** The pieces of text between the top-level semicolons; `buffer` is what the first piece already holds. */
  function Pieces(tokens: seq<Token>, buffer: string): (pieces: seq<string>)
    ensures pieces != []
  {
    if tokens == [] then [buffer]
    else if tokens[0].Semicolon? then [buffer] + Pieces(tokens[1..], "")
    else Pieces(tokens[1..], buffer + Emit(tokens[0]))
  }

  function Statements(cls: Classes, pieces: seq<string>): seq<string> {
    if pieces == [] then [] else Statement(cls, pieces[0]) + Statements(cls, pieces[1..])
  }

  /** The trimmed non-blank pieces between the top-level semicolons. */
  function Split(cls: Classes, text: string): seq<string> {
    Statements(cls, Pieces(Lex(cls, text), ""))
  }

  // ---------- The loop ----------

  /** At most one of the source's four flags is set; each value names the one that is. */
  datatype Mode = Top | InLine | InBlock | InQuote(q: char) | InDollar(tag: string)

  /** What the open token still emits when the text goes on with `s`, and the text after it. */
  function Tail(mode: Mode, s: string): (string, string)
    requires mode.InDollar? ==> mode.tag != ""
  {
    match mode
    case Top => ("", s)
    case InLine => var n := Find(s, "\n"); if n < |s| then ("\n", s[n + 1..]) else ("", "")
    case InBlock => var n := Find(s, "*/"); if n < |s| then ("", s[n + 2..]) else ("", "")
    case InQuote(q) => var n := QuoteEnd(s, q); if n < |s| then (s[..n + 1], s[n + 1..]) else (s, "")
    case InDollar(tag) =>
      var n := Find(s, tag);
      if n < |s| then (s[..n] + tag, s[n + |tag|..]) else (s, "")
  }

  /** What the rest of the loop will add to the statements. */
  ghost function Outstanding(cls: Classes, mode: Mode, buffer: string, s: string): seq<string>
    requires mode.InDollar? ==> mode.tag != ""
  {
    Statements(cls, Pieces(Lex(cls, Tail(mode, s).1), buffer + Tail(mode, s).0))
  }

  lemma AtTop(cls: Classes, buffer: string, s: string)
    ensures Outstanding(cls, Top, buffer, s) == Statements(cls, Pieces(Lex(cls, s), buffer))
  {
    assert buffer + "" == buffer;
  }

  lemma Unfold(cls: Classes, s: string, buffer: string)
    requires s != ""
    ensures var t := First(cls, s); var rest := s[|Print(t)|..];
            Pieces(Lex(cls, s), buffer) ==
            if t.Semicolon? then [buffer] + Pieces(Lex(cls, rest), "") else Pieces(Lex(cls, rest), buffer + Emit(t))
  {
    var t := First(cls, s);
    assert Lex(cls, s)[1..] == Lex(cls, s[|Print(t)|..]);
  }

  /** Emitting `e` takes the loop from `mode` at `s` to `next` at `t`. */
  ghost predicate Advances(mode: Mode, s: string, e: string, next: Mode, t: string)
    requires (mode.InDollar? ==> mode.tag != "") && (next.InDollar? ==> next.tag != "")
  {
    Tail(mode, s).0 == e + Tail(next, t).0 && Tail(mode, s).1 == Tail(next, t).1
  }

  lemma AdvanceKeeps(cls: Classes, mode: Mode, buffer: string, s: string, e: string, next: Mode, t: string)
    requires (mode.InDollar? ==> mode.tag != "") && (next.InDollar? ==> next.tag != "")
    requires Advances(mode, s, e, next, t)
    ensures Outstanding(cls, mode, buffer, s) == Outstanding(cls, next, buffer + e, t)
  {
    Rejoin(buffer, e, Tail(next, t).0);
  }

  // One lemma for each branch of the loop body, in its order. `s` is the text from the current index on.

  lemma InLineStep(s: string)
    requires s != ""
    ensures if s[0] == '\n' then Advances(InLine, s, [s[0]], Top, s[1..]) else Advances(InLine, s, "", InLine, s[1..])
  {
    assert "\n" <= s <==> s[0] == '\n';
  }

  lemma InBlockStep(s: string)
    requires s != ""
    ensures if "*/" <= s then Advances(InBlock, s, "", Top, s[2..]) else Advances(InBlock, s, "", InBlock, s[1..])
  {
  }

  lemma InDollarStep(tag: string, s: string)
    requires s != "" && tag != ""
    ensures if tag <= s then Advances(InDollar(tag), s, tag, Top, s[|tag|..])
            else Advances(InDollar(tag), s, [s[0]], InDollar(tag), s[1..])
  {
    if tag <= s {
      assert s[..0] + tag == tag + "";
    } else {
      InDollarMiss(tag, s);
    }
  }

  lemma InDollarMiss(tag: string, s: string)
    requires s != "" && tag != "" && !(tag <= s)
    ensures Advances(InDollar(tag), s, [s[0]], InDollar(tag), s[1..])
  {
    var n := Find(s[1..], tag);
    if n < |s[1..]| {
      assert s[..n + 1] == [s[0]] + s[1..][..n];
      Rejoin([s[0]], s[1..][..n], tag);
    } else {
      assert s == [s[0]] + s[1..];
    }
  }

  lemma InQuoteStep(q: char, s: string)
    requires s != ""
    ensures if s[0] != q then Advances(InQuote(q), s, [s[0]], InQuote(q), s[1..])
            else if |s| > 1 && s[1] == q then Advances(InQuote(q), s, [s[0], s[1]], InQuote(q), s[2..])
            else Advances(InQuote(q), s, [s[0]], Top, s[1..])
  {
    if s[0] != q {
      var n := QuoteEnd(s[1..], q);
      assert n < |s[1..]| ==> s[..n + 2] == [s[0]] + s[1..][..n + 1];
    } else if |s| > 1 && s[1] == q {
      var n := QuoteEnd(s[2..], q);
      assert n < |s[2..]| ==> s[..n + 3] == [s[0], s[1]] + s[2..][..n + 1];
      assert s == [s[0], s[1]] + s[2..];
    } else {
      assert s[..1] == [s[0]] + "";
    }
  }

  /** Opening a token: the token is what is emitted at once, followed by what its mode will still emit. */
  lemma EnterKeeps(cls: Classes, buffer: string, s: string, e: string, next: Mode, t: string)
    requires s != "" && (next.InDollar? ==> next.tag != "") && !First(cls, s).Semicolon?
    requires Emit(First(cls, s)) == e + Tail(next, t).0 && s[|Print(First(cls, s))|..] == Tail(next, t).1
    ensures Outstanding(cls, Top, buffer, s) == Outstanding(cls, next, buffer + e, t)
  {
    AtTop(cls, buffer, s);
    Unfold(cls, s, buffer);
    Rejoin(buffer, e, Tail(next, t).0);
  }

  lemma LineTail(s: string)
    requires "--" <= s
    ensures var t := FirstLineComment(s);
            Emit(t) == "" + Tail(InLine, s[2..]).0 && s[|Print(t)|..] == Tail(InLine, s[2..]).1
  {
  }

  lemma BlockTail(s: string)
    requires "/*" <= s
    ensures var t := FirstBlockComment(s);
            Emit(t) == "" + Tail(InBlock, s[2..]).0 && s[|Print(t)|..] == Tail(InBlock, s[2..]).1
  {
  }

  lemma EnterLine(cls: Classes, buffer: string, s: string)
    requires "--" <= s
    ensures Outstanding(cls, Top, buffer, s) == Outstanding(cls, InLine, buffer + "", s[2..])
  {
    assert First(cls, s) == FirstLineComment(s);
    LineTail(s);
    EnterKeeps(cls, buffer, s, "", InLine, s[2..]);
  }

  lemma EnterBlock(cls: Classes, buffer: string, s: string)
    requires "/*" <= s
    ensures Outstanding(cls, Top, buffer, s) == Outstanding(cls, InBlock, buffer + "", s[2..])
  {
    assert s[0] == '/' && First(cls, s) == FirstBlockComment(s);
    BlockTail(s);
    EnterKeeps(cls, buffer, s, "", InBlock, s[2..]);
  }

  lemma EnterQuote(cls: Classes, buffer: string, s: string)
    requires s != "" && IsQuote(s[0])
    ensures Outstanding(cls, Top, buffer, s) == Outstanding(cls, InQuote(s[0]), buffer + [s[0]], s[1..])
  {
    var n := QuoteEnd(s[1..], s[0]);
    assert n < |s[1..]| ==> s[1..][..n + 1] == s[1..1 + n] + [s[0]];
    assert Print(FirstQuoted(s)) == [s[0]] + Tail(InQuote(s[0]), s[1..]).0;
    EnterKeeps(cls, buffer, s, [s[0]], InQuote(s[0]), s[1..]);
  }

  lemma EnterDollar(cls: Classes, buffer: string, s: string, tag: string)
    requires s != "" && s[0] == '$' && HasTag(cls, s[1..]) && tag == OpeningTag(s)
    ensures Outstanding(cls, Top, buffer, s) == Outstanding(cls, InDollar(tag), buffer + tag, s[|tag|..])
  {
    DollarTail(s, tag);
    FirstIsDollar(cls, s);
    EnterKeeps(cls, buffer, s, tag, InDollar(tag), s[|tag|..]);
  }

  lemma DollarTail(s: string, tag: string)
    requires tag != "" && tag <= s
    ensures var t := DollarBlock(s, tag);
            Print(t) == tag + Tail(InDollar(tag), s[|tag|..]).0 && s[|Print(t)|..] == Tail(InDollar(tag), s[|tag|..]).1
  {
    var rest := s[|tag|..];
    var n, t := Find(rest, tag), DollarBlock(s, tag);
    if n < |rest| {
      Rejoin(tag, t.body, tag);
      DropTwice(s, |tag|, n + |tag|);
    } else {
      assert t.body == rest && Print(t) == tag + rest;
      assert s[|s|..] == "";
    }
  }

  /** None of the branches that open a token apply. */
  predicate Plain(cls: Classes, s: string)
    requires s != ""
  {
    !("--" <= s) && !("/*" <= s) && !IsQuote(s[0]) && !(s[0] == '$' && HasTag(cls, s[1..]))
  }

  lemma StatementsFirst(cls: Classes, piece: string, pieces: seq<string>)
    ensures Statements(cls, [piece] + pieces) == Statement(cls, piece) + Statements(cls, pieces)
  {
    assert ([piece] + pieces)[1..] == pieces;
  }

  lemma UnfoldSemicolon(cls: Classes, s: string, buffer: string)
    requires s != "" && s[0] == ';'
    ensures Pieces(Lex(cls, s), buffer) == [buffer] + Pieces(Lex(cls, s[1..]), "")
  {
    assert First(cls, s) == Semicolon;
    Unfold(cls, s, buffer);
  }

  lemma SemicolonStep(cls: Classes, buffer: string, s: string)
    requires s != "" && s[0] == ';'
    ensures Outstanding(cls, Top, buffer, s) == Statement(cls, buffer) + Outstanding(cls, Top, "", s[1..])
  {
    AtTop(cls, buffer, s);
    AtTop(cls, "", s[1..]);
    UnfoldSemicolon(cls, s, buffer);
    StatementsFirst(cls, buffer, Pieces(Lex(cls, s[1..]), ""));
  }

  lemma OtherStep(cls: Classes, buffer: string, s: string)
    requires s != "" && Plain(cls, s) && s[0] != ';'
    ensures Outstanding(cls, Top, buffer, s) == Outstanding(cls, Top, buffer + [s[0]], s[1..])
  {
    assert First(cls, s) == Other(s[0]) && [s[0]] + "" == [s[0]];
    EnterKeeps(cls, buffer, s, [s[0]], Top, s[1..]);
  }

  lemma Ended(cls: Classes, mode: Mode, buffer: string)
    requires mode.InDollar? ==> mode.tag != ""
    ensures Outstanding(cls, mode, buffer, "") == Statement(cls, buffer)
  {
    assert buffer + "" == buffer;
    assert Statements(cls, [buffer]) == Statement(cls, buffer) + Statements(cls, []);
  }

  /** Which of the flags is set. */
  function ModeOf(quote: string, dollarTag: string, lineComment: bool, blockComment: bool): Mode {
    if lineComment then InLine else if blockComment then InBlock else if dollarTag != "" then InDollar(dollarTag)
    else if quote != "" then InQuote(quote[0]) else Top
  }

  predicate AtMostOne(quote: string, dollarTag: string, lineComment: bool, blockComment: bool) {
    && |quote| <= 1
    && !(lineComment && blockComment)
    && (lineComment || blockComment ==> quote == "" && dollarTag == "")
    && (dollarTag != "" ==> quote == "")
  }

  /** The loop's variables. `statements` is kept apart. */
  datatype Scan = Scan(index: nat, buffer: string, quote: string, dollarTag: string, lineComment: bool,
      blockComment: bool) {
    function Mode(): Mode {
      ModeOf(quote, dollarTag, lineComment, blockComment)
    }

    predicate Ok(text: string) {
      index <= |text| && AtMostOne(quote, dollarTag, lineComment, blockComment)
    }
  }

  /** What is still to come does not change from `at` to `next`. */
  ghost predicate Steps(cls: Classes, text: string, at: Scan, next: Scan)
    requires at.Ok(text)
  {
    && next.Ok(text) && at.index < next.index
    && Outstanding(cls, next.Mode(), next.buffer, text[next.index..]) ==
       Outstanding(cls, at.Mode(), at.buffer, text[at.index..])
  }

  lemma Continues(cls: Classes, text: string, at: Scan, next: Scan, emitted: string, length: nat)
    requires at.Ok(text) && next.Ok(text) && 0 < length && next.index == at.index + length
    requires next.buffer == at.buffer + emitted
    requires Advances(at.Mode(), text[at.index..], emitted, next.Mode(), text[at.index..][length..])
    ensures Steps(cls, text, at, next)
  {
    var after := text[at.index..][length..];
    AdvanceKeeps(cls, at.Mode(), at.buffer, text[at.index..], emitted, next.Mode(), after);
    assert after == text[next.index..] by {
      DropTwice(text, at.index, length);
    }
  }

  /** The branches taken inside a comment. */
  method ContinueComment(cls: Classes, text: string, at: Scan) returns (next: Scan)
    requires at.Ok(text) && at.index < |text| && (at.lineComment || at.blockComment)
    ensures Steps(cls, text, at, next)
  {
    var index, rest := at.index, text[at.index..];
    var emitted, length := "", 1;
    next := at;
    if at.lineComment {
      InLineStep(rest);
      if rest[0] == '\n' {
        emitted := [rest[0]];
        next := next.(lineComment := false);
      }
    } else {
      InBlockStep(rest);
      if "*/" <= rest {
        length := 2;
        next := next.(blockComment := false);
      }
    }
    next := next.(index := index + length, buffer := at.buffer + emitted);
    Continues(cls, text, at, next, emitted, length);
  }

  /** The branches taken inside a dollar block or a quoted string. */
  method ContinueQuote(cls: Classes, text: string, at: Scan) returns (next: Scan)
    requires at.Ok(text) && at.index < |text| && (at.dollarTag != "" || at.quote != "")
    ensures Steps(cls, text, at, next)
  {
    var index, rest := at.index, text[at.index..];
    var emitted, length := [rest[0]], 1;
    next := at;
    if at.dollarTag != "" {
      InDollarStep(at.dollarTag, rest);
      if at.dollarTag <= rest {
        emitted, length := at.dollarTag, |at.dollarTag|;
        next := next.(dollarTag := "");
      }
    } else {
      InQuoteStep(at.quote[0], rest);
      if rest[0] == at.quote[0] {
        if |rest| > 1 && rest[1] == rest[0] {
          emitted, length := [rest[0], rest[1]], 2;
        } else {
          next := next.(quote := "");
        }
      }
    }
    next := next.(index := index + length, buffer := at.buffer + emitted);
    Continues(cls, text, at, next, emitted, length);
  }

  /** Looks ahead for a dollar tag; empty if there is none. */
  method ReadTag(cls: Classes, rest: string) returns (tag: string)
    requires rest != "" && rest[0] == '$'
    ensures tag != "" <==> HasTag(cls, rest[1..])
    ensures tag != "" ==> tag == OpeningTag(rest)
  {
    var end := Find(rest[1..], "$");
    if end < |rest[1..]| && TagChars(cls, rest[1..][..end]) {
      return rest[..end + 2];
    }
    return "";
  }

  /** The branches taken at top level that open a comment. */
  method OpenComment(cls: Classes, text: string, at: Scan) returns (next: Scan)
    requires at.Ok(text) && at.Mode() == Top && ("--" <= text[at.index..] || "/*" <= text[at.index..])
    ensures Steps(cls, text, at, next)
  {
    var index, rest := at.index, text[at.index..];
    DropTwice(text, index, 2);
    if "--" <= rest {
      next := at.(index := index + 2, buffer := at.buffer + "", lineComment := true);
      EnterLine(cls, at.buffer, rest);
    } else {
      next := at.(index := index + 2, buffer := at.buffer + "", blockComment := true);
      EnterBlock(cls, at.buffer, rest);
    }
  }

  lemma StepTo(cls: Classes, text: string, at: Scan, next: Scan, after: string)
    requires at.Ok(text) && next.Ok(text) && at.Mode() == Top && at.index < next.index && after == text[next.index..]
    requires Outstanding(cls, next.Mode(), next.buffer, after) == Outstanding(cls, Top, at.buffer, text[at.index..])
    ensures Steps(cls, text, at, next)
  {
  }

  /** The branches taken at top level that open a quote or a dollar block; `next` is `at` if there is none. */
  method OpenQuote(cls: Classes, text: string, at: Scan) returns (begun: bool, next: Scan)
    requires at.Ok(text) && at.index < |text| && at.Mode() == Top
    requires !("--" <= text[at.index..]) && !("/*" <= text[at.index..])
    ensures begun == !Plain(cls, text[at.index..])
    ensures if begun then Steps(cls, text, at, next) else next == at
  {
    var index, rest := at.index, text[at.index..];
    var c := rest[0];
    if IsQuote(c) {
      next := at.(index := index + 1, buffer := at.buffer + [c], quote := [c]);
      EnterQuote(cls, at.buffer, rest);
      DropTwice(text, index, 1);
      StepTo(cls, text, at, next, rest[1..]);
      return true, next;
    }
    if c == '$' {
      var tag := ReadTag(cls, rest);
      if tag != "" {
        next := at.(index := index + |tag|, buffer := at.buffer + tag, dollarTag := tag);
        EnterDollar(cls, at.buffer, rest, tag);
        DropTwice(text, index, |tag|);
        StepTo(cls, text, at, next, rest[|tag|..]);
        return true, next;
      }
    }
    return false, at;
  }

  /** The splitter's loop: an index, a buffer, and four flags of which at most one is set. */
  method SplitSqlStatements(cls: Classes, text: string) returns (statements: seq<string>)
    ensures statements == Split(cls, text)
  {
    statements := [];
    var at := Scan(0, "", "", "", false, false);
    assert text[0..] == text;
    AtTop(cls, "", text);
    while at.index < |text|
      invariant at.Ok(text)
      invariant statements + Outstanding(cls, at.Mode(), at.buffer, text[at.index..]) == Split(cls, text)
      decreases |text| - at.index
    {
      if at.lineComment || at.blockComment {
        at := ContinueComment(cls, text, at);
        continue;
      }
      if at.dollarTag != "" || at.quote != "" {
        at := ContinueQuote(cls, text, at);
        continue;
      }
      if "--" <= text[at.index..] || "/*" <= text[at.index..] {
        at := OpenComment(cls, text, at);
        continue;
      }
      var begun;
      begun, at := OpenQuote(cls, text, at);
      if begun {
        continue;
      }
      var c := text[at.index];
      DropTwice(text, at.index, 1);
      if c == ';' {
        SemicolonStep(cls, at.buffer, text[at.index..]);
        Rejoin(statements, Statement(cls, at.buffer), Outstanding(cls, Top, "", text[at.index + 1..]));
        statements := statements + Statement(cls, at.buffer);
        at := at.(index := at.index + 1, buffer := "");
      } else {
        OtherStep(cls, at.buffer, text[at.index..]);
        at := at.(index := at.index + 1, buffer := at.buffer + [c]);
      }
    }
    assert text[at.index..] == "";
    Ended(cls, at.Mode(), at.buffer);
    statements := statements + Statement(cls, at.buffer);
  }
}

/**
  The token grammar behind the SQL splitter: comments, quoted strings, dollar-quoted blocks, semicolons and other
  characters. Block comments do not nest, and a backslash escapes nothing.
 */
module SqlTokens {
  import opened Sequences

  /** The character classes of the host language: `str.isalnum` and the characters that `str.strip` removes. */
  datatype Classes = Classes(alnum: char -> bool, space: char -> bool)

  datatype Token =
    | LineComment(body: string, closed: bool)
    | BlockComment(body: string, closed: bool)
    | Quoted(quote: char, body: string, closed: bool)
    | Dollar(tag: string, body: string, closed: bool)
    | Semicolon
    | Other(c: char)

  function Print(t: Token): (s: string)
    ensures s != "" || (t.Dollar? && t.tag == "")
  {
    match t
    case LineComment(body, closed) => "--" + body + (if closed then "\n" else "")
    case BlockComment(body, closed) => "/*" + body + (if closed then "*/" else "")
    case Quoted(quote, body, closed) => [quote] + body + (if closed then [quote] else "")
    case Dollar(tag, body, closed) => tag + body + (if closed then tag else "")
    case Semicolon => ";"
    case Other(c) => [c]
  }

  // Facts about strings, kept apart so that the lemmas below need not rediscover them.

  lemma Delimited(open: string, s: string, n: nat, close: string)
    requires open <= s && |open| + n <= |s|
    ensures var body := s[|open|..][..n];
            open + body <= s && (close <= s[|open|..][n..] ==> open + body + close <= s)
  {
    var rest := s[|open|..];
    assert rest == rest[..n] + rest[n..];
    assert s == open + rest[..n] + rest[n..];
    if close <= rest[n..] {
      assert rest[n..] == close + rest[n..][|close|..];
      assert s == open + rest[..n] + close + rest[n..][|close|..];
    }
  }

  lemma Undelimited(open: string, body: string, close: string, rest: string)
    ensures var s := open + body + close + rest;
            open <= s && s[|open|..] == body + close + rest && s[|open|..][..|body|] == body
  {
  }

  function PrintAll(tokens: seq<Token>): string {
    if tokens == [] then "" else Print(tokens[0]) + PrintAll(tokens[1..])
  }

  /** Where `pat` first occurs in `s`, or `|s|` if it does not. */
  function Find(s: string, pat: string): (n: nat)
    requires pat != ""
    ensures n <= |s|
    ensures n < |s| ==> pat <= s[n..]
  {
    if s == "" || pat <= s then 0 else 1 + Find(s[1..], pat)
  }

  /** Where the string body `s` is closed by a quote that is not doubled, or `|s|` if it is not. */
  function QuoteEnd(s: string, q: char): (n: nat)
    ensures n <= |s|
    ensures n < |s| ==> s[n] == q
  {
    if s == "" then 0
    else if s[0] != q then 1 + QuoteEnd(s[1..], q)
    else if |s| > 1 && s[1] == q then 2 + QuoteEnd(s[2..], q)
    else 0
  }

  predicate IsQuote(c: char) {
    c == '\'' || c == '"'
  }

  predicate TagChars(cls: Classes, s: string) {
    forall c :: c in s ==> cls.alnum(c) || c == '_'
  }

  /** After a dollar sign, `s` goes on with the rest of a tag: tag characters and another dollar sign. */
  predicate HasTag(cls: Classes, s: string) {
    Find(s, "$") < |s| && TagChars(cls, s[..Find(s, "$")])
  }

  function FirstLineComment(s: string): (t: Token)
    requires "--" <= s
    ensures Print(t) <= s
  {
    var n := Find(s[2..], "\n");
    Delimited("--", s, n, "\n");
    LineComment(s[2..][..n], n < |s[2..]|)
  }

  function FirstBlockComment(s: string): (t: Token)
    requires "/*" <= s
    ensures Print(t) <= s
  {
    var n := Find(s[2..], "*/");
    Delimited("/*", s, n, "*/");
    BlockComment(s[2..][..n], n < |s[2..]|)
  }

  function FirstQuoted(s: string): (t: Token)
    requires s != "" && IsQuote(s[0])
    ensures Print(t) <= s
  {
    var n := QuoteEnd(s[1..], s[0]);
    Delimited([s[0]], s, n, [s[0]]);
    Quoted(s[0], s[1..][..n], n < |s[1..]|)
  }

  function DollarBlock(s: string, tag: string): (t: Token)
    requires tag != "" && tag <= s
    ensures Print(t) <= s && Print(t) != ""
  {
    var n := Find(s[|tag|..], tag);
    Delimited(tag, s, n, tag);
    Dollar(tag, s[|tag|..][..n], n < |s[|tag|..]|)
  }

  /** The opening tag of a text that begins with one. */
  function OpeningTag(s: string): (tag: string)
    requires s != "" && s[0] == '$' && Find(s[1..], "$") < |s[1..]|
    ensures tag <= s && |tag| == Find(s[1..], "$") + 2
  {
    s[..Find(s[1..], "$") + 2]
  }

  /** The first token of a text. */
  function First(cls: Classes, s: string): (t: Token)
    requires s != ""
    ensures Print(t) != "" && Print(t) <= s
  {
    if "--" <= s then FirstLineComment(s)
    else if "/*" <= s then FirstBlockComment(s)
    else if IsQuote(s[0]) then FirstQuoted(s)
    else if s[0] == '$' && HasTag(cls, s[1..]) then DollarBlock(s, OpeningTag(s))
    else if s[0] == ';' then Semicolon
    else Other(s[0])
  }

  function Lex(cls: Classes, s: string): seq<Token>
    decreases |s|
  {
    if s == "" then [] else
    var t := First(cls, s);
    [t] + Lex(cls, s[|Print(t)|..])
  }

  // ---------- The grammar, stated without the lexer ----------

  /** `pat` does not begin at any place inside `body`, when `body` is followed by `pat`. */
  ghost predicate Avoids(body: string, pat: string) {
    forall i :: 0 <= i < |body| ==> !(pat <= (body + pat)[i..])
  }

  ghost predicate Absent(body: string, pat: string) {
    forall i :: 0 <= i < |body| ==> !(pat <= body[i..])
  }

  /** Quotes occur in pairs only. */
  predicate QuotesDoubled(body: string, q: char) {
    if body == "" then true
    else if body[0] != q then QuotesDoubled(body[1..], q)
    else |body| > 1 && body[1] == q && QuotesDoubled(body[2..], q)
  }

  ghost predicate IsTag(cls: Classes, tag: string) {
    |tag| >= 2 && tag[0] == '$' && tag[|tag| - 1] == '$' && TagChars(cls, tag[1..|tag| - 1]) && '$' !in tag[1..|tag| - 1]
  }

  ghost predicate TokenOk(cls: Classes, t: Token) {
    match t
    case LineComment(body, closed) => '\n' !in body
    case BlockComment(body, closed) => if closed then Avoids(body, "*/") else Absent(body, "*/")
    case Quoted(q, body, closed) => IsQuote(q) && QuotesDoubled(body, q)
    case Dollar(tag, body, closed) => IsTag(cls, tag) && if closed then Avoids(body, tag) else Absent(body, tag)
    case Semicolon => true
    case Other(c) => c != ';' && !IsQuote(c)
  }

  predicate Closed(t: Token) {
    match t
    case LineComment(_, closed) => closed
    case BlockComment(_, closed) => closed
    case Quoted(_, _, closed) => closed
    case Dollar(_, _, closed) => closed
    case _ => true
  }

  /** The token may stand before the text `rest`: nothing in `rest` would have made it another token. */
  ghost predicate MayPrecede(cls: Classes, t: Token, rest: string) {
    && (!Closed(t) ==> rest == "")
    && (t.Quoted? && rest != "" ==> rest[0] != t.quote)
    && (t == Other('-') ==> !("-" <= rest))
    && (t == Other('/') ==> !("*" <= rest))
    && (t == Other('$') ==> !HasTag(cls, rest))
  }

  ghost predicate Canonical(cls: Classes, tokens: seq<Token>) {
    tokens == [] ||
    (TokenOk(cls, tokens[0]) && MayPrecede(cls, tokens[0], PrintAll(tokens[1..])) && Canonical(cls, tokens[1..]))
  }

  // ---------- Lexing and printing are inverse ----------

  lemma {:induction false} PrintLex(cls: Classes, s: string)
    ensures PrintAll(Lex(cls, s)) == s
    decreases |s|
  {
    if s == "" {
    } else {
      var t := First(cls, s);
      var rest := s[|Print(t)|..];
      PrintLex(cls, rest);
      assert Lex(cls, s)[1..] == Lex(cls, rest);
      assert s == Print(t) + rest;
    }
  }

  lemma {:induction false} FindPast(body: string, pat: string, rest: string)
    requires pat != "" && Avoids(body, pat)
    ensures Find(body + pat + rest, pat) == |body|
  {
    var s := body + pat + rest;
    if body == "" {
      assert pat <= s;
    } else {
      assert (body + pat)[0..] == body + pat;
      assert s[..|pat|] == (body + pat)[..|pat|];
      assert s[1..] == body[1..] + pat + rest;
      forall i | 0 <= i < |body[1..]| ensures !(pat <= (body[1..] + pat)[i..]) {
        assert (body[1..] + pat)[i..] == (body + pat)[i + 1..];
      }
      FindPast(body[1..], pat, rest);
    }
  }

  lemma {:induction false} FindNothing(body: string, pat: string)
    requires pat != "" && Absent(body, pat)
    ensures Find(body, pat) == |body|
  {
    if body == "" {
    } else {
      assert !(pat <= body[0..]);
      forall i | 0 <= i < |body[1..]| ensures !(pat <= body[1..][i..]) {
        assert body[1..][i..] == body[i + 1..];
      }
      FindNothing(body[1..], pat);
    }
  }

  lemma AvoidsMore(c: char, body: string, pat: string, s: string)
    requires pat != "" && Avoids(body, pat) && [c] + body + pat <= s && !(pat <= s)
    ensures Avoids([c] + body, pat)
  {
    var all := [c] + body + pat;
    forall i | 0 <= i < |[c] + body| ensures !(pat <= all[i..]) {
      if i > 0 {
        assert all[i..] == (body + pat)[i - 1..];
      } else {
        assert all[0..] == all;
      }
    }
  }

  lemma AbsentMore(c: char, body: string, pat: string)
    requires Absent(body, pat) && !(pat <= [c] + body)
    ensures Absent([c] + body, pat)
  {
    assert ([c] + body)[0..] == [c] + body;
    forall i | 0 <= i < |[c] + body| ensures !(pat <= ([c] + body)[i..]) {
      if i > 0 {
        assert ([c] + body)[i..] == body[i - 1..];
      }
    }
  }

  /** The text before the first occurrence avoids the pattern; without an occurrence the whole text does. */
  lemma {:induction false} FindAvoids(s: string, pat: string)
    requires pat != ""
    ensures Find(s, pat) < |s| ==> Avoids(s[..Find(s, pat)], pat)
    ensures Find(s, pat) == |s| ==> Absent(s[..Find(s, pat)], pat)
  {
    if s != "" && !(pat <= s) {
      var c, tail := s[0], s[1..];
      FindAvoids(tail, pat);
      var m := Find(tail, pat);
      assert s[..m + 1] == [c] + tail[..m];
      if m < |tail| {
        Delimited([c], s, m, pat);
        AvoidsMore(c, tail[..m], pat, s);
      } else {
        AbsentMore(c, tail[..m], pat);
      }
    }
  }

  lemma {:induction false} QuoteEndPast(body: string, q: char, rest: string)
    requires QuotesDoubled(body, q) && (rest == "" || rest[0] != q)
    ensures QuoteEnd(body + [q] + rest, q) == |body|
  {
    var s := body + [q] + rest;
    if body != "" {
      if body[0] != q {
        assert s[1..] == body[1..] + [q] + rest;
        QuoteEndPast(body[1..], q, rest);
      } else {
        assert s[2..] == body[2..] + [q] + rest;
        QuoteEndPast(body[2..], q, rest);
      }
    }
  }

  lemma {:induction false} QuoteNeverEnds(body: string, q: char)
    requires QuotesDoubled(body, q)
    ensures QuoteEnd(body, q) == |body|
  {
    if body == "" {
    } else {
      QuoteNeverEnds(if body[0] != q then body[1..] else body[2..], q);
    }
  }

  lemma {:induction false} QuoteEndDoubled(s: string, q: char)
    ensures QuotesDoubled(s[..QuoteEnd(s, q)], q)
    ensures QuoteEnd(s, q) + 1 < |s| ==> s[QuoteEnd(s, q) + 1] != q
  {
    var n := QuoteEnd(s, q);
    if s != "" && n != 0 {
      var k := if s[0] != q then 1 else 2;
      QuoteEndDoubled(s[k..], q);
      assert s[..n][k..] == s[k..][..n - k];
    }
  }

  lemma NewlineAvoided(body: string)
    ensures '\n' !in body <==> Avoids(body, "\n")
    ensures '\n' !in body <==> Absent(body, "\n")
  {
    forall i | 0 <= i < |body|
      ensures "\n" <= body[i..] <==> body[i] == '\n'
      ensures "\n" <= (body + "\n")[i..] <==> body[i] == '\n'
    {
      assert (body + "\n")[i..][0] == body[i];
    }
    if '\n' !in body {
      assert Avoids(body, "\n") && Absent(body, "\n");
    } else {
      var i :| 0 <= i < |body| && body[i] == '\n';
      assert "\n" <= body[i..] && "\n" <= (body + "\n")[i..];
    }
  }

  // ---------- The lexer finds exactly the canonical tokens ----------

  lemma FirstLineCommentOk(cls: Classes, s: string)
    requires "--" <= s
    ensures TokenOk(cls, FirstLineComment(s))
  {
    FindAvoids(s[2..], "\n");
    NewlineAvoided(FirstLineComment(s).body);
  }

  lemma FirstBlockCommentOk(cls: Classes, s: string)
    requires "/*" <= s
    ensures TokenOk(cls, FirstBlockComment(s))
  {
    FindAvoids(s[2..], "*/");
  }

  lemma FirstQuotedOk(cls: Classes, s: string)
    requires s != "" && IsQuote(s[0])
    ensures TokenOk(cls, FirstQuoted(s))
    ensures MayPrecede(cls, FirstQuoted(s), s[|Print(FirstQuoted(s))|..])
  {
    QuoteEndDoubled(s[1..], s[0]);
  }

  lemma OpeningTagOk(cls: Classes, s: string)
    requires s != "" && s[0] == '$' && HasTag(cls, s[1..])
    ensures IsTag(cls, OpeningTag(s))
  {
    var tag, n := OpeningTag(s), Find(s[1..], "$");
    var inner := s[1..][..n];
    assert tag[1..|tag| - 1] == inner;
    assert s[1..][n..][0] == '$';
    FindAvoids(s[1..], "$");
    forall i | 0 <= i < n ensures inner[i] != '$' {
      assert (inner + "$")[i..][0] == inner[i];
    }
  }

  lemma FirstDollarOk(cls: Classes, s: string)
    requires s != "" && s[0] == '$' && HasTag(cls, s[1..])
    ensures TokenOk(cls, DollarBlock(s, OpeningTag(s)))
  {
    OpeningTagOk(cls, s);
    FindAvoids(s[|OpeningTag(s)|..], OpeningTag(s));
  }

  lemma FirstOtherOk(cls: Classes, s: string)
    requires s != "" && First(cls, s) == Other(s[0])
    ensures TokenOk(cls, Other(s[0])) && MayPrecede(cls, Other(s[0]), s[1..])
  {
    assert "-" <= s[1..] && s[0] == '-' ==> "--" <= s;
    assert "*" <= s[1..] && s[0] == '/' ==> "/*" <= s;
  }

  lemma FirstOk(cls: Classes, s: string)
    requires s != ""
    ensures TokenOk(cls, First(cls, s)) && MayPrecede(cls, First(cls, s), s[|Print(First(cls, s))|..])
  {
    if "--" <= s {
      FirstLineCommentOk(cls, s);
    } else if "/*" <= s {
      FirstBlockCommentOk(cls, s);
    } else if IsQuote(s[0]) {
      FirstQuotedOk(cls, s);
    } else if s[0] == '$' && HasTag(cls, s[1..]) {
      FirstDollarOk(cls, s);
    } else if s[0] != ';' {
      FirstOtherOk(cls, s);
    }
  }

  lemma {:induction false} LexIsCanonical(cls: Classes, s: string)
    ensures Canonical(cls, Lex(cls, s))
    decreases |s|
  {
    if s == "" {
    } else {
      FirstOk(cls, s);
      var rest := s[|Print(First(cls, s))|..];
      LexIsCanonical(cls, rest);
      PrintLex(cls, rest);
      assert Lex(cls, s)[1..] == Lex(cls, rest);
    }
  }

  lemma LineCommentFirst(cls: Classes, t: Token, rest: string)
    requires t.LineComment? && TokenOk(cls, t) && (!t.closed ==> rest == "")
    ensures First(cls, Print(t) + rest) == t
  {
    Undelimited("--", t.body, if t.closed then "\n" else "", rest);
    NewlineAvoided(t.body);
    if t.closed {
      FindPast(t.body, "\n", rest);
    } else {
      assert t.body + "" + rest == t.body;
      FindNothing(t.body, "\n");
    }
  }

  lemma BlockCommentFirst(cls: Classes, t: Token, rest: string)
    requires t.BlockComment? && TokenOk(cls, t) && (!t.closed ==> rest == "")
    ensures First(cls, Print(t) + rest) == t
  {
    var s := Print(t) + rest;
    Undelimited("/*", t.body, if t.closed then "*/" else "", rest);
    assert s[0] == '/' && !("--" <= s);
    if t.closed {
      FindPast(t.body, "*/", rest);
    } else {
      assert t.body + "" + rest == t.body;
      FindNothing(t.body, "*/");
    }
  }

  lemma QuotedFirst(cls: Classes, t: Token, rest: string)
    requires t.Quoted? && TokenOk(cls, t) && MayPrecede(cls, t, rest)
    ensures First(cls, Print(t) + rest) == t
  {
    QuotedReads(t, rest);
    var s := Print(t) + rest;
    assert s[0] == t.quote && !("--" <= s) && !("/*" <= s);
  }

  lemma QuotedReads(t: Token, rest: string)
    requires t.Quoted? && IsQuote(t.quote) && QuotesDoubled(t.body, t.quote)
    requires if t.closed then rest == "" || rest[0] != t.quote else rest == ""
    ensures var s := Print(t) + rest; s != "" && s[0] == t.quote && FirstQuoted(s) == t
  {
    var close := if t.closed then [t.quote] else "";
    Undelimited([t.quote], t.body, close, rest);
    if t.closed {
      QuoteEndPast(t.body, t.quote, rest);
    } else {
      assert t.body + "" + rest == t.body;
      QuoteNeverEnds(t.body, t.quote);
    }
    assert Print(t) + rest == [t.quote] + t.body + close + rest;
  }

  lemma DollarFirst(cls: Classes, t: Token, rest: string)
    requires t.Dollar? && TokenOk(cls, t) && (!t.closed ==> rest == "")
    ensures First(cls, Print(t) + rest) == t
  {
    DollarBlockReads(t, rest);
    TagRecognised(cls, t.tag, Print(t) + rest);
    FirstIsDollar(cls, Print(t) + rest);
  }

  lemma FirstIsDollar(cls: Classes, s: string)
    requires s != "" && s[0] == '$' && HasTag(cls, s[1..])
    ensures First(cls, s) == DollarBlock(s, OpeningTag(s))
  {
  }

  lemma DollarBlockReads(t: Token, rest: string)
    requires t.Dollar? && t.tag != "" && (!t.closed ==> rest == "")
    requires if t.closed then Avoids(t.body, t.tag) else Absent(t.body, t.tag)
    ensures t.tag <= Print(t) + rest && DollarBlock(Print(t) + rest, t.tag) == t
  {
    Undelimited(t.tag, t.body, if t.closed then t.tag else "", rest);
    if t.closed {
      FindPast(t.body, t.tag, rest);
    } else {
      assert t.body + "" + rest == t.body;
      FindNothing(t.body, t.tag);
    }
  }

  lemma TagRecognised(cls: Classes, tag: string, s: string)
    requires IsTag(cls, tag) && tag <= s
    ensures s[0] == '$' && HasTag(cls, s[1..]) && OpeningTag(s) == tag
  {
    var inner := tag[1..|tag| - 1];
    forall i | 0 <= i < |inner| ensures !("$" <= (inner + "$")[i..]) {
      assert (inner + "$")[i..][0] == inner[i];
    }
    assert s[1..] == inner + "$" + s[|tag|..];
    FindPast(inner, "$", s[|tag|..]);
    assert s[1..][..|inner|] == inner;
  }

  lemma FirstOfPrint(cls: Classes, t: Token, rest: string)
    requires TokenOk(cls, t) && MayPrecede(cls, t, rest)
    ensures Print(t) != "" && First(cls, Print(t) + rest) == t
  {
    match t
    case LineComment(_, _) => LineCommentFirst(cls, t, rest);
    case BlockComment(_, _) => BlockCommentFirst(cls, t, rest);
    case Quoted(_, _, _) => QuotedFirst(cls, t, rest);
    case Dollar(_, _, _) => DollarFirst(cls, t, rest);
    case Semicolon =>
      assert (";" + rest)[0] == ';';
    case Other(c) =>
      OtherFirst(cls, c, rest);
  }

  lemma OtherFirst(cls: Classes, c: char, rest: string)
    requires TokenOk(cls, Other(c)) && MayPrecede(cls, Other(c), rest)
    ensures First(cls, [c] + rest) == Other(c)
  {
    var s := [c] + rest;
    assert s[0] == c && s[1..] == rest;
    if rest != "" {
      assert s[1] == rest[0];
      assert "-" <= rest <==> rest[0] == '-';
      assert "*" <= rest <==> rest[0] == '*';
    }
  }

  lemma {:induction false} LexPrintsBack(cls: Classes, tokens: seq<Token>)
    requires Canonical(cls, tokens)
    ensures Lex(cls, PrintAll(tokens)) == tokens
  {
    if tokens == [] {
    } else {
      var t, rest := tokens[0], PrintAll(tokens[1..]);
      FirstOfPrint(cls, t, rest);
      LexPrintsBack(cls, tokens[1..]);
      assert (Print(t) + rest)[|Print(t)|..] == rest;
      assert tokens == [t] + tokens[1..];
    }
  }

  /** The lexer is the only reading of a text: its result is the one canonical token list that prints the text. */
  lemma LexIsTheCanonicalReading(cls: Classes, s: string, tokens: seq<Token>)
    ensures tokens == Lex(cls, s) <==> Canonical(cls, tokens) && PrintAll(tokens) == s
  {
    PrintLex(cls, s);
    LexIsCanonical(cls, s);
    if Canonical(cls, tokens) && PrintAll(tokens) == s {
      LexPrintsBack(cls, tokens);
    }
  }
}

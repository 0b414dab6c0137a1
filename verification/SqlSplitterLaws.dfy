/** Splitting distributes over joining with semicolons, and joining well-formed statements is undone by splitting. */
module SqlSplitterLaws {
  import opened Sequences
  import opened SqlTokens
  import opened SqlSplitter

  ghost predicate AllClosed(tokens: seq<Token>) {
    forall i :: 0 <= i < |tokens| ==> Closed(tokens[i])
  }

  lemma {:induction false} PrintJoin(a: seq<Token>, b: seq<Token>)
    ensures PrintAll(a + b) == PrintAll(a) + PrintAll(b)
  {
    if a == [] {
      assert a + b == b;
    } else {
      PrintJoin(a[1..], b);
      HeadTail(a, b);
      Rejoin(Print(a[0]), PrintAll(a[1..]), PrintAll(b));
    }
  }

  /** A text that starts with a semicolon closes no tag and continues no token. */
  lemma MayPrecedeMore(cls: Classes, t: Token, rest: string, more: string)
    requires !cls.alnum(';') && more != "" && more[0] == ';'
    requires TokenOk(cls, t) && Closed(t) && MayPrecede(cls, t, rest)
    ensures MayPrecede(cls, t, rest + more)
  {
    var all := rest + more;
    assert all[0] == if rest == "" then ';' else rest[0];
    assert rest != "" ==> ("-" <= rest <==> rest[0] == '-') && ("*" <= rest <==> rest[0] == '*');
    if t == Other('$') {
      NoTagAcross(cls, rest, more);
    }
  }

  lemma NoTagAcross(cls: Classes, rest: string, more: string)
    requires !cls.alnum(';') && more != "" && more[0] == ';' && !HasTag(cls, rest)
    ensures !HasTag(cls, rest + more)
  {
    FindSplit(rest, more);
    var n, m := Find(rest, "$"), Find(rest + more, "$");
    if n < |rest| {
      assert rest[..n] == (rest + more)[..m];
    } else if m < |rest + more| {
      assert m > |rest| ==> (rest + more)[..m][|rest|] == ';';
    }
  }

  lemma {:induction false} FindSplit(a: string, b: string)
    ensures Find(a + b, "$") == if Find(a, "$") < |a| then Find(a, "$") else |a| + Find(b, "$")
  {
    if a == "" {
      assert a + b == b;
    } else {
      assert "$" <= a <==> a[0] == '$';
      assert "$" <= a + b <==> a[0] == '$';
      assert (a + b)[1..] == a[1..] + b;
      FindSplit(a[1..], b);
    }
  }

  lemma {:induction false} CanonicalJoin(cls: Classes, a: seq<Token>, b: seq<Token>)
    requires !cls.alnum(';') && Canonical(cls, a) && AllClosed(a)
    requires Canonical(cls, b) && ";" <= PrintAll(b)
    ensures Canonical(cls, a + b)
  {
    if a == [] {
      assert a + b == b;
    } else {
      CanonicalJoin(cls, a[1..], b);
      CanonicalStep(cls, a[0], a[1..], b);
      HeadFirst(a, b);
    }
  }

  lemma HeadFirst<T>(a: seq<T>, b: seq<T>)
    requires a != []
    ensures a + b == [a[0]] + (a[1..] + b)
  {
  }

  lemma CanonicalStep(cls: Classes, t: Token, a: seq<Token>, b: seq<Token>)
    requires !cls.alnum(';') && TokenOk(cls, t) && Closed(t) && MayPrecede(cls, t, PrintAll(a))
    requires Canonical(cls, a + b) && ";" <= PrintAll(b)
    ensures Canonical(cls, [t] + (a + b))
  {
    PrintJoin(a, b);
    MayPrecedeMore(cls, t, PrintAll(a), PrintAll(b));
    assert ([t] + (a + b))[1..] == a + b;
  }

  /** A text whose tokens are all closed lexes the same in front of a semicolon. */
  lemma LexJoin(cls: Classes, s: string, t: string)
    requires !cls.alnum(';') && AllClosed(Lex(cls, s))
    ensures Lex(cls, s + ";" + t) == Lex(cls, s) + ([Semicolon] + Lex(cls, t))
  {
    var a, b := Lex(cls, s), [Semicolon] + Lex(cls, t);
    LexIsCanonical(cls, s);
    SemicolonFirst(cls, t);
    CanonicalJoin(cls, a, b);
    PrintLex(cls, s);
    PrintJoin(a, b);
    Rejoin(s, ";", t);
    LexPrintsBack(cls, a + b);
  }

  lemma SemicolonFirst(cls: Classes, t: string)
    ensures var b := [Semicolon] + Lex(cls, t); Canonical(cls, b) && PrintAll(b) == ";" + t
  {
    LexIsCanonical(cls, t);
    PrintLex(cls, t);
    assert ([Semicolon] + Lex(cls, t))[1..] == Lex(cls, t);
  }

  lemma {:induction false} PiecesJoin(a: seq<Token>, b: seq<Token>, buffer: string)
    ensures Pieces(a + ([Semicolon] + b), buffer) == Pieces(a, buffer) + Pieces(b, "")
  {
    var all := a + ([Semicolon] + b);
    if a == [] {
      assert all == [Semicolon] + b && all[1..] == b;
    } else {
      assert all[0] == a[0] && all[1..] == a[1..] + ([Semicolon] + b);
      if a[0].Semicolon? {
        PiecesJoin(a[1..], b, "");
      } else {
        PiecesJoin(a[1..], b, buffer + Emit(a[0]));
      }
    }
  }

  lemma {:induction false} StatementsJoin(cls: Classes, p: seq<string>, q: seq<string>)
    ensures Statements(cls, p + q) == Statements(cls, p) + Statements(cls, q)
  {
    if p == [] {
      assert p + q == q;
    } else {
      StatementsJoin(cls, p[1..], q);
      assert (p + q)[1..] == p[1..] + q;
    }
  }

  /** Splitting distributes over a semicolon after any text that leaves no comment, quote or dollar block open. */
  lemma SplitJoin(cls: Classes, s: string, t: string)
    requires !cls.alnum(';') && AllClosed(Lex(cls, s))
    ensures Split(cls, s + ";" + t) == Split(cls, s) + Split(cls, t)
  {
    LexJoin(cls, s, t);
    PiecesJoin(Lex(cls, s), Lex(cls, t), "");
    StatementsJoin(cls, Pieces(Lex(cls, s), ""), Pieces(Lex(cls, t), ""));
  }

  // ---------- Round trip ----------

  function Join(statements: seq<string>): string {
    if statements == [] then "" else if |statements| == 1 then statements[0]
    else statements[0] + ";" + Join(statements[1..])
  }

  /** Part of a statement: not a comment and not a semicolon. */
  predicate Inner(t: Token) {
    !t.LineComment? && !t.BlockComment? && !t.Semicolon?
  }

  predicate Keeps(t: Token) {
    Closed(t) && Inner(t)
  }

  /** The statement reads as parts of a statement only, and leaves nothing open, or may leave it if it is the last. */
  ghost predicate ReadsAlone(cls: Classes, s: string, last: bool) {
    forall t :: t in Lex(cls, s) ==> Inner(t) && (last || Closed(t))
  }

  predicate Trimmed(cls: Classes, s: string) {
    s != "" && Strip(cls, s) == s
  }

  ghost predicate WellFormed(cls: Classes, s: string) {
    Trimmed(cls, s) && ReadsAlone(cls, s, false)
  }

  /** Each statement reads alone; the last one may leave a token open. */
  ghost predicate AllReadAlone(cls: Classes, statements: seq<string>) {
    forall i :: 0 <= i < |statements| ==> ReadsAlone(cls, statements[i], i + 1 == |statements|)
  }

  lemma {:induction false} InnerTokensMakeOnePiece(tokens: seq<Token>, buffer: string)
    requires forall t :: t in tokens ==> Inner(t)
    ensures Pieces(tokens, buffer) == [buffer + PrintAll(tokens)]
  {
    if tokens == [] {
      assert buffer + "" == buffer;
    } else {
      assert Inner(tokens[0]);
      InnerTokensMakeOnePiece(tokens[1..], buffer + Emit(tokens[0]));
      Rejoin(buffer, Print(tokens[0]), PrintAll(tokens[1..]));
    }
  }

  lemma OnePiece(cls: Classes, piece: string)
    ensures Statements(cls, [piece]) == Statement(cls, piece)
  {
    assert [piece][1..] == [];
  }

  lemma ReadingAloneIsOneStatement(cls: Classes, s: string, last: bool)
    requires Trimmed(cls, s) && ReadsAlone(cls, s, last)
    ensures Split(cls, s) == [s]
  {
    InnerTokensMakeOnePiece(Lex(cls, s), "");
    PrintLex(cls, s);
    assert "" + s == s;
    OnePiece(cls, s);
  }

  lemma EmptyTextHasNoStatement(cls: Classes)
    ensures Split(cls, "") == []
  {
    assert Lex(cls, "") == [] && Pieces([], "") == [""];
    OnePiece(cls, "");
  }

  lemma NothingLeftOpen(cls: Classes, s: string)
    requires ReadsAlone(cls, s, false)
    ensures AllClosed(Lex(cls, s))
  {
    forall i | 0 <= i < |Lex(cls, s)| ensures Closed(Lex(cls, s)[i]) {
      assert Lex(cls, s)[i] in Lex(cls, s);
    }
  }

  /** Joining trimmed statements that read alone, with semicolons, and splitting the text gives them back. */
  lemma {:induction false} SplitUndoesJoin(cls: Classes, statements: seq<string>)
    requires !cls.alnum(';')
    requires (forall i :: 0 <= i < |statements| ==> Trimmed(cls, statements[i])) && AllReadAlone(cls, statements)
    ensures Split(cls, Join(statements)) == statements
  {
    if statements == [] {
      EmptyTextHasNoStatement(cls);
    } else {
      var s, others := statements[0], statements[1..];
      ReadingAloneIsOneStatement(cls, s, |statements| == 1);
      if |statements| > 1 {
        assert forall i :: 0 <= i < |others| ==> others[i] == statements[i + 1];
        SplitUndoesJoin(cls, others);
        NothingLeftOpen(cls, s);
        SplitJoin(cls, s, Join(others));
        assert statements == [s] + others;
      }
    }
  }

  // ---------- What the splitter returns is well formed ----------

  /** The characters that strip removes open and close no token. */
  predicate PlainSpaces(cls: Classes) {
    !cls.space('\'') && !cls.space('"') && !cls.space('$')
  }

  ghost predicate Kept(cls: Classes, s: string) {
    forall t :: t in Lex(cls, s) ==> Keeps(t)
  }

  /** No comment, and no token left open. */
  ghost predicate ClosedAndCommentFree(cls: Classes, s: string) {
    forall t :: t in Lex(cls, s) ==> Keeps(t) || t.Semicolon?
  }

  lemma MayPrecedeLess(cls: Classes, t: Token, rest: string, more: string)
    requires Closed(t) && MayPrecede(cls, t, rest + more)
    ensures MayPrecede(cls, t, rest)
  {
    if rest != "" {
      assert (rest + more)[0] == rest[0];
      assert "-" <= rest ==> "-" <= rest + more;
      assert "*" <= rest ==> "*" <= rest + more;
      FindSplit(rest, more);
      var n := Find(rest, "$");
      assert n < |rest| ==> (rest + more)[..n] == rest[..n];
    }
  }

  lemma {:induction false} CanonicalPrefix(cls: Classes, a: seq<Token>, b: seq<Token>)
    requires Canonical(cls, a + b) && AllClosed(a)
    ensures Canonical(cls, a)
  {
    if a == [] {
    } else {
      HeadTail(a, b);
      CanonicalPrefix(cls, a[1..], b);
      PrintJoin(a[1..], b);
      MayPrecedeLess(cls, a[0], PrintAll(a[1..]), PrintAll(b));
    }
  }

  lemma {:induction false} CanonicalSuffix(cls: Classes, a: seq<Token>, b: seq<Token>)
    requires Canonical(cls, a + b)
    ensures Canonical(cls, b)
  {
    if a == [] {
      assert a + b == b;
    } else {
      HeadTail(a, b);
      CanonicalSuffix(cls, a[1..], b);
    }
  }

  lemma PrefixIsKept(cls: Classes, a: seq<Token>, b: seq<Token>)
    requires Canonical(cls, a + b) && forall t :: t in a ==> Keeps(t)
    ensures Kept(cls, PrintAll(a))
  {
    assert AllClosed(a) by {
      forall i | 0 <= i < |a| ensures Closed(a[i]) {
        assert Keeps(a[i]);
      }
    }
    CanonicalPrefix(cls, a, b);
    LexPrintsBack(cls, a);
  }

  ghost predicate AllKept(cls: Classes, pieces: seq<string>) {
    forall p :: p in pieces ==> Kept(cls, p)
  }

  lemma OneMoreKept(cls: Classes, piece: string, pieces: seq<string>)
    requires Kept(cls, piece) && AllKept(cls, pieces)
    ensures AllKept(cls, [piece] + pieces)
  {
  }

  lemma PrintOneMore(tokens: seq<Token>, t: Token)
    ensures PrintAll(tokens + [t]) == PrintAll(tokens) + Print(t)
  {
    PrintJoin(tokens, [t]);
    assert PrintAll([t]) == Print(t) + "" == Print(t);
  }

  lemma {:induction false} PiecesAreKept(cls: Classes, before: seq<Token>, tokens: seq<Token>)
    requires Canonical(cls, before + tokens) && forall t :: t in before ==> Keeps(t)
    requires forall t :: t in tokens ==> Keeps(t) || t.Semicolon?
    ensures AllKept(cls, Pieces(tokens, PrintAll(before)))
    decreases |tokens|
  {
    if tokens == [] {
      PrefixIsKept(cls, before, []);
    } else if tokens[0].Semicolon? {
      PrefixIsKept(cls, before, tokens);
      CanonicalSuffix(cls, before, tokens);
      assert [] + tokens[1..] == tokens[1..];
      PiecesAreKept(cls, [], tokens[1..]);
      OneMoreKept(cls, PrintAll(before), Pieces(tokens[1..], ""));
    } else {
      var t := tokens[0];
      assert t in tokens && Keeps(t);
      assert (before + [t]) + tokens[1..] == before + tokens;
      PrintOneMore(before, t);
      PiecesAreKept(cls, before + [t], tokens[1..]);
    }
  }

  lemma {:induction false} StripLeftKeeps(cls: Classes, s: string)
    requires PlainSpaces(cls) && Kept(cls, s)
    ensures Kept(cls, StripLeft(cls, s))
    ensures StripLeft(cls, s) == "" || !cls.space(StripLeft(cls, s)[0])
  {
    if s != "" && cls.space(s[0]) {
      var t := First(cls, s);
      assert Lex(cls, s) == [t] + Lex(cls, s[|Print(t)|..]);
      assert t in Lex(cls, s);
      assert t == Other(s[0]);
      StripLeftKeeps(cls, s[1..]);
    }
  }

  /** A kept token that ends in a space is that space. */
  lemma SpaceAtEnd(cls: Classes, t: Token)
    requires PlainSpaces(cls) && TokenOk(cls, t) && Keeps(t) && Print(t) != "" && cls.space(Print(t)[|Print(t)| - 1])
    ensures t == Other(Print(t)[|Print(t)| - 1])
  {
  }

  lemma SplitLast<T>(a: seq<T>)
    requires a != []
    ensures a == a[..|a| - 1] + [a[|a| - 1]]
  {
  }

  lemma LastToken(cls: Classes, tokens: seq<Token>) returns (init: seq<Token>, last: Token)
    requires tokens != [] && Canonical(cls, tokens)
    ensures tokens == init + [last] && last in tokens
    ensures TokenOk(cls, last) && Print(last) != "" && PrintAll(tokens) == PrintAll(init) + Print(last)
  {
    init, last := tokens[..|tokens| - 1], tokens[|tokens| - 1];
    SplitLast(tokens);
    CanonicalSuffix(cls, init, [last]);
    PrintOneMore(init, last);
    FirstOfPrint(cls, last, "");
  }

  lemma EndOf(a: string, b: string)
    requires b != ""
    ensures (a + b)[|a + b| - 1] == b[|b| - 1] && (|b| == 1 ==> (a + b)[..|a + b| - 1] == a)
  {
  }

  lemma DropLastSpace(cls: Classes, s: string)
    requires PlainSpaces(cls) && Kept(cls, s) && s != "" && cls.space(s[|s| - 1])
    ensures Kept(cls, s[..|s| - 1])
  {
    PrintLex(cls, s);
    LexIsCanonical(cls, s);
    DropLastToken(cls, Lex(cls, s), s);
  }

  lemma DropLastToken(cls: Classes, tokens: seq<Token>, s: string)
    requires PlainSpaces(cls) && Canonical(cls, tokens) && (forall t :: t in tokens ==> Keeps(t))
    requires tokens != [] && PrintAll(tokens) == s && s != "" && cls.space(s[|s| - 1])
    ensures Kept(cls, s[..|s| - 1])
  {
    var init, last := LastToken(cls, tokens);
    EndOf(PrintAll(init), Print(last));
    SpaceAtEnd(cls, last);
    PrefixIsKept(cls, init, [last]);
  }

  lemma {:induction false} StripRightKeeps(cls: Classes, s: string)
    requires PlainSpaces(cls) && Kept(cls, s) && (s == "" || !cls.space(s[0]))
    ensures var r := StripRight(cls, s); Kept(cls, r) && Strip(cls, r) == r
  {
    if s != "" && cls.space(s[|s| - 1]) {
      DropLastSpace(cls, s);
      StripRightKeeps(cls, s[..|s| - 1]);
    }
  }

  lemma {:induction false} KeptPiecesGiveWellFormed(cls: Classes, pieces: seq<string>)
    requires PlainSpaces(cls) && forall p :: p in pieces ==> Kept(cls, p)
    ensures forall s :: s in Statements(cls, pieces) ==> WellFormed(cls, s)
  {
    if pieces == [] {
    } else {
      KeptPiecesGiveWellFormed(cls, pieces[1..]);
      assert pieces[0] in pieces;
      StripLeftKeeps(cls, pieces[0]);
      StripRightKeeps(cls, StripLeft(cls, pieces[0]));
    }
  }

  /** Every statement split off a text without comments or open tokens is well formed. */
  lemma SplitGivesWellFormed(cls: Classes, text: string)
    requires PlainSpaces(cls) && ClosedAndCommentFree(cls, text)
    ensures forall s :: s in Split(cls, text) ==> WellFormed(cls, s)
  {
    LexIsCanonical(cls, text);
    assert [] + Lex(cls, text) == Lex(cls, text);
    PiecesAreKept(cls, [], Lex(cls, text));
    KeptPiecesGiveWellFormed(cls, Pieces(Lex(cls, text), ""));
  }

  /** So joining the statements of such a text again and splitting once more changes nothing. */
  lemma SplitIsStable(cls: Classes, text: string)
    requires PlainSpaces(cls) && !cls.alnum(';') && ClosedAndCommentFree(cls, text)
    ensures Split(cls, Join(Split(cls, text))) == Split(cls, text)
  {
    SplitGivesWellFormed(cls, text);
    forall i | 0 <= i < |Split(cls, text)| ensures WellFormed(cls, Split(cls, text)[i]) {
      assert Split(cls, text)[i] in Split(cls, text);
    }
    SplitUndoesJoin(cls, Split(cls, text));
  }

  /** With a comment it may: removing it can put two dashes together. */
  lemma RemovedCommentGluesDashes(cls: Classes)
    requires !cls.space('-')
    ensures Split(cls, "-/**/-") == ["--"] && Split(cls, Join(["--"])) == []
  {
    GluedText(cls);
    GluedPieces(cls);
  }

  lemma GluedText(cls: Classes)
    ensures Lex(cls, "-/**/-") == [Other('-'), BlockComment("", true), Other('-')]
    ensures Lex(cls, "--") == [LineComment("", false)]
  {
    DashFirst(cls);
    CommentFirst(cls);
    DashesFirst(cls);
  }

  lemma DashFirst(cls: Classes)
    ensures Lex(cls, "-/**/-") == [Other('-')] + Lex(cls, "/**/-")
    ensures Lex(cls, "-") == [Other('-')]
  {
    assert "/**/-"[0] == '/' && ['-'] + "/**/-" == "-/**/-" && ['-'] + "" == "-";
    OtherFirst(cls, '-', "/**/-");
    OtherFirst(cls, '-', "");
    assert "-/**/-"[1..] == "/**/-" && "-"[1..] == "";
  }

  lemma CommentFirst(cls: Classes)
    ensures Lex(cls, "/**/-") == [BlockComment("", true)] + Lex(cls, "-")
  {
    var t := BlockComment("", true);
    assert Print(t) + "-" == "/**/-" && "/**/-"[4..] == "-";
    BlockCommentFirst(cls, t, "-");
  }

  lemma DashesFirst(cls: Classes)
    ensures Lex(cls, "--") == [LineComment("", false)]
  {
    assert "--"[2..] == "" && First(cls, "--") == LineComment("", false);
  }

  lemma GluedPieces(cls: Classes)
    requires !cls.space('-')
    ensures Statements(cls, Pieces([Other('-'), BlockComment("", true), Other('-')], "")) == ["--"]
    ensures Statements(cls, Pieces([LineComment("", false)], "")) == []
  {
    var t := [Other('-'), BlockComment("", true), Other('-')];
    assert t[1..][1..] == [Other('-')] && [Other('-')][1..] == [];
    assert "" + "-" == "-" && "-" + "" == "-" && "-" + "-" == "--";
    assert Pieces(t, "") == Pieces(t[1..], "-");
    assert Pieces(t[1..], "-") == Pieces([Other('-')], "-") == Pieces([], "--");
    OnePiece(cls, "--");
    assert Strip(cls, "--") == "--";
    assert Pieces([LineComment("", false)], "") == Pieces([], "" + "");
    OnePiece(cls, "");
  }
}

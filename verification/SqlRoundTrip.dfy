/** Exactly which lists of statements survive joining and splitting, and which texts split stably. */
module SqlRoundTrip {
  import opened Sequences
  import opened SqlTokens
  import opened SqlSplitter
  import opened SqlSplitterLaws

  // ---------- Counting characters ----------

  function Total(list: seq<string>): nat {
    if list == [] then 0 else |list[0]| + Total(list[1..])
  }

  /** The characters of comments that the splitter drops. */
  function Removed(tokens: seq<Token>): (n: nat)
    ensures n == 0 <==> forall t :: t in tokens ==> !t.LineComment? && !t.BlockComment?
  {
    if tokens == [] then 0 else
    assert tokens == [tokens[0]] + tokens[1..];
    (match tokens[0]
     case LineComment(body, _) => 2 + |body|
     case BlockComment(body, closed) => 2 + |body| + if closed then 2 else 0
     case _ => 0) + Removed(tokens[1..])
  }

  lemma {:induction false} JoinLength(statements: seq<string>)
    requires statements != []
    ensures |Join(statements)| == Total(statements) + |statements| - 1
  {
    if |statements| == 1 {
      assert statements[1..] == [];
    } else {
      JoinLength(statements[1..]);
    }
  }

  /** Every character of a text is in a piece, a semicolon between pieces, or a dropped comment. */
  lemma {:induction false} PiecesAccount(tokens: seq<Token>, buffer: string)
    ensures |buffer| + |PrintAll(tokens)| ==
            Total(Pieces(tokens, buffer)) + |Pieces(tokens, buffer)| - 1 + Removed(tokens)
  {
    if tokens == [] {
      assert Total([buffer]) == |buffer| + Total([buffer][1..]);
    } else if tokens[0].Semicolon? {
      PiecesAccount(tokens[1..], "");
      var rest := Pieces(tokens[1..], "");
      assert ([buffer] + rest)[1..] == rest;
    } else {
      PiecesAccount(tokens[1..], buffer + Emit(tokens[0]));
    }
  }

  lemma {:induction false} StripLeftShortens(cls: Classes, s: string)
    ensures |StripLeft(cls, s)| <= |s| && (|StripLeft(cls, s)| == |s| ==> StripLeft(cls, s) == s)
  {
    if s == "" || !cls.space(s[0]) {
    } else {
      StripLeftShortens(cls, s[1..]);
    }
  }

  lemma {:induction false} StripRightShortens(cls: Classes, s: string)
    ensures |StripRight(cls, s)| <= |s| && (|StripRight(cls, s)| == |s| ==> StripRight(cls, s) == s)
  {
    if s == "" || !cls.space(s[|s| - 1]) {
    } else {
      StripRightShortens(cls, s[..|s| - 1]);
    }
  }

  lemma StripShortens(cls: Classes, s: string)
    ensures |Strip(cls, s)| <= |s| && (|Strip(cls, s)| == |s| ==> Strip(cls, s) == s)
  {
    StripLeftShortens(cls, s);
    StripRightShortens(cls, StripLeft(cls, s));
  }

  /** Trimming and dropping blank pieces loses pieces or characters, unless every piece is trimmed and none is blank. */
  lemma {:induction false} StatementsAccount(cls: Classes, pieces: seq<string>)
    ensures var s := Statements(cls, pieces);
            && |s| <= |pieces| && Total(s) <= Total(pieces)
            && (|s| == |pieces| && Total(s) == Total(pieces) ==>
                  s == pieces && forall i :: 0 <= i < |pieces| ==> Trimmed(cls, pieces[i]))
  {
    if pieces == [] {
    } else {
      var p, rest := pieces[0], pieces[1..];
      StatementsAccount(cls, rest);
      StripShortens(cls, p);
      FirstStatementCounts(cls, p, Statements(cls, rest));
      assert pieces == [p] + rest;
    }
  }

  lemma FirstStatementCounts(cls: Classes, p: string, others: seq<string>)
    ensures var s := Statement(cls, p) + others;
            if Strip(cls, p) == "" then s == others
            else |s| == 1 + |others| && s[0] == Strip(cls, p) && s[1..] == others
                 && Total(s) == |Strip(cls, p)| + Total(others)
  {
    if Strip(cls, p) == "" {
      assert [] + others == others;
    } else {
      assert ([Strip(cls, p)] + others)[1..] == others;
    }
  }

  /** A joined list that is split into itself was cut exactly at the joints, and nothing was dropped. */
  lemma ItselfMeansNothingLost(cls: Classes, statements: seq<string>)
    requires statements != [] && Split(cls, Join(statements)) == statements
    ensures var tokens := Lex(cls, Join(statements));
            && Removed(tokens) == 0 && Pieces(tokens, "") == statements
            && forall i :: 0 <= i < |statements| ==> Trimmed(cls, statements[i])
  {
    var tokens := Lex(cls, Join(statements));
    PrintLex(cls, Join(statements));
    JoinLength(statements);
    PiecesAccount(tokens, "");
    StatementsAccount(cls, Pieces(tokens, ""));
  }

  // ---------- Reading the pieces back ----------

  lemma {:induction false} ClosedBefore(cls: Classes, a: seq<Token>, b: seq<Token>)
    requires Canonical(cls, a + b) && b != [] && b[0].Semicolon?
    ensures AllClosed(a)
  {
    if a == [] {
    } else {
      HeadTail(a, b);
      ClosedBefore(cls, a[1..], b);
      PrintJoin(a[1..], b);
      assert Print(b[0]) == ";";
    }
  }

  ghost predicate AllInner(tokens: seq<Token>) {
    forall t :: t in tokens ==> Inner(t)
  }

  /** The tokens of a piece are what the piece reads as alone. */
  lemma PieceReadsAlone(cls: Classes, before: seq<Token>, tokens: seq<Token>)
    requires Canonical(cls, before + tokens) && AllInner(before)
    requires tokens == [] || tokens[0].Semicolon?
    ensures ReadsAlone(cls, PrintAll(before), tokens == [])
  {
    if tokens == [] {
      assert before + tokens == before;
    } else {
      ClosedBefore(cls, before, tokens);
      CanonicalPrefix(cls, before, tokens);
    }
    LexPrintsBack(cls, before);
  }

  lemma {:induction false} PiecesReadAlone(cls: Classes, before: seq<Token>, tokens: seq<Token>)
    requires Canonical(cls, before + tokens) && AllInner(before)
    requires Removed(tokens) == 0
    ensures AllReadAlone(cls, Pieces(tokens, PrintAll(before)))
    decreases |tokens|
  {
    if tokens == [] {
      PieceReadsAlone(cls, before, tokens);
    } else if tokens[0].Semicolon? {
      PieceReadsAlone(cls, before, tokens);
      CanonicalSuffix(cls, before, tokens);
      assert [] + tokens[1..] == tokens[1..];
      PiecesReadAlone(cls, [], tokens[1..]);
      OneMoreReadsAlone(cls, PrintAll(before), Pieces(tokens[1..], ""));
    } else {
      var t := tokens[0];
      assert t in tokens;
      assert (before + [t]) + tokens[1..] == before + tokens;
      PrintOneMore(before, t);
      PiecesReadAlone(cls, before + [t], tokens[1..]);
    }
  }

  lemma OneMoreReadsAlone(cls: Classes, piece: string, pieces: seq<string>)
    requires pieces != [] && ReadsAlone(cls, piece, false) && AllReadAlone(cls, pieces)
    ensures AllReadAlone(cls, [piece] + pieces)
  {
    var all := [piece] + pieces;
    forall i | 0 <= i < |all| ensures ReadsAlone(cls, all[i], i + 1 == |all|) {
      assert i > 0 ==> all[i] == pieces[i - 1];
    }
  }

  // ---------- The exact conditions ----------

  /**
    Splitting gives a joined list back exactly if every statement is trimmed, not empty, and reads alone as parts of a
    statement; only the last one may leave a token open.
   */
  lemma SplitUndoesJoinExactlyWhen(cls: Classes, statements: seq<string>)
    requires !cls.alnum(';')
    ensures Split(cls, Join(statements)) == statements <==>
            (forall i :: 0 <= i < |statements| ==> Trimmed(cls, statements[i])) && AllReadAlone(cls, statements)
  {
    if statements != [] && Split(cls, Join(statements)) == statements {
      var tokens := Lex(cls, Join(statements));
      ItselfMeansNothingLost(cls, statements);
      LexIsCanonical(cls, Join(statements));
      assert [] + tokens == tokens;
      PiecesReadAlone(cls, [], tokens);
    }
    if (forall i :: 0 <= i < |statements| ==> Trimmed(cls, statements[i])) && AllReadAlone(cls, statements) {
      SplitUndoesJoin(cls, statements);
    }
  }

  lemma {:induction false} StripLeftStarts(cls: Classes, s: string)
    ensures var r := StripLeft(cls, s); r == "" || !cls.space(r[0])
  {
    if s == "" || !cls.space(s[0]) {
    } else {
      StripLeftStarts(cls, s[1..]);
    }
  }

  lemma {:induction false} StripRightIsTrimmed(cls: Classes, s: string)
    requires s == "" || !cls.space(s[0])
    ensures var r := StripRight(cls, s); r == "" || Trimmed(cls, r)
  {
    if s == "" || !cls.space(s[|s| - 1]) {
    } else {
      StripRightIsTrimmed(cls, s[..|s| - 1]);
    }
  }

  lemma {:induction false} StatementsAreTrimmed(cls: Classes, pieces: seq<string>)
    ensures forall s :: s in Statements(cls, pieces) ==> Trimmed(cls, s)
  {
    if pieces == [] {
    } else {
      StatementsAreTrimmed(cls, pieces[1..]);
      StripLeftStarts(cls, pieces[0]);
      StripRightIsTrimmed(cls, StripLeft(cls, pieces[0]));
    }
  }

  /**
    Joining the statements of a text and splitting again changes nothing exactly if each of them reads alone: removing
    comments and trimming has made no new comment, semicolon or open token, except that the last may be left open.
   */
  lemma SplitIsStableExactlyWhen(cls: Classes, text: string)
    requires !cls.alnum(';')
    ensures Split(cls, Join(Split(cls, text))) == Split(cls, text) <==> AllReadAlone(cls, Split(cls, text))
  {
    StatementsAreTrimmed(cls, Pieces(Lex(cls, text), ""));
    SplitUndoesJoinExactlyWhen(cls, Split(cls, text));
  }
}

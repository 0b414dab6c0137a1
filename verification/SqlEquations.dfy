/**
  What the splitter does with each kind of text, written out on the text itself: one equation for the end of the text
  and one for each thing that it can go on with.
 */
module SqlEquations {
  import opened Sequences
  import opened SqlTokens
  import opened SqlSplitter

  /** The statements of `text` when the current statement already holds `buffer`. */
  function Goes(cls: Classes, buffer: string, text: string): seq<string> {
    Statements(cls, Pieces(Lex(cls, text), buffer))
  }

  lemma SplitGoes(cls: Classes, text: string)
    ensures Split(cls, text) == Goes(cls, "", text)
  {
  }

  /** `t` is the first token of the text, and `rest` what follows it. */
  lemma Reads(cls: Classes, t: Token, rest: string, buffer: string)
    requires TokenOk(cls, t) && MayPrecede(cls, t, rest)
    ensures Lex(cls, Print(t) + rest) == [t] + Lex(cls, rest)
    ensures !t.Semicolon? ==> Goes(cls, buffer, Print(t) + rest) == Goes(cls, buffer + Emit(t), rest)
  {
    var s := Print(t) + rest;
    FirstOfPrint(cls, t, rest);
    assert s[|Print(t)|..] == rest;
    Unfold(cls, s, buffer);
  }

  // ---------- Trimming ----------

  lemma {:induction false} StripLeftRemoves(cls: Classes, s: string) returns (l: string)
    ensures s == l + StripLeft(cls, s) && forall c :: c in l ==> cls.space(c)
    ensures StripLeft(cls, s) == "" || !cls.space(StripLeft(cls, s)[0])
  {
    if s == "" || !cls.space(s[0]) {
      l := "";
    } else {
      var k := StripLeftRemoves(cls, s[1..]);
      l := [s[0]] + k;
    }
  }

  lemma {:induction false} StripRightRemoves(cls: Classes, s: string) returns (r: string)
    ensures s == StripRight(cls, s) + r && forall c :: c in r ==> cls.space(c)
    ensures StripRight(cls, s) == "" || !cls.space(StripRight(cls, s)[|StripRight(cls, s)| - 1])
  {
    if s == "" || !cls.space(s[|s| - 1]) {
      r := "";
    } else {
      var k := StripRightRemoves(cls, s[..|s| - 1]);
      r := k + [s[|s| - 1]];
    }
  }

  /** Trimming removes characters of the trimmed class from both ends, and all of them. */
  lemma StripRemoves(cls: Classes, s: string) returns (l: string, r: string)
    ensures var t := Strip(cls, s);
            && s == l + t + r && (forall c :: c in l + r ==> cls.space(c))
            && (t == "" || (!cls.space(t[0]) && !cls.space(t[|t| - 1])))
  {
    l := StripLeftRemoves(cls, s);
    r := StripRightRemoves(cls, StripLeft(cls, s));
    assert l + StripLeft(cls, s) == l + Strip(cls, s) + r;
  }

  // ---------- The end of the text, and semicolons ----------

  /** What is left at the end is the last statement, trimmed, unless it is blank. */
  lemma AtTheEnd(cls: Classes, buffer: string)
    ensures Goes(cls, buffer, "") == if Strip(cls, buffer) == "" then [] else [Strip(cls, buffer)]
  {
    assert Lex(cls, "") == [];
    assert [buffer][1..] == [];
    assert Statements(cls, [buffer]) == Statement(cls, buffer) + Statements(cls, []);
  }

  /** A semicolon ends the statement. */
  lemma AtSemicolon(cls: Classes, buffer: string, rest: string)
    ensures Goes(cls, buffer, ";" + rest) ==
            (if Strip(cls, buffer) == "" then [] else [Strip(cls, buffer)]) + Goes(cls, "", rest)
  {
    Reads(cls, Semicolon, rest, buffer);
    var tokens := [Semicolon] + Lex(cls, rest);
    assert tokens[1..] == Lex(cls, rest);
    assert ([buffer] + Pieces(tokens[1..], ""))[1..] == Pieces(Lex(cls, rest), "");
  }

  // ---------- Comments ----------

  /** A line comment leaves its newline only; without one it reaches to the end. */
  lemma AtLineComment(cls: Classes, buffer: string, body: string, rest: string)
    requires '\n' !in body
    ensures Goes(cls, buffer, "--" + body + "\n" + rest) == Goes(cls, buffer + "\n", rest)
    ensures Goes(cls, buffer, "--" + body) == Goes(cls, buffer, "")
  {
    Reads(cls, LineComment(body, true), rest, buffer);
    Reads(cls, LineComment(body, false), "", buffer);
    assert "--" + body + "" + "" == "--" + body && buffer + "" == buffer;
  }

  /** A block comment reaches to the first end mark, or to the end, and leaves nothing: comments do not nest. */
  lemma AtBlockComment(cls: Classes, buffer: string, body: string, rest: string)
    ensures (forall i :: 0 <= i < |body| ==> !("*/" <= (body + "*/")[i..])) ==>
              Goes(cls, buffer, "/*" + body + "*/" + rest) == Goes(cls, buffer, rest)
    ensures (forall i :: 0 <= i < |body| ==> !("*/" <= body[i..])) ==>
              Goes(cls, buffer, "/*" + body) == Goes(cls, buffer, "")
  {
    assert buffer + "" == buffer;
    if Avoids(body, "*/") {
      Reads(cls, BlockComment(body, true), rest, buffer);
    }
    if Absent(body, "*/") {
      Reads(cls, BlockComment(body, false), "", buffer);
      assert "/*" + body + "" + "" == "/*" + body;
    }
  }

  // ---------- Quotes ----------

  /** The parts, with a doubled quote between any two. */
  function Doubled(parts: seq<string>, q: char): string
    requires parts != []
  {
    if |parts| == 1 then parts[0] else parts[0] + [q, q] + Doubled(parts[1..], q)
  }

  lemma {:induction false} PlainPrefix(a: string, b: string, q: char)
    requires q !in a
    ensures QuotesDoubled(a + b, q) == QuotesDoubled(b, q)
  {
    if a == "" {
      assert a + b == b;
    } else {
      assert (a + b)[0] == a[0] && (a + b)[1..] == a[1..] + b;
      PlainPrefix(a[1..], b, q);
    }
  }

  lemma {:induction false} DoubledIsDoubled(parts: seq<string>, q: char)
    requires parts != [] && forall p :: p in parts ==> q !in p
    ensures QuotesDoubled(Doubled(parts, q), q)
  {
    if |parts| == 1 {
      PlainPrefix(parts[0], "", q);
      assert parts[0] + "" == parts[0];
    } else {
      var tail := Doubled(parts[1..], q);
      DoubledIsDoubled(parts[1..], q);
      PlainPrefix(parts[0], [q, q] + tail, q);
      assert ([q, q] + tail)[2..] == tail;
      assert Doubled(parts, q) == parts[0] + ([q, q] + tail);
    }
  }

  /** A quoted string, in which a doubled quote stands for one, is kept whole, semicolons and all. */
  lemma AtQuote(cls: Classes, buffer: string, q: char, parts: seq<string>, rest: string)
    requires q in "'\"" && parts != [] && forall p :: p in parts ==> q !in p
    ensures var quoted := [q] + Doubled(parts, q);
            && (!([q] <= rest) ==> Goes(cls, buffer, quoted + [q] + rest) == Goes(cls, buffer + (quoted + [q]), rest))
            && Goes(cls, buffer, quoted) == Goes(cls, buffer + quoted, "")
  {
    var body := Doubled(parts, q);
    DoubledIsDoubled(parts, q);
    assert [q] <= rest <==> rest != "" && rest[0] == q;
    if !([q] <= rest) {
      Reads(cls, Quoted(q, body, true), rest, buffer);
    }
    OpenQuoteGoes(cls, buffer, q, body);
  }

  lemma OpenQuoteGoes(cls: Classes, buffer: string, q: char, body: string)
    requires IsQuote(q) && QuotesDoubled(body, q)
    ensures Goes(cls, buffer, [q] + body) == Goes(cls, buffer + ([q] + body), "")
  {
    Reads(cls, Quoted(q, body, false), "", buffer);
    assert [q] + body + "" + "" == [q] + body;
    assert [q] + body + "" == [q] + body;
  }

  // ---------- Dollar quotes ----------

  /** Letters, digits and underscores, or nothing. */
  predicate IsTagBody(cls: Classes, t: string) {
    forall c :: c in t ==> c != '$' && (cls.alnum(c) || c == '_')
  }

  /** A dollar block reaches to the next occurrence of its tag, or to the end, and is kept whole. */
  lemma AtDollarBlock(cls: Classes, buffer: string, t: string, body: string, rest: string)
    requires IsTagBody(cls, t)
    ensures var tag := "$" + t + "$";
            && ((forall i :: 0 <= i < |body| ==> !(tag <= (body + tag)[i..])) ==>
                  Goes(cls, buffer, tag + body + tag + rest) == Goes(cls, buffer + (tag + body + tag), rest))
            && ((forall i :: 0 <= i < |body| ==> !(tag <= body[i..])) ==>
                  Goes(cls, buffer, tag + body) == Goes(cls, buffer + (tag + body), ""))
  {
    var tag := "$" + t + "$";
    assert tag[1..|tag| - 1] == t;
    assert IsTag(cls, tag);
    if Avoids(body, tag) {
      Reads(cls, Dollar(tag, body, true), rest, buffer);
    }
    if Absent(body, tag) {
      Reads(cls, Dollar(tag, body, false), "", buffer);
      assert tag + body + "" + "" == tag + body && tag + body + "" == tag + body;
    }
  }

  /** The text goes on with the rest of a tag. */
  ghost predicate TagFollows(cls: Classes, rest: string) {
    exists t :: t + "$" <= rest && IsTagBody(cls, t)
  }

  lemma TagFollowsExactlyWhen(cls: Classes, rest: string)
    ensures HasTag(cls, rest) <==> TagFollows(cls, rest)
  {
    var n := Find(rest, "$");
    FindAvoids(rest, "$");
    if HasTag(cls, rest) {
      var t := rest[..n];
      forall i | 0 <= i < n ensures t[i] != '$' {
        assert (t + "$")[i..][0] == t[i];
        assert (t + "$")[i..] == [t[i]] + (t + "$")[i + 1..];
      }
      assert rest == t + rest[n..] && t + "$" <= rest;
    }
    if t :| t + "$" <= rest && IsTagBody(cls, t) {
      forall i | 0 <= i < |t| ensures !("$" <= (t + "$")[i..]) {
        assert t[i] in t && (t + "$")[i..][0] == t[i];
      }
      var more := rest[|t| + 1..];
      assert rest == t + "$" + more;
      FindPast(t, "$", more);
    }
  }

  // ---------- Any other character ----------

  /** Nothing that a comment, quote, tag or semicolon begins with. */
  ghost predicate IsOrdinary(cls: Classes, c: char, rest: string) {
    && c !in ";'\""
    && !(c == '-' && "-" <= rest) && !(c == '/' && "*" <= rest) && !(c == '$' && TagFollows(cls, rest))
  }

  /** Any other character is kept. */
  lemma AtOrdinary(cls: Classes, buffer: string, c: char, rest: string)
    requires IsOrdinary(cls, c, rest)
    ensures Goes(cls, buffer, [c] + rest) == Goes(cls, buffer + [c], rest)
  {
    TagFollowsExactlyWhen(cls, rest);
    Reads(cls, Other(c), rest, buffer);
  }

  // ---------- Two consequences ----------

  /** A dollar block on its own is one statement, with all the semicolons in it. */
  lemma DollarBlockIsOneStatement(cls: Classes, t: string, body: string)
    requires IsTagBody(cls, t) && !cls.space('$')
    requires var tag := "$" + t + "$"; forall i :: 0 <= i < |body| ==> !(tag <= (body + tag)[i..])
    ensures var tag := "$" + t + "$"; Split(cls, tag + body + tag) == [tag + body + tag]
  {
    var tag := "$" + t + "$";
    var s := tag + body + tag;
    AtDollarBlock(cls, "", t, body, "");
    assert s + "" == s && "" + s == s;
    AtTheEnd(cls, s);
    AlreadyTrimmed(cls, s);
  }

  /** A quoted string on its own is one statement, with all the semicolons in it. */
  lemma QuotedIsOneStatement(cls: Classes, q: char, parts: seq<string>)
    requires q in "'\"" && !cls.space(q) && parts != [] && forall p :: p in parts ==> q !in p
    ensures var s := [q] + Doubled(parts, q) + [q]; Split(cls, s) == [s]
  {
    var s := [q] + Doubled(parts, q) + [q];
    AtQuote(cls, "", q, parts, "");
    assert s + "" == s && "" + s == s;
    AtTheEnd(cls, s);
    AlreadyTrimmed(cls, s);
  }

  lemma AlreadyTrimmed(cls: Classes, s: string)
    requires s != "" && !cls.space(s[0]) && !cls.space(s[|s| - 1])
    ensures Strip(cls, s) == s
  {
  }
}

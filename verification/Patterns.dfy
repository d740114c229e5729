/** Reading STIX patterns with alternatives, and the escapers said in literal characters. */
module Patterns {
  import opened Machine
  import opened Escaping
  import Grammar

  // ----- Markdown, character by character -----

  /** The nine characters Markdown reads in any column are the ones made inert, whatever stands around them. */
  lemma {:induction false} NineAreEscaped(c: char)
    requires c in {'\\', '`', '*', '_', '[', ']', '|', '<', '>'}
    ensures Escaped([c]) == ['\\', c]
  {
    assert [c][1..] == "";
    assert Escaped("") == "" && ['\\', c] + "" == ['\\', c];
  }

  /** Text with none of them and no line break is left exactly as it is: addresses and identifiers stay readable. */
  lemma {:induction false} PlainStaysPlain(s: string)
    requires forall i :: 0 <= i < |s| ==> s[i] !in {'\\', '`', '*', '_', '[', ']', '|', '<', '>', '\n', '\r'}
    ensures Escaped(s) == s
  {
    if s != "" {
      PlainStaysPlain(s[1..]);
      assert s == [s[0]] + s[1..];
    }
  }

  /** Each line break is one space. */
  lemma {:induction false} BreaksAreSpaces()
    ensures Escaped("\n") == " " && Escaped("\r") == " "
  {
    assert "\n"[1..] == "" && "\r"[1..] == "" && Escaped("") == "";
    assert " " + "" == " ";
  }

  // ----- STIX literals -----

  /** An escape other than of a quote or a backslash is kept as it was written. */
  lemma {:induction false} OtherEscapesStay(c: char, rest: string)
    requires c != '\'' && c != '\\'
    ensures ScanLiteral(['\\', c] + rest) ==
              match ScanLiteral(rest) case None => None case Some((value, after)) => Some((['\\', c] + value, after))
  {
    assert (['\\', c] + rest)[2..] == rest;
  }

  // ----- patterns with alternatives -----

  /** One comparison as a pattern writes it. */
  function Term(term: (string, string)): string {
    term.0 + (" " + ("=" + (" " + ("'" + EscapePattern(term.1) + "'"))))
  }

  /** Comparisons joined by a word, up to the closing bracket. */
  function Joined(terms: seq<(string, string)>, word: string): string
    requires terms != []
  {
    if |terms| == 1 then Term(terms[0]) + "]" else Term(terms[0]) + (" " + (word + (" " + Joined(terms[1..], word))))
  }

  /** A whole pattern. */
  function Pattern(terms: seq<(string, string)>, word: string): string
    requires terms != []
  {
    "[" + Joined(terms, word)
  }

  /** Its tokens after the opening bracket. */
  function TokensOf(terms: seq<(string, string)>, word: string): seq<Token>
    requires terms != []
  {
    var first := [Word(terms[0].0), Symbol("="), Quoted(terms[0].1)];
    if |terms| == 1 then first + [Close] else first + ([Keyword(word)] + TokensOf(terms[1..], word))
  }

  ghost predicate ObjectPaths(terms: seq<(string, string)>) {
    forall i :: 0 <= i < |terms| ==> ObjectPath(terms[i].0)
  }

  lemma {:induction false} TokenizesTerm(term: (string, string), rest: string, tokens: seq<Token>)
    requires ObjectPath(term.0) && Tokenize(rest) == Some(tokens)
    ensures Tokenize(Term(term) + rest) == Some([Word(term.0), Symbol("="), Quoted(term.1)] + tokens)
  {
    var literal := "'" + EscapePattern(term.1) + "'";
    var quoted := " " + (literal + rest);
    var equals := " " + ("=" + quoted);
    assert IsSpace(' ');
    Regroup(" ", literal, rest);
    Regroup("=", " " + literal, rest);
    Regroup(" ", "=" + (" " + literal), rest);
    Regroup(term.0, " " + ("=" + (" " + literal)), rest);
    TokenizesWord(term.0, equals);
    Skips("=" + quoted);
    TokenizesMark('=', quoted);
    Skips(literal + rest);
    TokenizesLiteral(term.1, rest);
    ThreeMore(term.0, term.1, tokens);
  }

  lemma {:induction false} ThreeMore(path: string, value: string, tokens: seq<Token>)
    ensures After(Word(path), After(Symbol("="), After(Quoted(value), Some(tokens))))
         == Some([Word(path), Symbol("="), Quoted(value)] + tokens)
  {
    assert [Symbol("=")] + ([Quoted(value)] + tokens) == [Symbol("="), Quoted(value)] + tokens;
    assert [Word(path)] + ([Symbol("="), Quoted(value)] + tokens)
        == [Word(path), Symbol("="), Quoted(value)] + tokens;
  }

  /** `OR` and `AND` between spaces are keywords. */
  lemma {:induction false} TokenizesJoin(word: string, rest: string, tokens: seq<Token>)
    requires word == "OR" || word == "AND"
    requires Tokenize(rest) == Some(tokens)
    ensures Tokenize(" " + (word + (" " + rest))) == Some([Keyword(word)] + tokens)
  {
    Skips(word + (" " + rest));
    SpelledInCapitals(word);
    Grammar.OneToken(Keyword(word), word, rest);
  }

  lemma {:induction false} SpelledInCapitals(word: string)
    requires word == "OR" || word == "AND"
    ensures Grammar.Spells(Keyword(word), word)
  {
    assert Grammar.RESERVED[0] == "AND" && Grammar.RESERVED[1] == "OR";
  }

  lemma {:induction false} TokenizesClose()
    ensures Tokenize("]") == Some([Close])
  {
    TokenizesMark(']', "");
    assert [']'] + "" == "]" && [Close] + [] == [Close];
  }

  lemma {:induction false} JoinedTokens(terms: seq<(string, string)>, word: string)
    requires terms != [] && ObjectPaths(terms) && (word == "OR" || word == "AND")
    ensures Tokenize(Joined(terms, word)) == Some(TokensOf(terms, word))
  {
    if |terms| == 1 {
      TokenizesClose();
      TokenizesTerm(terms[0], "]", [Close]);
    } else {
      JoinedTokens(terms[1..], word);
      TokenizesJoin(word, Joined(terms[1..], word), TokensOf(terms[1..], word));
      var rest := " " + (word + (" " + Joined(terms[1..], word)));
      TokenizesTerm(terms[0], rest, [Keyword(word)] + TokensOf(terms[1..], word));
    }
  }

  /** One comparison read off the front. */
  lemma {:induction false} PathRead(term: (string, string), rest: seq<Token>)
    ensures ReadPath([Word(term.0), Symbol("="), Quoted(term.1)] + rest)
         == Some((term.0, [Symbol("="), Quoted(term.1)] + rest))
  {
    var equals := [Symbol("="), Quoted(term.1)] + rest;
    assert ([Word(term.0), Symbol("="), Quoted(term.1)] + rest)[1..] == equals;
    assert ReadPath(equals) == Some(("", equals)) && term.0 + "" == term.0;
  }

  lemma {:induction false} AlternativesRead(terms: seq<(string, string)>, read: seq<(string, string)>)
    requires terms != [] && ObjectPaths(terms)
    ensures ReadComparisons(TokensOf(terms, "OR"), read)
         == if |read| + |terms| <= 64 then Some(read + terms) else None
    decreases |terms|
  {
    var more := if |terms| == 1 then [Close] else [Keyword("OR")] + TokensOf(terms[1..], "OR");
    PathRead(terms[0], more);
    var equals := [Symbol("="), Quoted(terms[0].1)] + more;
    assert terms[0].0 != "" && |equals| >= 3 && equals[1] == Quoted(terms[0].1) && equals[2] == more[0];
    assert terms == [terms[0]] + terms[1..];
    if |terms| > 1 {
      assert equals[3..] == TokensOf(terms[1..], "OR");
      AlternativesRead(terms[1..], read + [terms[0]]);
      Regroup(read, [terms[0]], terms[1..]);
    } else {
      assert read + [terms[0]] == read + terms;
    }
  }

  /**
   A disjunction is read as its alternatives, each once and in order, whatever values they quote, up to sixty-four of
   them; over that it is refused whole.
   */
  lemma {:induction false} AlternativesReadBack(terms: seq<(string, string)>)
    requires terms != [] && ObjectPaths(terms)
    ensures Comparisons(Pattern(terms, "OR")) == if |terms| <= 64 then Some(terms) else None
  {
    JoinedTokens(terms, "OR");
    TokenizesMark('[', Joined(terms, "OR"));
    var tokens := [Open] + TokensOf(terms, "OR");
    assert ['['] + Joined(terms, "OR") == Pattern(terms, "OR") && tokens[1..] == TokensOf(terms, "OR");
    AlternativesRead(terms, []);
    assert [] + terms == terms;
  }

  /** A conjunction is refused whole: no part of it is read as an alternative. */
  lemma {:induction false} ConjunctionsAreRefused(terms: seq<(string, string)>)
    requires |terms| >= 2 && ObjectPaths(terms)
    ensures Comparisons(Pattern(terms, "AND")) == None
  {
    JoinedTokens(terms, "AND");
    TokenizesMark('[', Joined(terms, "AND"));
    var tokens := [Open] + TokensOf(terms, "AND");
    assert ['['] + Joined(terms, "AND") == Pattern(terms, "AND") && tokens[1..] == TokensOf(terms, "AND");
    var more := [Keyword("AND")] + TokensOf(terms[1..], "AND");
    PathRead(terms[0], more);
    assert ([Symbol("="), Quoted(terms[0].1)] + more)[2] == Keyword("AND");
  }
}

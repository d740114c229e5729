/**
 The two export escapers, the oracle they must satisfy, and the readers that undo them. The STIX pattern
 reader is the one the ingest side uses, so what is exported is read back by Brolga itself.
 */
module Escaping {
  import opened Machine

  // ----- the oracle -----

  /** Whether `needle` appears where an even number of backslashes has just gone by. `odd` says how many so far. */
  predicate Exposes(s: string, odd: bool, needle: char) {
    if s == "" then false
    else if s[0] == '\\' then Exposes(s[1..], !odd, needle)
    else (s[0] == needle && !odd) || Exposes(s[1..], false, needle)
  }

  /** How many backslashes stand directly before a position. */
  function RunBefore(s: string, i: nat): nat
    requires i <= |s|
  {
    if i == 0 || s[i - 1] != '\\' then 0 else 1 + RunBefore(s, i - 1)
  }

  /** The oracle's loop, counting backslashes. */
  method HasUnescaped(value: string, needle: char) returns (found: bool)
    ensures found <==> Exposes(value, false, needle)
  {
    var backslashes := 0;
    for i := 0 to |value|
      invariant backslashes >= 0
      invariant Exposes(value, false, needle) <==> Exposes(value[i..], backslashes % 2 == 1, needle)
    {
      assert value[i..][1..] == value[i + 1..];
      if value[i] == '\\' {
        backslashes := backslashes + 1;
      } else {
        if value[i] == needle && backslashes % 2 == 0 {
          return true;
        }
        backslashes := 0;
      }
    }
    return false;
  }

  lemma {:induction false} ExposesFrom(s: string, i: nat, needle: char)
    requires i <= |s|
    ensures Exposes(s[i..], RunBefore(s, i) % 2 == 1, needle) <==>
              exists k :: i <= k < |s| && s[k] == needle && needle != '\\' && RunBefore(s, k) % 2 == 0
    decreases |s| - i
  {
    if i < |s| {
      ExposesFrom(s, i + 1, needle);
      assert s[i..][1..] == s[i + 1..];
    }
  }

  /** The oracle says what it is documented to: a needle with an even run of backslashes before it. */
  lemma {:induction false} OracleMeans(s: string, needle: char)
    ensures Exposes(s, false, needle) <==>
              exists k :: 0 <= k < |s| && s[k] == needle && needle != '\\' && RunBefore(s, k) % 2 == 0
  {
    ExposesFrom(s, 0, needle);
    assert s[0..] == s;
  }

  // ----- Markdown -----

  /** Characters Markdown reads in any column. */
  predicate Active(c: char) {
    c == '\\' || c == '`' || c == '*' || c == '_' || c == '[' || c == ']' || c == '|' || c == '<' || c == '>'
  }

  predicate LineBreak(c: char) {
    c == '\n' || c == '\r'
  }

  function EscapedChar(c: char): string {
    if Active(c) then ['\\', c] else if LineBreak(c) then " " else [c]
  }

  function Escaped(s: string): string {
    if s == "" then "" else EscapedChar(s[0]) + Escaped(s[1..])
  }

  method Escape(value: string) returns (out: string)
    ensures out == Escaped(value)
  {
    out := "";
    for i := 0 to |value|
      invariant out + Escaped(value[i..]) == Escaped(value)
    {
      var character := value[i];
      assert value[i..][1..] == value[i + 1..];
      assert Escaped(value[i..]) == EscapedChar(character) + Escaped(value[i + 1..]);
      Regroup(out, EscapedChar(character), Escaped(value[i + 1..]));
      Regroup(out, ['\\'], [character]);
      assert ['\\'] + [character] == ['\\', character];
      if Active(character) {
        out := out + ['\\'];
        out := out + [character];
      } else if LineBreak(character) {
        out := out + [' '];
      } else {
        out := out + [character];
      }
    }
  }

  /** Reading escaped text: a backslash stands for the character after it. */
  function Unescaped(s: string): string {
    if s == "" then ""
    else if s[0] == '\\' && |s| > 1 then [s[1]] + Unescaped(s[2..])
    else [s[0]] + Unescaped(s[1..])
  }

  /** A text with its line breaks as spaces. */
  function OneLine(s: string): string {
    if s == "" then "" else [if LineBreak(s[0]) then ' ' else s[0]] + OneLine(s[1..])
  }

  lemma {:induction false} MarkdownHides(s: string, rest: string, needle: char)
    requires Active(needle)
    ensures Exposes(Escaped(s) + rest, false, needle) <==> Exposes(rest, false, needle)
  {
    if s == "" {
      assert Escaped(s) + rest == rest;
    } else {
      var more := Escaped(s[1..]) + rest;
      MarkdownHides(s[1..], rest, needle);
      Regroup(EscapedChar(s[0]), Escaped(s[1..]), rest);
      HidesOne(s[0], more, needle);
    }
  }

  lemma {:induction false} HidesOne(c: char, more: string, needle: char)
    requires Active(needle)
    ensures Exposes(EscapedChar(c) + more, false, needle) <==> Exposes(more, false, needle)
  {
    var s := EscapedChar(c) + more;
    if Active(c) {
      assert s[1..] == [c] + more && ([c] + more)[1..] == more;
    } else {
      assert s[1..] == more;
    }
  }

  lemma {:induction false} MarkdownIsOneLine(s: string)
    ensures forall i :: 0 <= i < |Escaped(s)| ==> !LineBreak(Escaped(s)[i])
  {
    if s != "" {
      MarkdownIsOneLine(s[1..]);
    }
  }

  lemma {:induction false} ReadsOne(c: char, more: string)
    ensures Unescaped(EscapedChar(c) + more) == [if LineBreak(c) then ' ' else c] + Unescaped(more)
  {
    if Active(c) {
      assert (['\\', c] + more)[2..] == more;
    } else {
      assert (EscapedChar(c) + more)[1..] == more;
    }
  }

  lemma {:induction false} MarkdownReadsBack(s: string, rest: string)
    ensures Unescaped(Escaped(s) + rest) == OneLine(s) + Unescaped(rest)
  {
    if s == "" {
      assert Escaped(s) + rest == rest && OneLine(s) + Unescaped(rest) == Unescaped(rest);
    } else {
      var more := Escaped(s[1..]) + rest;
      MarkdownReadsBack(s[1..], rest);
      Regroup(EscapedChar(s[0]), Escaped(s[1..]), rest);
      ReadsOne(s[0], more);
      Regroup([if LineBreak(s[0]) then ' ' else s[0]], OneLine(s[1..]), Unescaped(rest));
    }
  }

  /**
   For every text, whatever follows it: no active character is left unescaped and no line break survives,
   and reading the escaped text back gives the text with its line breaks as spaces.
   */
  lemma {:induction false} MarkdownIsInert(s: string, rest: string, needle: char)
    requires Active(needle)
    ensures Exposes(Escaped(s) + rest, false, needle) <==> Exposes(rest, false, needle)
    ensures !Exposes(Escaped(s), false, needle)
    ensures forall i :: 0 <= i < |Escaped(s)| ==> !LineBreak(Escaped(s)[i])
    ensures Unescaped(Escaped(s)) == OneLine(s)
  {
    MarkdownHides(s, rest, needle);
    MarkdownHides(s, "", needle);
    MarkdownIsOneLine(s);
    MarkdownReadsBack(s, "");
    assert Escaped(s) + "" == Escaped(s) && OneLine(s) + "" == OneLine(s);
  }

  // ----- STIX patterns -----

  /** Every occurrence of one character replaced. */
  function Replace(s: string, c: char, with: string): string {
    if s == "" then "" else (if s[0] == c then with else [s[0]]) + Replace(s[1..], c, with)
  }

  /** Backslashes first, then quotes. */
  function EscapePattern(value: string): string {
    Replace(Replace(value, '\\', "\\\\"), '\'', "\\'")
  }

  /** What one character becomes inside a literal. */
  function Quotable(c: char): string {
    if c == '\\' || c == '\'' then ['\\', c] else [c]
  }

  /** The same in one pass. */
  function SinglePass(s: string): string {
    if s == "" then ""
    else Quotable(s[0]) + SinglePass(s[1..])
  }

  lemma {:induction false} ReplaceAppends(a: string, b: string, c: char, with: string)
    ensures Replace(a + b, c, with) == Replace(a, c, with) + Replace(b, c, with)
  {
    if a == "" {
      assert a + b == b;
    } else {
      assert (a + b)[1..] == a[1..] + b;
      ReplaceAppends(a[1..], b, c, with);
    }
  }

  /** The second pass never touches what the first one added. */
  lemma {:induction false} TwoPassesAreOne(s: string)
    ensures EscapePattern(s) == SinglePass(s)
  {
    if s != "" {
      var first := if s[0] == '\\' then "\\\\" else [s[0]];
      TwoPassesAreOne(s[1..]);
      ReplaceAppends(first, Replace(s[1..], '\\', "\\\\"), '\'', "\\'");
      assert first[1..] == if s[0] == '\\' then "\\" else "";
      assert "\\"[1..] == "";
    }
  }

  /** Read to the quote that closes a literal: the value, and what follows the quote. */
  function ScanLiteral(s: string): (r: Option<(string, string)>)
    ensures r.Some? ==> |r.value.1| < |s|
  {
    if s == "" then None
    else if s[0] == '\'' then Some(("", s[1..]))
    else if s[0] == '\\' then
      if |s| == 1 then None
      else
        match ScanLiteral(s[2..])
        case None => None
        case Some((value, rest)) =>
          Some(((if s[1] == '\'' || s[1] == '\\' then [s[1]] else ['\\', s[1]]) + value, rest))
    else
      match ScanLiteral(s[1..])
      case None => None
      case Some((value, rest)) => Some(([s[0]] + value, rest))
  }

  lemma {:induction false} ScansOne(c: char, more: string)
    ensures ScanLiteral(Quotable(c) + more) ==
              match ScanLiteral(more) case None => None case Some((value, rest)) => Some(([c] + value, rest))
    ensures Exposes(Quotable(c) + more, false, '\'') <==> Exposes(more, false, '\'')
  {
    var s := Quotable(c) + more;
    if c == '\\' || c == '\'' {
      assert s[2..] == more && s[1..] == [c] + more && ([c] + more)[1..] == more;
    } else {
      assert s[1..] == more;
    }
  }

  /** An escaped value between quotes is read back as itself, and its literal ends where it was closed. */
  lemma {:induction false} LiteralReadsBack(value: string, rest: string)
    ensures ScanLiteral(EscapePattern(value) + "'" + rest) == Some((value, rest))
    ensures !Exposes(EscapePattern(value), false, '\'')
  {
    TwoPassesAreOne(value);
    if value == "" {
      assert "" + "'" + rest == "'" + rest && ("'" + rest)[1..] == rest;
    } else {
      LiteralReadsBack(value[1..], rest);
      TwoPassesAreOne(value[1..]);
      var tail := SinglePass(value[1..]);
      assert SinglePass(value) == Quotable(value[0]) + tail;
      Regroup(Quotable(value[0]), tail, "'");
      Regroup(Quotable(value[0]), tail + "'", rest);
      ScansOne(value[0], tail + "'" + rest);
      ScansOne(value[0], tail);
      assert value == [value[0]] + value[1..];
    }
  }

  // ----- reading a whole pattern -----

  datatype Token =
    | Open | Close | Quoted(value: string) | Word(text: string) | Keyword(text: string) | Symbol(text: string)

  const KEYWORDS: set<string> :=
    {"AND", "OR", "NOT", "FOLLOWEDBY", "LIKE", "MATCHES", "ISSUBSET", "ISSUPERSET",
     "IN", "EXISTS", "REPEATS", "TIMES", "WITHIN", "SECONDS", "START", "STOP"}

  const MAX_ALTERNATIVES := 64

  predicate Delimits(c: char) {
    IsSpace(c) || c in {'\'', '[', ']', '(', ')', '=', '!', '<', '>', ','}
  }

  function Upper(s: string): string {
    if s == "" then "" else [if 'a' <= s[0] <= 'z' then ((s[0] as int) - 32) as char else s[0]] + Upper(s[1..])
  }

  /** How many characters from the front of a text belong to one word. */
  function WordLength(s: string): (n: nat)
    ensures n <= |s|
  {
    if s == "" || Delimits(s[0]) then 0 else 1 + WordLength(s[1..])
  }

  /** Split a pattern into tokens; the one failure is a literal that never closes. */
  function Tokenize(s: string): Option<seq<Token>>
    decreases |s|
  {
    if s == "" then Some([])
    else if IsSpace(s[0]) then Tokenize(s[1..])
    else if s[0] == '[' then After(Open, Tokenize(s[1..]))
    else if s[0] == ']' then After(Close, Tokenize(s[1..]))
    else if s[0] == '\'' then
      match ScanLiteral(s[1..])
      case None => None
      case Some((value, rest)) => After(Quoted(value), Tokenize(rest))
    else if s[0] == '=' then After(Symbol("="), Tokenize(s[1..]))
    else if s[0] in {'!', '<', '>'} then
      if |s| > 1 && s[1] == '=' then After(Symbol([s[0], '=']), Tokenize(s[2..]))
      else After(Symbol([s[0]]), Tokenize(s[1..]))
    else if s[0] in {'(', ')', ','} then After(Symbol([s[0]]), Tokenize(s[1..]))
    else
      var n := 1 + WordLength(s[1..]);
      var word := s[..n];
      After(if Upper(word) in KEYWORDS then Keyword(Upper(word)) else Word(word), Tokenize(s[n..]))
  }

  function After(token: Token, rest: Option<seq<Token>>): Option<seq<Token>> {
    if rest.Some? then Some([token] + rest.value) else None
  }

  /** The object path before an `=`, and the tokens from the `=` on. */
  function ReadPath(tokens: seq<Token>): (r: Option<(string, seq<Token>)>)
    ensures r.Some? ==> 0 < |r.value.1| <= |tokens| && r.value.1[0] == Symbol("=")
  {
    if tokens == [] then None
    else
      match tokens[0]
      case Word(text) => Prefixed(text, ReadPath(tokens[1..]))
      case Quoted(value) => Prefixed("'" + value + "'", ReadPath(tokens[1..]))
      case Symbol(text) => if text == "=" then Some(("", tokens)) else None
      case _ => None
  }

  function Prefixed(text: string, rest: Option<(string, seq<Token>)>): Option<(string, seq<Token>)> {
    if rest.Some? then Some((text + rest.value.0, rest.value.1)) else None
  }

  /** The comparisons of one bracketed expression joined by `OR`, after its `[`; anything else is refused whole. */
  function ReadComparisons(tokens: seq<Token>, read: seq<(string, string)>): Option<seq<(string, string)>>
    decreases |tokens|
  {
    match ReadPath(tokens)
    case None => None
    case Some((path, rest)) =>
      if path == "" || |rest| < 3 || !rest[1].Quoted? then None
      else
        var all := read + [(path, rest[1].value)];
        if |all| > MAX_ALTERNATIVES then None
        else if rest[2] == Keyword("OR") then ReadComparisons(rest[3..], all)
        else if rest[2].Close? && |rest| == 3 then Some(all)
        else None
  }

  /** What a pattern asserts, as object paths and values. */
  function Comparisons(pattern: string): Option<seq<(string, string)>> {
    match Tokenize(pattern)
    case None => None
    case Some(tokens) => if tokens != [] && tokens[0].Open? then ReadComparisons(tokens[1..], []) else None
  }

  /** The pattern exported for one value of one object path. */
  function PatternFor(path: string, value: string): string {
    "[" + path + " = '" + EscapePattern(value) + "']"
  }

  /** A type and key joined by a colon, with nothing in it that ends a word. */
  predicate ObjectPath(path: string) {
    ':' in path && forall i :: 0 <= i < |path| ==> !Delimits(path[i])
  }

  lemma {:induction false} WordEnds(word: string, rest: string)
    requires forall i :: 0 <= i < |word| ==> !Delimits(word[i])
    requires rest != "" && Delimits(rest[0])
    ensures WordLength(word + rest) == |word|
  {
    if word == "" {
      assert word + rest == rest;
    } else {
      assert (word + rest)[1..] == word[1..] + rest;
      WordEnds(word[1..], rest);
    }
  }

  lemma {:induction false} ColonSurvives(s: string)
    ensures |Upper(s)| == |s|
    ensures ':' in s ==> ':' in Upper(s)
  {
    if s != "" {
      ColonSurvives(s[1..]);
      assert s == [s[0]] + s[1..];
      assert s[0] == ':' ==> Upper(s)[0] == ':';
      assert forall i :: 0 <= i < |s| - 1 ==> Upper(s)[i + 1] == Upper(s[1..])[i];
      if ':' in s[1..] {
        var i :| 0 <= i < |s| - 1 && Upper(s[1..])[i] == ':';
        assert Upper(s)[i + 1] == ':';
      }
    }
  }

  lemma {:induction false} KeywordsHaveNoColon(word: string)
    requires word in KEYWORDS
    ensures ':' !in word
  {
  }

  lemma {:induction false} Skips(rest: string)
    ensures Tokenize(" " + rest) == Tokenize(rest)
  {
    assert IsSpace(' ') && (" " + rest)[1..] == rest;
  }

  lemma {:induction false} TokenizesMark(c: char, rest: string)
    requires c == '[' || c == ']' || c == '='
    ensures Tokenize([c] + rest) ==
            After(if c == '[' then Open else if c == ']' then Close else Symbol("="), Tokenize(rest))
  {
    assert !IsSpace(c) && ([c] + rest)[1..] == rest;
  }

  lemma {:induction false} TokenizesLiteral(value: string, rest: string)
    ensures Tokenize("'" + EscapePattern(value) + "'" + rest) == After(Quoted(value), Tokenize(rest))
  {
    var s := "'" + EscapePattern(value) + "'" + rest;
    LiteralReadsBack(value, rest);
    assert s[1..] == EscapePattern(value) + "'" + rest;
    assert s[0] == '\'' && !IsSpace('\'');
  }

  /** One word, then the rest. */
  lemma {:induction false} TokenizesWord(path: string, rest: string)
    requires ObjectPath(path) && rest != "" && Delimits(rest[0])
    ensures Tokenize(path + rest) == After(Word(path), Tokenize(rest))
  {
    var s := path + rest;
    assert !Delimits(s[0]) by { assert s[0] == path[0]; }
    assert s[1..] == path[1..] + rest;
    WordEnds(path[1..], rest);
    assert s[..|path|] == path && s[|path|..] == rest;
    ColonSurvives(path);
    if Upper(path) in KEYWORDS {
      KeywordsHaveNoColon(Upper(path));
    }
  }

  /** The five tokens of an exported pattern. */
  lemma {:induction false} PatternTokens(path: string, value: string)
    requires ObjectPath(path)
    ensures Tokenize(PatternFor(path, value)) == Some([Open, Word(path), Symbol("="), Quoted(value), Close])
  {
    var close := "]" + "";
    var literal := "'" + EscapePattern(value) + "'" + close;
    var spaced := " " + literal;
    var equals := " " + ("=" + spaced);
    assert IsSpace(' ');
    assert PatternFor(path, value) == "[" + (path + equals);
    TokenizesMark('[', path + equals);
    TokenizesWord(path, equals);
    Skips("=" + spaced);
    TokenizesMark('=', spaced);
    Skips(literal);
    TokenizesLiteral(value, close);
    TokenizesMark(']', "");
    Chained(path, value, Tokenize(literal), Tokenize(equals), Tokenize(path + equals));
  }

  lemma {:induction false} Chained(path: string, value: string, third: Option<seq<Token>>,
                                   second: Option<seq<Token>>, first: Option<seq<Token>>)
    requires third == After(Quoted(value), After(Close, Some([])))
    requires second == After(Symbol("="), third)
    requires first == After(Word(path), second)
    ensures After(Open, first) == Some([Open, Word(path), Symbol("="), Quoted(value), Close])
  {
    assert third.value == [Quoted(value), Close];
    assert second.value == [Symbol("="), Quoted(value), Close];
    assert first.value == [Word(path), Symbol("="), Quoted(value), Close];
    assert [Open] + first.value == [Open, Word(path), Symbol("="), Quoted(value), Close];
  }

  /**
   An exported pattern, whatever value it quotes, is read back as exactly one comparison: the path it
   was written for, and the value. A value cannot add an alternative, a second comparison, or a bracket.
   */
  lemma {:induction false} PatternReadsBack(path: string, value: string)
    requires ObjectPath(path)
    ensures Comparisons(PatternFor(path, value)) == Some([(path, value)])
  {
    PatternTokens(path, value);
    var read := [Symbol("="), Quoted(value), Close];
    var tokens := [Open, Word(path)] + read;
    assert tokens == [Open, Word(path), Symbol("="), Quoted(value), Close];
    assert tokens[1..] == [Word(path)] + read && tokens[1..][1..] == read;
    assert ReadPath(read) == Some(("", read)) && path + "" == path;
    assert ReadPath(tokens[1..]) == Some((path, read));
    assert [] + [(path, value)] == [(path, value)];
  }
}

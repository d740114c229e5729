/** Which patterns are read, and as what: the tokens a text holds, and the shape the tokens must have. */
module Grammar {
  import opened Machine
  import opened Escaping

  // ----- tokens -----

  const RESERVED: seq<string> :=
    ["AND", "OR", "NOT", "FOLLOWEDBY", "LIKE", "MATCHES", "ISSUBSET", "ISSUPERSET",
     "IN", "EXISTS", "REPEATS", "TIMES", "WITHIN", "SECONDS", "START", "STOP"]

  /** Each letter is the capital one, or its lower case. */
  predicate InAnyCase(text: string, capitals: string) {
    && |text| == |capitals|
    && forall i :: 0 <= i < |text| ==>
         text[i] == capitals[i] || ('a' <= text[i] <= 'z' && text[i] as int == capitals[i] as int + 32)
  }

  predicate IsReserved(text: string) {
    exists i :: 0 <= i < |RESERVED| && InAnyCase(text, RESERVED[i])
  }

  predicate OneWord(text: string) {
    text != "" && forall i :: 0 <= i < |text| ==> !Delimits(text[i])
  }

  /** Whether a text, standing on its own, is one token. */
  predicate Spells(token: Token, text: string) {
    match token
    case Open => text == "["
    case Close => text == "]"
    case Symbol(mark) => text == mark && mark in {"=", "!", "<", ">", "!=", "<=", ">=", "(", ")", ","}
    case Quoted(value) => text != "" && text[0] == '\'' && ScanLiteral(text[1..]) == Some((value, ""))
    case Word(word) => text == word && OneWord(text) && !IsReserved(text)
    case Keyword(word) => OneWord(text) && word in RESERVED && InAnyCase(text, word)
  }

  /** Some texts, each with a space after it. */
  function Spaced(texts: seq<string>): string {
    if texts == [] then "" else texts[0] + (" " + Spaced(texts[1..]))
  }

  lemma {:induction false} CapitalsRead(s: string)
    ensures |Upper(s)| == |s|
    ensures forall i :: 0 <= i < |s| ==>
              Upper(s)[i] == if 'a' <= s[i] <= 'z' then ((s[i] as int) - 32) as char else s[i]
  {
    if s != "" {
      CapitalsRead(s[1..]);
    }
  }

  lemma {:induction false} AllCapitals(k: nat)
    requires k < |RESERVED|
    ensures forall i :: 0 <= i < |RESERVED[k]| ==> 'A' <= RESERVED[k][i] <= 'Z'
  {
  }

  /** A text in capitals is a reserved word exactly when the text is one in any case. */
  lemma {:induction false} CapitalsMean(text: string, k: nat)
    requires k < |RESERVED|
    ensures Upper(text) == RESERVED[k] <==> InAnyCase(text, RESERVED[k])
  {
    CapitalsRead(text);
    AllCapitals(k);
    if InAnyCase(text, RESERVED[k]) {
      assert forall i :: 0 <= i < |text| ==> Upper(text)[i] == RESERVED[k][i];
    }
  }

  lemma {:induction false} ReservedAre(word: string)
    ensures word in KEYWORDS <==> word in RESERVED
  {
    assert forall k :: 0 <= k < |RESERVED| ==> RESERVED[k] in KEYWORDS;
  }

  /** A literal that closes at its end still does with more after it. */
  lemma {:induction false} LiteralEnds(s: string, value: string, rest: string)
    requires ScanLiteral(s) == Some((value, ""))
    ensures ScanLiteral(s + rest) == Some((value, rest))
  {
    if s[0] == '\'' {
      assert (s + rest)[1..] == s[1..] + rest;
    } else if s[0] == '\\' {
      assert (s + rest)[2..] == s[2..] + rest;
      LiteralEnds(s[2..], ScanLiteral(s[2..]).value.0, rest);
    } else {
      assert (s + rest)[1..] == s[1..] + rest;
      LiteralEnds(s[1..], ScanLiteral(s[1..]).value.0, rest);
    }
  }

  lemma {:induction false} MarkThenSpace(mark: string, rest: string)
    requires mark in {"=", "!", "<", ">", "!=", "<=", ">=", "(", ")", ","}
    ensures Tokenize(mark + (" " + rest)) == After(Symbol(mark), Tokenize(" " + rest))
  {
    var s := mark + (" " + rest);
    assert !IsSpace(mark[0]);
    if |mark| == 2 {
      assert s[2..] == " " + rest && s[1] == '=' && mark == [mark[0], '='];
    } else {
      assert s[1..] == " " + rest && s[1] == ' ' && mark == [mark[0]];
    }
  }

  lemma {:induction false} WordThenSpace(text: string, rest: string)
    requires OneWord(text)
    ensures Tokenize(text + (" " + rest)) ==
            After(if Upper(text) in KEYWORDS then Keyword(Upper(text)) else Word(text), Tokenize(" " + rest))
  {
    var s := text + (" " + rest);
    assert IsSpace(' ') && s[0] == text[0] && !Delimits(s[0]);
    assert s[1..] == text[1..] + (" " + rest);
    WordEnds(text[1..], " " + rest);
    assert s[..|text|] == text && s[|text|..] == " " + rest;
  }

  lemma {:induction false} LiteralThenSpace(text: string, value: string, rest: string)
    requires text != "" && text[0] == '\'' && ScanLiteral(text[1..]) == Some((value, ""))
    ensures Tokenize(text + (" " + rest)) == After(Quoted(value), Tokenize(" " + rest))
  {
    LiteralEnds(text[1..], value, " " + rest);
    var s := text + (" " + rest);
    assert s[1..] == text[1..] + (" " + rest) && !IsSpace('\'');
  }

  lemma {:induction false} KindOfWord(token: Token, text: string)
    requires (token.Word? || token.Keyword?) && Spells(token, text)
    ensures token == if Upper(text) in KEYWORDS then Keyword(Upper(text)) else Word(text)
  {
    ReservedAre(Upper(text));
    if token.Keyword? {
      var k :| 0 <= k < |RESERVED| && RESERVED[k] == token.text;
      CapitalsMean(text, k);
    } else if Upper(text) in KEYWORDS {
      var k :| 0 <= k < |RESERVED| && RESERVED[k] == Upper(text);
      CapitalsMean(text, k);
    }
  }

  lemma {:induction false} OneToken(token: Token, text: string, rest: string)
    requires Spells(token, text)
    ensures Tokenize(text + (" " + rest)) == After(token, Tokenize(rest))
  {
    Skips(rest);
    match token
    case Open => TokenizesMark('[', " " + rest);
    case Close => TokenizesMark(']', " " + rest);
    case Symbol(mark) => MarkThenSpace(mark, rest);
    case Quoted(value) => LiteralThenSpace(text, value, rest);
    case Word(_) =>
      WordThenSpace(text, rest);
      KindOfWord(token, text);
    case Keyword(_) =>
      WordThenSpace(text, rest);
      KindOfWord(token, text);
  }

  /**
   Texts set apart by spaces are read as the tokens they spell: the sixteen reserved words in any case, other words as
   they stand, and whatever a literal quotes as its value alone.
   */
  lemma {:induction false} ReadAsSpelled(tokens: seq<Token>, texts: seq<string>)
    requires |tokens| == |texts| && forall i :: 0 <= i < |texts| ==> Spells(tokens[i], texts[i])
    ensures Tokenize(Spaced(texts)) == Some(tokens)
  {
    if texts != [] {
      ReadAsSpelled(tokens[1..], texts[1..]);
      OneToken(tokens[0], texts[0], Spaced(texts[1..]));
      assert tokens == [tokens[0]] + tokens[1..];
    }
  }

  // ----- comparisons -----

  datatype Clause = Clause(path: seq<Token>, value: string)

  /** A path as it is written, with its quoted keys in their quotes. */
  function PathText(path: seq<Token>): string {
    if path == [] then "" else PathText(path[..|path| - 1]) + Piece(path[|path| - 1])
  }

  function Piece(token: Token): string {
    match token
    case Word(text) => text
    case Quoted(value) => "'" + value + "'"
    case _ => ""
  }

  /** Words and quoted keys that come to something. */
  predicate IsPath(path: seq<Token>) {
    PathText(path) != "" && forall i :: 0 <= i < |path| ==> path[i].Word? || path[i].Quoted?
  }

  ghost predicate Wellformed(clauses: seq<Clause>) {
    clauses != [] && forall i :: 0 <= i < |clauses| ==> IsPath(clauses[i].path)
  }

  /** Comparisons as tokens: between brackets, with `OR` between each and the next. */
  function Laid(clauses: seq<Clause>): seq<Token> {
    if clauses == [] then []
    else
      clauses[0].path + ([Symbol("="), Quoted(clauses[0].value)]
                         + (if |clauses| == 1 then [Close] else [Keyword("OR")] + Laid(clauses[1..])))
  }

  function Readings(clauses: seq<Clause>): (r: seq<(string, string)>)
    ensures |r| == |clauses|
    ensures forall i :: 0 <= i < |r| ==> r[i] == (PathText(clauses[i].path), clauses[i].value)
  {
    seq(|clauses|, i requires 0 <= i < |clauses| => (PathText(clauses[i].path), clauses[i].value))
  }

  lemma {:induction false} PathStarts(token: Token, path: seq<Token>)
    ensures PathText([token] + path) == Piece(token) + PathText(path)
  {
    var all := [token] + path;
    if path == [] {
      assert all == [token] && [token][..0] == [] && PathText([]) == "";
    } else {
      var n := |path| - 1;
      PathStarts(token, path[..n]);
      assert all[..|all| - 1] == [token] + path[..n] && all[|all| - 1] == path[n];
      Regroup(Piece(token), PathText(path[..n]), Piece(path[n]));
    }
  }

  /** A path followed by an equals sign is read as it is written. */
  lemma {:induction false} PathIsRead(path: seq<Token>, rest: seq<Token>)
    requires forall i :: 0 <= i < |path| ==> path[i].Word? || path[i].Quoted?
    requires rest != [] && rest[0] == Symbol("=")
    ensures ReadPath(path + rest) == Some((PathText(path), rest))
  {
    if path == [] {
      assert path + rest == rest;
    } else {
      assert (path + rest)[1..] == path[1..] + rest && path == [path[0]] + path[1..];
      PathIsRead(path[1..], rest);
      PathStarts(path[0], path[1..]);
    }
  }

  /** And whatever is read is such a path. */
  lemma {:induction false} ReadIsPath(tokens: seq<Token>) returns (path: seq<Token>)
    requires ReadPath(tokens).Some?
    ensures tokens == path + ReadPath(tokens).value.1 && PathText(path) == ReadPath(tokens).value.0
    ensures forall i :: 0 <= i < |path| ==> path[i].Word? || path[i].Quoted?
  {
    if tokens[0].Symbol? {
      path := [];
    } else {
      var rest := ReadIsPath(tokens[1..]);
      path := [tokens[0]] + rest;
      PathStarts(tokens[0], rest);
      Regroup([tokens[0]], rest, ReadPath(tokens).value.1);
      assert tokens == [tokens[0]] + tokens[1..];
    }
  }

  lemma {:induction false} ClausesAreRead(clauses: seq<Clause>, read: seq<(string, string)>)
    requires Wellformed(clauses)
    ensures ReadComparisons(Laid(clauses), read)
         == if |read| + |clauses| <= 64 then Some(read + Readings(clauses)) else None
    decreases |clauses|
  {
    var more := if |clauses| == 1 then [Close] else [Keyword("OR")] + Laid(clauses[1..]);
    var equals := [Symbol("="), Quoted(clauses[0].value)] + more;
    PathIsRead(clauses[0].path, equals);
    assert equals[1] == Quoted(clauses[0].value) && equals[2] == more[0];
    var one := (PathText(clauses[0].path), clauses[0].value);
    assert Readings(clauses) == [one] + Readings(clauses[1..]);
    Regroup(read, [one], Readings(clauses[1..]));
    if |clauses| > 1 {
      assert equals[3..] == Laid(clauses[1..]);
      ClausesAreRead(clauses[1..], read + [one]);
    } else {
      assert read + [one] + [] == read + [one] && Readings(clauses[1..]) == [];
    }
  }

  lemma {:induction false} ReadAreClauses(tokens: seq<Token>, read: seq<(string, string)>)
    returns (clauses: seq<Clause>)
    requires ReadComparisons(tokens, read).Some?
    ensures Wellformed(clauses) && tokens == Laid(clauses)
    decreases |tokens|
  {
    var path := ReadIsPath(tokens);
    var (text, rest) := ReadPath(tokens).value;
    var one := Clause(path, rest[1].value);
    if rest[2].Close? {
      clauses := [one];
      assert rest == [rest[0], rest[1]] + [rest[2]];
    } else {
      var others := ReadAreClauses(rest[3..], read + [(text, rest[1].value)]);
      clauses := [one] + others;
      assert clauses[1..] == others;
      assert rest == [rest[0], rest[1]] + ([rest[2]] + rest[3..]);
    }
  }

  /** Some comparisons that these are the tokens of. */
  ghost predicate Says(tokens: Option<seq<Token>>, clauses: seq<Clause>) {
    Wellformed(clauses) && tokens == Some([Open] + Laid(clauses))
  }

  /** What comparisons in brackets are read as: every one of them in order, or nothing when there are too many. */
  lemma {:induction false} SaidIsRead(pattern: string, clauses: seq<Clause>)
    requires Says(Tokenize(pattern), clauses)
    ensures Comparisons(pattern) == if |clauses| <= 64 then Some(Readings(clauses)) else None
  {
    assert ([Open] + Laid(clauses))[1..] == Laid(clauses);
    ClausesAreRead(clauses, []);
    assert [] + Readings(clauses) == Readings(clauses);
  }

  /**
   A pattern is read exactly when all of it is one to sixty-four comparisons with `OR` between them, in one pair of
   brackets. Anything more, before, between or after them, refuses the whole.
   */
  lemma {:induction false} ReadExactly(pattern: string)
    ensures Comparisons(pattern).Some? <==>
              exists clauses :: |clauses| <= 64 && Says(Tokenize(pattern), clauses)
  {
    if Comparisons(pattern).Some? {
      var tokens := Tokenize(pattern).value;
      var clauses := ReadAreClauses(tokens[1..], []);
      assert tokens == [Open] + tokens[1..];
      SaidIsRead(pattern, clauses);
    }
    if clauses :| |clauses| <= 64 && Says(Tokenize(pattern), clauses) {
      SaidIsRead(pattern, clauses);
    }
  }
}

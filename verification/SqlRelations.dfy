/** The relations a statement names, read from its tokens. */
module SqlRelations {
  import opened SqlConcatenation
  import opened SqlScanner

  datatype Identifier = Identifier(catalog: string, schema: string, name: string)

  predicate Keyword(t: Token) {
    t.identifier && !t.quoted && t.value in {"from", "into", "join", "update"}
  }

  predicate Modifier(t: Token) {
    t.identifier && !t.quoted && t.value in {"lateral", "only"}
  }

  function SkipModifiers(tokens: seq<Token>): (n: nat)
    ensures n <= |tokens|
  {
    if tokens == [] || !Modifier(tokens[0]) then 0 else 1 + SkipModifiers(tokens[1..])
  }

  predicate Dotted(tokens: seq<Token>) {
    |tokens| > 2 && tokens[1].value == "." && tokens[2].identifier
  }

  /** The parts of a dotted name, at most `limit` of them. */
  function NameParts(tokens: seq<Token>, limit: nat): (parts: seq<string>)
    requires tokens != [] && limit > 0
    ensures 0 < |parts| <= limit
  {
    if limit > 1 && Dotted(tokens) then [tokens[0].value] + NameParts(tokens[2..], limit - 1) else [tokens[0].value]
  }

  function IdentifierOf(parts: seq<string>): Identifier
    requires 0 < |parts| <= 3
  {
    match |parts|
    case 1 => Identifier("", "", parts[0])
    case 2 => Identifier("", parts[0], parts[1])
    case _ => Identifier(parts[0], parts[1], parts[2])
  }

  /** What the first token introduces. */
  function RelationAt(tokens: seq<Token>): seq<Identifier>
    requires tokens != []
  {
    if !Keyword(tokens[0]) then []
    else
      var name := tokens[1 + SkipModifiers(tokens[1..])..];
      if name == [] || !name[0].identifier then [] else [IdentifierOf(NameParts(name, 3))]
  }

  function Relations(tokens: seq<Token>): seq<Identifier> {
    if tokens == [] then [] else RelationAt(tokens) + Relations(tokens[1..])
  }

  // The loops

  method ReadModifiers(tokens: seq<Token>, start: nat) returns (next: nat)
    requires start <= |tokens|
    ensures next == start + SkipModifiers(tokens[start..])
  {
    next := start;
    while next < |tokens| && Modifier(tokens[next])
      invariant start <= next <= |tokens|
      invariant next + SkipModifiers(tokens[next..]) == start + SkipModifiers(tokens[start..])
    {
      assert tokens[next..][1..] == tokens[next + 1..];
      next := next + 1;
    }
  }

  method ReadParts(tokens: seq<Token>, start: nat) returns (parts: seq<string>)
    requires start < |tokens|
    ensures parts == NameParts(tokens[start..], 3)
  {
    var next := start;
    parts := [tokens[next].value];
    ghost var whole := NameParts(tokens[start..], 3);
    assert parts + NameParts(tokens[next..], 3)[1..] == whole;
    while |parts| < 3 && next + 2 < |tokens| && tokens[next + 1].value == "." && tokens[next + 2].identifier
      invariant start <= next < |tokens| && 0 < |parts| <= 3
      invariant parts + NameParts(tokens[next..], 4 - |parts|)[1..] == whole
      decreases |tokens| - next
    {
      assert tokens[next..][2..] == tokens[next + 2..];
      assert Dotted(tokens[next..]);
      ghost var rest := NameParts(tokens[next + 2..], 3 - |parts|);
      assert NameParts(tokens[next..], 4 - |parts|) == [tokens[next].value] + rest;
      assert rest == [tokens[next + 2].value] + rest[1..];
      parts, next := parts + [tokens[next + 2].value], next + 2;
    }
    assert |parts| == 3 || !Dotted(tokens[next..]);
  }

  method ReadRelation(tokens: seq<Token>, index: nat) returns (found: seq<Identifier>)
    requires index < |tokens|
    ensures found == RelationAt(tokens[index..])
  {
    hide NameParts, SkipModifiers;
    ghost var rest := tokens[index..];
    if !Keyword(tokens[index]) {
      return [];
    }
    assert rest[1..] == tokens[index + 1..];
    var next := ReadModifiers(tokens, index + 1);
    assert tokens[next..] == rest[next - index..];
    if next >= |tokens| || !tokens[next].identifier {
      return [];
    }
    var parts := ReadParts(tokens, next);
    found := [IdentifierOf(parts)];
  }

  /** The relations named in a statement. */
  method QueryRelationIdentifiers(sql: string) returns (relations: seq<Identifier>)
    ensures relations == Relations(Tokens(sql))
  {
    var tokens := Tokenize(sql);
    hide RelationAt, Tokens;
    relations := [];
    for index := 0 to |tokens|
      invariant relations + Relations(tokens[index..]) == Relations(tokens)
    {
      assert tokens[index..][1..] == tokens[index + 1..];
      var found := ReadRelation(tokens, index);
      relations := relations + found;
    }
  }

  // Reading back a printed name

  /** A text with its quotes doubled. */
  function Doubled(s: string, quote: char): string {
    if s == "" then "" else (if s[0] == quote then [quote, quote] else [s[0]]) + Doubled(s[1..], quote)
  }

  function Quote(s: string, quote: char): string {
    [quote] + Doubled(s, quote) + [quote]
  }

  lemma QuotedPlain(c: char, tail: string, quote: char)
    requires c != quote
    ensures var r := Quoted(tail, quote);
            Quoted([c] + tail, quote) == Literal([c] + r.value, r.length + 1, r.closed)
  {
    assert ([c] + tail)[1..] == tail;
  }

  lemma QuotedPair(tail: string, quote: char)
    ensures var r := Quoted(tail, quote);
            Quoted([quote, quote] + tail, quote) == Literal([quote] + r.value, r.length + 2, r.closed)
  {
    assert ([quote, quote] + tail)[2..] == tail;
  }

  lemma QuotedCloses(rest: string, quote: char)
    requires rest == "" || rest[0] != quote
    ensures Quoted([quote] + rest, quote) == Literal("", 1, true)
  {
    assert rest != "" ==> ([quote] + rest)[1] == rest[0];
  }

  lemma {:induction false} QuotedReadsBack(s: string, quote: char, rest: string)
    requires rest == "" || rest[0] != quote
    ensures Quoted(Doubled(s, quote) + [quote] + rest, quote) == Literal(s, |Doubled(s, quote)| + 1, true)
  {
    hide Quoted;
    var text := Doubled(s, quote) + [quote] + rest;
    var tail := if s == "" then "" else Doubled(s[1..], quote) + [quote] + rest;
    if s == "" {
      assert text == [quote] + rest;
      QuotedCloses(rest, quote);
    } else if s[0] == quote {
      QuotedReadsBack(s[1..], quote, rest);
      assert text == [quote, quote] + tail;
      QuotedPair(tail, quote);
    } else {
      QuotedReadsBack(s[1..], quote, rest);
      assert text == [s[0]] + tail;
      QuotedPlain(s[0], tail, quote);
    }
  }

  /** One step over a quoted text. */
  lemma QuoteStep(s: string, quote: char, rest: string)
    requires quote in {'\'', '"'} && (rest == "" || rest[0] != quote)
    ensures var text := Quote(s, quote) + rest;
            && Step(text) == Lexeme(|Quote(s, quote)|, if quote == '"' then [Token(s, true, true)] else [], false)
            && text[|Quote(s, quote)|..] == rest
  {
    var text := Quote(s, quote) + rest;
    assert text[0] == quote && text[1..] == Doubled(s, quote) + [quote] + rest;
    QuotedReadsBack(s, quote, rest);
    hide Doubled, Quoted, Dollar, Block, LineEnd, WordEnd, Lower;
  }

  /** A string literal leaves no token, whatever it contains. */
  lemma LiteralIsInvisible(s: string, rest: string)
    requires rest == "" || rest[0] != '\''
    ensures Tokens(Quote(s, '\'') + rest) == Tokens(rest)
  {
    hide Step, Quote, Tokens;
    QuoteStep(s, '\'', rest);
    TokensStep(Quote(s, '\'') + rest);
  }

  /** A quoted name is one token with exactly the characters that were quoted. */
  lemma QuotedNameReadsBack(s: string, rest: string)
    requires rest == "" || rest[0] != '"'
    ensures Tokens(Quote(s, '"') + rest) == [Token(s, true, true)] + Tokens(rest)
  {
    hide Step, Quote, Tokens;
    QuoteStep(s, '"', rest);
    TokensStep(Quote(s, '"') + rest);
  }

  /** A part of a name: in double quotes, or an unquoted word. */
  datatype NamePart = Delimited(text: string) | Bare(word: string)

  predicate Letter(c: char) {
    'a' <= c <= 'z' || 'A' <= c <= 'Z' || c == '_'
  }

  /** A letter or underscore, followed by letters, underscores, digits and dollar signs. */
  ghost predicate Word(w: string) {
    w != "" && Letter(w[0]) && forall i :: 0 <= i < |w| ==> Letter(w[i]) || '0' <= w[i] <= '9' || w[i] == '$'
  }

  /** The same word with its capital letters made small. */
  ghost predicate SmallLetters(w: string, small: string) {
    && |small| == |w|
    && forall i :: 0 <= i < |w| ==>
         if 'A' <= w[i] <= 'Z' then small[i] as int == w[i] as int + 32 else small[i] == w[i]
  }

  lemma LowerIsSmall(w: string, small: string)
    ensures SmallLetters(w, small) <==> small == Lower(w)
  {
  }

  /** The token of an unquoted word. */
  function WordToken(w: string): Token {
    Token(Lower(w), true, false)
  }

  function PartText(part: NamePart): string {
    match part
    case Delimited(text) => Quote(text, '"')
    case Bare(word) => word
  }

  function PartToken(part: NamePart): Token {
    match part
    case Delimited(text) => Token(text, true, true)
    case Bare(word) => WordToken(word)
  }

  /** The word in any mix of cases. */
  ghost predicate AnyCase(w: string, words: set<string>) {
    exists small :: small in words && SmallLetters(w, small)
  }

  /** An unquoted part is a word that does not introduce a relation itself. */
  ghost predicate PartOk(part: NamePart) {
    part.Bare? ==> Word(part.word) && !AnyCase(part.word, {"from", "into", "join", "update"})
  }

  lemma AnyCaseLower(w: string, words: set<string>)
    ensures AnyCase(w, words) <==> Lower(w) in words
  {
    LowerIsSmall(w, Lower(w));
    forall small | small in words && SmallLetters(w, small) ensures small == Lower(w) {
      LowerIsSmall(w, small);
    }
  }

  lemma KeywordCase(w: string)
    ensures Keyword(WordToken(w)) <==> AnyCase(w, {"from", "into", "join", "update"})
    ensures Modifier(WordToken(w)) <==> AnyCase(w, {"lateral", "only"})
  {
    hide Lower, AnyCase;
    AnyCaseLower(w, {"from", "into", "join", "update"});
    AnyCaseLower(w, {"lateral", "only"});
  }

  /** The text of a part as the database understands it: quoted ones as they are, unquoted ones in small letters. */
  ghost predicate Means(part: NamePart, value: string) {
    match part
    case Delimited(text) => value == text
    case Bare(word) => SmallLetters(word, value)
  }

  /** The last part is the name, the one before it the schema and the one before that the catalog. */
  ghost predicate Named(parts: seq<NamePart>, id: Identifier)
    requires 0 < |parts| <= 3
  {
    && Means(parts[|parts| - 1], id.name)
    && (if |parts| > 1 then Means(parts[|parts| - 2], id.schema) else id.schema == "")
    && (if |parts| > 2 then Means(parts[0], id.catalog) else id.catalog == "")
  }

  lemma ValuesAreNamed(parts: seq<NamePart>)
    requires 0 < |parts| <= 3
    ensures Named(parts, IdentifierOf(Values(parts)))
  {
    hide Lower, SmallLetters;
    forall i | 0 <= i < |parts| ensures Means(parts[i], Values(parts)[i]) {
      match parts[i]
      case Delimited(text) =>
      case Bare(word) => LowerIsSmall(word, Lower(word));
    }
  }

  function Values(parts: seq<NamePart>): (values: seq<string>)
    ensures |values| == |parts|
  {
    seq(|parts|, i requires 0 <= i < |parts| => PartToken(parts[i]).value)
  }

  function Print(parts: seq<NamePart>): string
    requires parts != []
  {
    if |parts| == 1 then PartText(parts[0]) else PartText(parts[0]) + ("." + Print(parts[1..]))
  }

  function PrintTokens(parts: seq<NamePart>): (tokens: seq<Token>)
    requires parts != []
    ensures tokens != [] && tokens[0] == PartToken(parts[0])
  {
    [PartToken(parts[0])]
    + if |parts| == 1 then [] else [Token(".", false, false)] + PrintTokens(parts[1..])
  }

  lemma {:induction false} WordReads(w: string, rest: string)
    requires (forall i :: 0 <= i < |w| ==> IsPart(w[i])) && (rest == "" || !IsPart(rest[0]))
    ensures WordEnd(w + rest) == |w|
  {
    if w == "" {
      assert w + rest == rest;
    } else {
      assert (w + rest)[1..] == w[1..] + rest;
      WordReads(w[1..], rest);
    }
  }

  lemma WordCharacters(w: string)
    requires Word(w)
    ensures IsStart(w[0]) && forall i :: 0 <= i < |w[1..]| ==> IsPart(w[1..][i])
  {
    assert forall i :: 0 <= i < |w[1..]| ==> w[1..][i] == w[i + 1];
  }

  lemma StepOverWord(text: string)
    requires text != "" && IsStart(text[0])
    ensures var n := 1 + WordEnd(text[1..]);
            Step(text) == Lexeme(n, [Token(Lower(text[..n]), true, false)], false)
  {
    hide Quoted, Dollar, Block, LineEnd, WordEnd, Lower;
  }

  lemma WordStep(w: string, rest: string)
    requires Word(w) && (rest == "" || !IsPart(rest[0]))
    ensures Step(w + rest) == Lexeme(|w|, [WordToken(w)], false) && (w + rest)[|w|..] == rest
  {
    hide Word, IsStart, IsPart, Step, WordEnd, Lower;
    var text := w + rest;
    assert w != "" by {
      WordNotEmpty(w);
    }
    WordCharacters(w);
    assert text[0] == w[0] && text[1..] == w[1..] + rest && text[..|w|] == w;
    WordReads(w[1..], rest);
    StepOverWord(text);
  }

  lemma WordNotEmpty(w: string)
    requires Word(w)
    ensures w != ""
  {
  }

  lemma WordReadsBack(w: string, rest: string)
    requires Word(w) && (rest == "" || !IsPart(rest[0]))
    ensures Tokens(w + rest) == [WordToken(w)] + Tokens(rest)
  {
    WordStep(w, rest);
    hide WordToken, Step, Tokens;
    TokensStep(w + rest);
  }

  lemma PartReadsBack(part: NamePart, rest: string)
    requires PartOk(part) && (rest == "" || rest[0] == '.')
    ensures Tokens(PartText(part) + rest) == [PartToken(part)] + Tokens(rest)
  {
    hide Tokens, Quote;
    match part
    case Delimited(text) => QuotedNameReadsBack(text, rest);
    case Bare(word) => WordReadsBack(word, rest);
  }

  ghost predicate PartsOk(parts: seq<NamePart>) {
    parts != [] && forall i :: 0 <= i < |parts| ==> PartOk(parts[i])
  }

  lemma {:induction false} PrintedTokens(parts: seq<NamePart>)
    requires PartsOk(parts)
    ensures Tokens(Print(parts)) == PrintTokens(parts)
  {
    hide Tokens, PartText, PartToken, PartOk;
    if |parts| == 1 {
      PartReadsBack(parts[0], "");
      assert PartText(parts[0]) + "" == PartText(parts[0]);
      NoTokens();
    } else {
      var rest := Print(parts[1..]);
      PartReadsBack(parts[0], "." + rest);
      DotToken(rest);
      PrintedTokens(parts[1..]);
    }
  }

  lemma DotToken(rest: string)
    ensures Tokens("." + rest) == [Token(".", false, false)] + Tokens(rest)
  {
    assert ("." + rest)[1..] == rest;
  }

  lemma IsIdentifier(part: NamePart)
    ensures PartToken(part).identifier
  {
  }

  lemma {:induction false} PrintedParts(parts: seq<NamePart>, limit: nat)
    requires 0 < |parts| <= limit
    ensures NameParts(PrintTokens(parts), limit) == Values(parts)
  {
    hide PartToken;
    if |parts| > 1 {
      var tokens := PrintTokens(parts);
      assert tokens[2..] == PrintTokens(parts[1..]);
      assert tokens[1].value == "." && tokens[2] == PartToken(parts[1]);
      IsIdentifier(parts[1]);
      PrintedParts(parts[1..], limit - 1);
      assert Values(parts) == [PartToken(parts[0]).value] + Values(parts[1..]);
    }
  }

  /** Tokens none of which is a keyword introduce nothing. */
  lemma {:induction false} NoRelations(tokens: seq<Token>)
    requires forall i :: 0 <= i < |tokens| ==> !Keyword(tokens[i])
    ensures Relations(tokens) == []
  {
    if tokens != [] {
      NoRelations(tokens[1..]);
    }
  }

  lemma {:induction false} NoKeywords(parts: seq<NamePart>)
    requires PartsOk(parts)
    ensures forall i :: 0 <= i < |PrintTokens(parts)| ==> !Keyword(PrintTokens(parts)[i])
  {
    hide Lower, AnyCase, Word;
    assert !Keyword(PartToken(parts[0])) by {
      if parts[0].Bare? {
        KeywordCase(parts[0].word);
      }
    }
    if |parts| > 1 {
      NoKeywords(parts[1..]);
    }
  }

  // Keywords and modifiers

  /** Words, each followed by a space. */
  function Spaced(words: seq<string>): string {
    if words == [] then "" else words[0] + (" " + Spaced(words[1..]))
  }

  function WordTokens(words: seq<string>): (tokens: seq<Token>)
    ensures |tokens| == |words|
  {
    seq(|words|, i requires 0 <= i < |words| => WordToken(words[i]))
  }

  lemma {:induction false} SpacedTokens(words: seq<string>, rest: string)
    requires forall i :: 0 <= i < |words| ==> Word(words[i])
    ensures Tokens(Spaced(words) + rest) == WordTokens(words) + Tokens(rest)
  {
    hide Tokens, WordToken, Word;
    if words == [] {
      assert Spaced(words) + rest == rest;
    } else {
      var tail := Spaced(words[1..]) + rest;
      assert Spaced(words) + rest == words[0] + (" " + tail);
      WordReadsBack(words[0], " " + tail);
      SpaceToken(tail);
      SpacedTokens(words[1..], rest);
      assert WordTokens(words) == [WordToken(words[0])] + WordTokens(words[1..]);
    }
  }

  lemma SpaceToken(rest: string)
    ensures Tokens(" " + rest) == Tokens(rest)
  {
    assert (" " + rest)[1..] == rest;
  }

  lemma {:induction false} ModifiersSkipped(modifiers: seq<Token>, rest: seq<Token>)
    requires (forall i :: 0 <= i < |modifiers| ==> Modifier(modifiers[i])) && rest != [] && !Modifier(rest[0])
    ensures SkipModifiers(modifiers + rest) == |modifiers|
  {
    if modifiers == [] {
      assert modifiers + rest == rest;
    } else {
      assert (modifiers + rest)[1..] == modifiers[1..] + rest;
      ModifiersSkipped(modifiers[1..], rest);
    }
  }

  /** A keyword in any mix of cases, any number of modifiers, and a name of one to three parts. */
  ghost predicate Reference(keyword: string, modifiers: seq<string>, parts: seq<NamePart>) {
    && Introduction(keyword, modifiers)
    && PartsOk(parts) && |parts| <= 3
    && (parts[0].Bare? ==> !AnyCase(parts[0].word, {"lateral", "only"}))
  }

  /** One of the four keywords and any number of modifiers. */
  ghost predicate Introduction(keyword: string, modifiers: seq<string>) {
    && Word(keyword) && AnyCase(keyword, {"from", "into", "join", "update"})
    && (forall i :: 0 <= i < |modifiers| ==> Word(modifiers[i]) && AnyCase(modifiers[i], {"lateral", "only"}))
  }

  function PrintReference(keyword: string, modifiers: seq<string>, parts: seq<NamePart>): string
    requires parts != []
  {
    Spaced([keyword] + modifiers) + Print(parts)
  }

  lemma ReferenceTokens(keyword: string, modifiers: seq<string>, parts: seq<NamePart>)
    requires Reference(keyword, modifiers, parts)
    ensures Tokens(PrintReference(keyword, modifiers, parts))
         == [WordToken(keyword)] + (WordTokens(modifiers) + PrintTokens(parts))
  {
    hide Tokens, WordToken, Keyword, Modifier, Word, PartOk, PrintTokens, Spaced, Print;
    SpacedTokens([keyword] + modifiers, Print(parts));
    PrintedTokens(parts);
    assert WordTokens([keyword] + modifiers) == [WordToken(keyword)] + WordTokens(modifiers);
  }

  lemma RelationsCons(t: Token, rest: seq<Token>)
    ensures Relations([t] + rest) == RelationAt([t] + rest) + Relations(rest)
  {
    assert ([t] + rest)[1..] == rest;
  }

  /** The keyword of a reference introduces its name. */
  lemma KeywordIntroduces(keyword: string, modifiers: seq<string>, parts: seq<NamePart>)
    requires Reference(keyword, modifiers, parts)
    ensures RelationAt([WordToken(keyword)] + (WordTokens(modifiers) + PrintTokens(parts)))
         == [IdentifierOf(Values(parts))]
  {
    var middle, name := WordTokens(modifiers), PrintTokens(parts);
    PrintedParts(parts, 3);
    IsIdentifier(parts[0]);
    NotKeywords(keyword, modifiers);
    NotModifier(parts[0]);
    hide AnyCase, NameParts, PrintTokens, Keyword, Modifier, WordToken, PartToken, Values, IdentifierOf, PartsOk;
    var tokens := [WordToken(keyword)] + (middle + name);
    assert tokens[1..] == middle + name && tokens[1 + |middle|..] == name;
    ModifiersSkipped(middle, name);
  }

  /** Nothing else in a reference does. */
  lemma RestIntroducesNothing(keyword: string, modifiers: seq<string>, parts: seq<NamePart>)
    requires Reference(keyword, modifiers, parts)
    ensures Relations(WordTokens(modifiers) + PrintTokens(parts)) == []
  {
    NoKeywords(parts);
    NotKeywords(keyword, modifiers);
    hide PrintTokens, Keyword, Modifier, WordToken, PartToken, PartsOk, Relations;
    NoRelations(WordTokens(modifiers) + PrintTokens(parts));
  }

  /** A keyword in front of a parenthesis introduces nothing: the relations are those of what the parenthesis holds and
      what follows it. */
  lemma SubqueryIntroducesNothing(keyword: string, modifiers: seq<string>, rest: string)
    requires Introduction(keyword, modifiers)
    ensures Relations(Tokens(Spaced([keyword] + modifiers) + ("(" + rest))) == Relations(Tokens(rest))
  {
    hide Tokens, AnyCase, WordToken, WordTokens, Keyword, Modifier, Word, Spaced, Relations, RelationAt;
    var middle := WordTokens(modifiers);
    SpacedTokens([keyword] + modifiers, "(" + rest);
    ParenthesisToken(rest);
    assert WordTokens([keyword] + modifiers) == [WordToken(keyword)] + middle by {
      WordTokensCons(keyword, modifiers);
    }
    NotKeywords(keyword, modifiers);
    OpensNothing(WordToken(keyword), middle, Tokens(rest));
    assert [WordToken(keyword)] + middle + ([PARENTHESIS] + Tokens(rest))
        == [WordToken(keyword)] + (middle + [PARENTHESIS]) + Tokens(rest);
  }

  const PARENTHESIS := Token("(", false, false)

  lemma ParenthesisToken(rest: string)
    ensures Tokens("(" + rest) == [PARENTHESIS] + Tokens(rest)
  {
    assert ("(" + rest)[1..] == rest;
  }

  lemma WordTokensCons(w: string, words: seq<string>)
    ensures WordTokens([w] + words) == [WordToken(w)] + WordTokens(words)
  {
    hide WordToken;
  }

  lemma OpensNothing(keyword: Token, modifiers: seq<Token>, rest: seq<Token>)
    requires Keyword(keyword) && forall i :: 0 <= i < |modifiers| ==> !Keyword(modifiers[i]) && Modifier(modifiers[i])
    ensures Relations([keyword] + (modifiers + [PARENTHESIS]) + rest) == Relations(rest)
  {
    NotAnIdentifier(PARENTHESIS);
    hide Keyword, Modifier, Relations;
    var tail := [PARENTHESIS] + rest;
    var tokens := [keyword] + (modifiers + tail);
    assert tokens == [keyword] + (modifiers + [PARENTHESIS]) + rest;
    assert modifiers + tail == (modifiers + [PARENTHESIS]) + rest;
    ModifiersSkipped(modifiers, tail);
    assert tokens[1..] == modifiers + tail && tokens[1 + |modifiers|..] == tail;
    RelationsCons(keyword, modifiers + tail);
    RelationsSkip(modifiers + [PARENTHESIS], rest);
  }

  lemma NotAnIdentifier(t: Token)
    requires !t.identifier
    ensures !Keyword(t) && !Modifier(t)
  {
  }

  lemma {:induction false} RelationsSkip(before: seq<Token>, tokens: seq<Token>)
    requires forall i :: 0 <= i < |before| ==> !Keyword(before[i])
    ensures Relations(before + tokens) == Relations(tokens)
  {
    if before == [] {
      assert before + tokens == tokens;
    } else {
      assert (before + tokens)[1..] == before[1..] + tokens;
      RelationsSkip(before[1..], tokens);
    }
  }

  /** A reference reads back as exactly its parts: quoted ones with every character, doubled quotes included, unquoted
      ones in lower case. */
  lemma NameReadsBack(keyword: string, modifiers: seq<string>, parts: seq<NamePart>)
    requires Reference(keyword, modifiers, parts)
    ensures Relations(Tokens(PrintReference(keyword, modifiers, parts))) == [IdentifierOf(Values(parts))]
    ensures Named(parts, Relations(Tokens(PrintReference(keyword, modifiers, parts)))[0])
  {
    ValuesAreNamed(parts);
    hide Tokens, RelationAt, Relations, PrintTokens, WordToken, WordTokens, PrintReference, Values, IdentifierOf;
    ReferenceTokens(keyword, modifiers, parts);
    KeywordIntroduces(keyword, modifiers, parts);
    RestIntroducesNothing(keyword, modifiers, parts);
    RelationsCons(WordToken(keyword), WordTokens(modifiers) + PrintTokens(parts));
  }

  lemma NotKeywords(keyword: string, modifiers: seq<string>)
    requires Introduction(keyword, modifiers)
    ensures Keyword(WordToken(keyword))
    ensures forall i :: 0 <= i < |modifiers| ==>
              !Keyword(WordTokens(modifiers)[i]) && Modifier(WordTokens(modifiers)[i])
  {
    hide Lower, AnyCase, Word;
    KeywordCase(keyword);
    forall i | 0 <= i < |modifiers|
      ensures !Keyword(WordTokens(modifiers)[i]) && Modifier(WordTokens(modifiers)[i])
    {
      KeywordCase(modifiers[i]);
    }
  }

  lemma NotModifier(part: NamePart)
    requires part.Bare? ==> !AnyCase(part.word, {"lateral", "only"})
    ensures !Modifier(PartToken(part))
  {
    if part.Bare? {
      KeywordCase(part.word);
    }
  }

  lemma {:induction false} RelationsEnd(before: seq<Token>, tokens: seq<Token>)
    ensures |Relations(tokens)| <= |Relations(before + tokens)|
    ensures Relations(before + tokens)[|Relations(before + tokens)| - |Relations(tokens)|..] == Relations(tokens)
  {
    if before == [] {
      assert before + tokens == tokens;
    } else {
      assert (before + tokens)[1..] == before[1..] + tokens;
      RelationsEnd(before[1..], tokens);
    }
  }

  /** The same after any text that leaves nothing open. */
  lemma NameReadsBackAfter(a: string, keyword: string, modifiers: seq<string>, parts: seq<NamePart>)
    requires Closed(a) && Reference(keyword, modifiers, parts)
    ensures var relations := Relations(Tokens(a + "\n" + PrintReference(keyword, modifiers, parts)));
            && relations != [] && relations[|relations| - 1] == IdentifierOf(Values(parts))
            && Named(parts, relations[|relations| - 1])
  {
    var statement := PrintReference(keyword, modifiers, parts);
    hide Tokens, RelationAt, PrintReference, Relations, Closed, Reference, Values;
    ConcatIffClosed(a);
    assert Tokens(a + "\n" + statement) == Tokens(a) + Tokens(statement);
    NameReadsBack(keyword, modifiers, parts);
    RelationsEnd(Tokens(a), Tokens(statement));
    var relations := Relations(Tokens(a) + Tokens(statement));
    assert relations[|relations| - 1..][0] == IdentifierOf(Values(parts));
  }
}

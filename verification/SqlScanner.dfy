/** The generator's SQL scanner: just enough of the lexical structure to find the relations a statement names. */
module SqlScanner {
  import opened Basics
  import Text

  datatype Token = Token(value: string, identifier: bool, quoted: bool)

  // Characters

  predicate IsSpace(c: char) {
    c in {' ', '\t', '\n', '\r', '\U{00000C}'}
  }

  predicate IsStart(c: char) {
    c == '_' || 'a' <= c <= 'z' || 'A' <= c <= 'Z'
  }

  predicate IsTagPart(c: char) {
    IsStart(c) || '0' <= c <= '9'
  }

  predicate IsPart(c: char) {
    IsTagPart(c) || c == '$'
  }

  function LowerChar(c: char): char {
    if 'A' <= c <= 'Z' then (c as int + 32) as char else c
  }

  function Lower(s: string): (r: string)
    ensures |r| == |s|
  {
    Text.Lowered(s, LowerChar)
  }

  predicate Starts(s: string, a: char, b: char) {
    |s| > 1 && s[0] == a && s[1] == b
  }

  // What each construct covers

  /** The rest of a line comment. */
  function LineEnd(s: string): (n: nat)
    ensures n <= |s|
  {
    if s == "" || s[0] == '\n' then 0 else 1 + LineEnd(s[1..])
  }

  datatype Comment = Comment(length: nat, depth: nat)

  /** The rest of a block comment at nesting depth `depth`, and the depth left when it ends. */
  function Block(s: string, depth: nat): (r: Comment)
    ensures r.length <= |s|
    ensures r.depth > 0 ==> r.length == |s|
    decreases |s|
  {
    if s == "" || depth == 0 then Comment(0, depth)
    else if Starts(s, '/', '*') then var r := Block(s[2..], depth + 1); r.(length := r.length + 2)
    else if Starts(s, '*', '/') then var r := Block(s[2..], depth - 1); r.(length := r.length + 2)
    else var r := Block(s[1..], depth); r.(length := r.length + 1)
  }

  datatype Literal = Literal(value: string, length: nat, closed: bool)

  /** The rest of a quoted text: its value with doubled quotes undone, and whether the closing quote is there. */
  function Quoted(s: string, quote: char): (r: Literal)
    ensures r.length <= |s|
    ensures !r.closed ==> r.length == |s|
    decreases |s|
  {
    if s == "" then Literal("", 0, false)
    else if s[0] != quote then
      var r := Quoted(s[1..], quote); Literal([s[0]] + r.value, r.length + 1, r.closed)
    else if |s| > 1 && s[1] == quote then
      var r := Quoted(s[2..], quote); Literal([quote] + r.value, r.length + 2, r.closed)
    else Literal("", 1, true)
  }

  function TagEnd(s: string): (n: nat)
    ensures n <= |s|
    ensures forall i :: 0 <= i < n ==> IsTagPart(s[i])
  {
    if s == "" || !IsTagPart(s[0]) then 0 else 1 + TagEnd(s[1..])
  }

  function WordEnd(s: string): (n: nat)
    ensures n <= |s|
  {
    if s == "" || !IsPart(s[0]) then 0 else 1 + WordEnd(s[1..])
  }

  /** Where `p` first occurs in `s`. */
  function Find(s: string, p: string): (r: Option<nat>)
    ensures r.Some? ==> r.value + |p| <= |s|
  {
    if p <= s then Some(0)
    else if s == "" then None
    else
      var r := Find(s[1..], p);
      if r.Some? then Some(r.value + 1) else None
  }

  // One step and the whole text

  /** One lexical construct; `open` means the text ended inside it. */
  datatype Lexeme = Lexeme(length: nat, tokens: seq<Token>, open: bool)

  function Dollar(s: string): (r: Lexeme)
    requires s != ""
    ensures 0 < r.length <= |s| && r.tokens == []
  {
    var tag := TagEnd(s[1..]);
    if 1 + tag >= |s| || s[1 + tag] != '$' then Lexeme(1, [], false)
    else
      var delimiter := s[..2 + tag];
      match Find(s[2 + tag..], delimiter)
      case Some(i) => Lexeme(2 + tag + i + |delimiter|, [], false)
      case None => Lexeme(|s|, [], true)
  }

  function Step(s: string): (r: Lexeme)
    requires s != ""
    ensures 0 < r.length <= |s|
  {
    if IsSpace(s[0]) then Lexeme(1, [], false)
    else if Starts(s, '-', '-') then Lexeme(2 + LineEnd(s[2..]), [], false)
    else if Starts(s, '/', '*') then var c := Block(s[2..], 1); Lexeme(2 + c.length, [], c.depth > 0)
    else if s[0] == '\'' then var q := Quoted(s[1..], '\''); Lexeme(1 + q.length, [], !q.closed)
    else if s[0] == '"' then
      var q := Quoted(s[1..], '"'); Lexeme(1 + q.length, [Token(q.value, true, true)], !q.closed)
    else if s[0] == '$' then Dollar(s)
    else if IsStart(s[0]) then
      var n := 1 + WordEnd(s[1..]); Lexeme(n, [Token(Lower(s[..n]), true, false)], false)
    else Lexeme(1, if s[0] == '.' || s[0] == '(' then [Token([s[0]], false, false)] else [], false)
  }

  function Tokens(s: string): seq<Token>
    decreases |s|
  {
    if s == "" then [] else Step(s).tokens + Tokens(s[Step(s).length..])
  }

  /** No construct is left unterminated. */
  predicate Closed(s: string)
    decreases |s|
  {
    s == "" || (!Step(s).open && Closed(s[Step(s).length..]))
  }

  // The scanner's loops

  method SkipLineComment(sql: string, start: nat) returns (index: nat)
    requires start <= |sql|
    ensures index == start + LineEnd(sql[start..])
  {
    index := start;
    while index < |sql| && sql[index] != '\n'
      invariant start <= index <= |sql|
      invariant index + LineEnd(sql[index..]) == start + LineEnd(sql[start..])
    {
      assert sql[index..][1..] == sql[index + 1..];
      index := index + 1;
    }
  }

  lemma BlockStep(sql: string, index: nat, depth: nat)
    requires index < |sql| && depth > 0
    ensures var rest := sql[index..];
            Block(rest, depth).length ==
            if Starts(rest, '/', '*') then Block(sql[index + 2..], depth + 1).length + 2
            else if Starts(rest, '*', '/') then Block(sql[index + 2..], depth - 1).length + 2
            else Block(sql[index + 1..], depth).length + 1
  {
    var rest := sql[index..];
    assert rest[1..] == sql[index + 1..];
    if |rest| > 1 {
      assert rest[2..] == sql[index + 2..];
    }
  }

  method SkipBlockComment(sql: string, start: nat) returns (index: nat)
    requires start <= |sql|
    ensures index == start + Block(sql[start..], 1).length
  {
    hide Block;
    index := start;
    var depth: nat := 1;
    while index < |sql| && depth > 0
      invariant start <= index <= |sql|
      invariant index + Block(sql[index..], depth).length == start + Block(sql[start..], 1).length
      decreases |sql| - index
    {
      BlockStep(sql, index, depth);
      if Starts(sql[index..], '/', '*') {
        depth, index := depth + 1, index + 2;
      } else if Starts(sql[index..], '*', '/') {
        depth, index := depth - 1, index + 2;
      } else {
        index := index + 1;
      }
    }
    BlockEnd(sql[index..], depth);
  }

  lemma BlockEnd(s: string, depth: nat)
    requires s == "" || depth == 0
    ensures Block(s, depth) == Comment(0, depth)
  {
  }

  lemma QuotedStep(sql: string, index: nat, quote: char)
    requires index < |sql|
    ensures var now := Quoted(sql[index..], quote);
            if sql[index] != quote then
              var next := Quoted(sql[index + 1..], quote);
              now.length == next.length + 1 && now.value == [sql[index]] + next.value
            else if index + 1 < |sql| && sql[index + 1] == quote then
              var next := Quoted(sql[index + 2..], quote);
              now.length == next.length + 2 && now.value == [quote] + next.value
            else now.length == 1 && now.value == ""
  {
    var rest := sql[index..];
    assert rest[1..] == sql[index + 1..];
    if |rest| > 1 {
      assert rest[2..] == sql[index + 2..];
    }
  }

  method SkipSingleQuoted(sql: string, start: nat) returns (index: nat)
    requires start <= |sql|
    ensures index == start + Quoted(sql[start..], '\'').length
  {
    index := start;
    while index < |sql|
      invariant start <= index <= |sql|
      invariant index + Quoted(sql[index..], '\'').length == start + Quoted(sql[start..], '\'').length
    {
      QuotedStep(sql, index, '\'');
      hide Quoted;
      if sql[index] != '\'' {
        index := index + 1;
      } else if index + 1 < |sql| && sql[index + 1] == '\'' {
        index := index + 2;
      } else {
        return index + 1;
      }
    }
  }

  method ReadQuotedIdentifier(sql: string, start: nat) returns (value: string, index: nat)
    requires start <= |sql|
    ensures var q := Quoted(sql[start..], '"'); value == q.value && index == start + q.length
  {
    QuotedEnd('"');
    hide Quoted;
    value, index := "", start;
    ghost var whole := Quoted(sql[start..], '"');
    while index < |sql|
      invariant start <= index <= |sql|
      invariant index + Quoted(sql[index..], '"').length == start + whole.length
      invariant value + Quoted(sql[index..], '"').value == whole.value
    {
      QuotedStep(sql, index, '"');
      if sql[index] != '"' {
        Append(value, sql[index], Quoted(sql[index + 1..], '"').value);
        value, index := value + [sql[index]], index + 1;
      } else if index + 1 < |sql| && sql[index + 1] == '"' {
        Append(value, '"', Quoted(sql[index + 2..], '"').value);
        value, index := value + ['"'], index + 2;
      } else {
        return value, index + 1;
      }
    }
    assert sql[index..] == "";
  }

  lemma QuotedEnd(quote: char)
    ensures Quoted("", quote) == Literal("", 0, false)
  {
  }

  lemma Append(s: string, c: char, t: string)
    ensures s + ([c] + t) == (s + [c]) + t
  {
  }

  method SkipTag(sql: string, start: nat) returns (index: nat)
    requires start <= |sql|
    ensures index == start + TagEnd(sql[start..])
  {
    index := start;
    while index < |sql| && IsTagPart(sql[index])
      invariant start <= index <= |sql|
      invariant index + TagEnd(sql[index..]) == start + TagEnd(sql[start..])
    {
      assert sql[index..][1..] == sql[index + 1..];
      index := index + 1;
    }
  }

  method SkipDollarQuoted(sql: string, start: nat) returns (index: nat, ok: bool)
    requires start < |sql|
    ensures (if ok then index else start + 1) == start + Dollar(sql[start..]).length
  {
    var end := SkipTag(sql, start + 1);
    hide TagEnd, Find;
    ghost var rest := sql[start..];
    assert rest[1..] == sql[start + 1..];
    if end >= |sql| || sql[end] != '$' {
      return start, false;
    }
    var delimiter := sql[start..end + 1];
    assert delimiter == rest[..end + 1 - start] && sql[end + 1..] == rest[end + 1 - start..];
    var closing := Find(sql[end + 1..], delimiter);
    if closing.Some? {
      return end + 1 + closing.value + |delimiter|, true;
    }
    return |sql|, true;
  }

  method SkipWord(sql: string, start: nat) returns (index: nat)
    requires start <= |sql|
    ensures index == start + WordEnd(sql[start..])
  {
    index := start;
    while index < |sql| && IsPart(sql[index])
      invariant start <= index <= |sql|
      invariant index + WordEnd(sql[index..]) == start + WordEnd(sql[start..])
    {
      assert sql[index..][1..] == sql[index + 1..];
      index := index + 1;
    }
  }

  /** The tokenizer. */
  method Tokenize(sql: string) returns (tokens: seq<Token>)
    ensures tokens == Tokens(sql)
  {
    hide Step;
    tokens := [];
    var index := 0;
    while index < |sql|
      invariant 0 <= index <= |sql|
      invariant tokens + Tokens(sql[index..]) == Tokens(sql)
      decreases |sql| - index
    {
      var found, next := ReadLexeme(sql, index);
      assert sql[index..][next - index..] == sql[next..];
      tokens := tokens + found;
      index := next;
    }
  }

  /** One pass of the tokenizer's loop. */
  method ReadLexeme(sql: string, start: nat) returns (tokens: seq<Token>, index: nat)
    requires start < |sql|
    ensures index == start + Step(sql[start..]).length && tokens == Step(sql[start..]).tokens
  {
    hide Dollar, Lower, LineEnd, Block, Quoted, WordEnd;
    tokens, index := [], start;
    var rest := sql[start..];
    if IsSpace(sql[index]) {
      index := index + 1;
    } else if Starts(rest, '-', '-') {
      assert rest[2..] == sql[start + 2..];
      index := SkipLineComment(sql, index + 2);
    } else if Starts(rest, '/', '*') {
      assert rest[2..] == sql[start + 2..];
      index := SkipBlockComment(sql, index + 2);
    } else if sql[index] == '\'' {
      assert rest[1..] == sql[start + 1..];
      index := SkipSingleQuoted(sql, index + 1);
    } else if sql[index] == '"' {
      assert rest[1..] == sql[start + 1..];
      var value;
      value, index := ReadQuotedIdentifier(sql, index + 1);
      tokens := [Token(value, true, true)];
    } else if sql[index] == '$' {
      var next, ok := SkipDollarQuoted(sql, index);
      index := if ok then next else index + 1;
    } else if IsStart(sql[index]) {
      assert rest[1..] == sql[start + 1..];
      index := SkipWord(sql, index + 1);
      assert sql[start..index] == rest[..index - start];
      tokens := [Token(Lower(sql[start..index]), true, false)];
    } else {
      if sql[index] == '.' || sql[index] == '(' {
        tokens := [Token([sql[index]], false, false)];
      }
      index := index + 1;
    }
  }
}

/** Comments and literals leave no tokens, whatever they contain. */
module SqlInvisible {
  import opened Basics
  import opened SqlConcatenation
  import opened SqlScanner

  /** The text of a block comment: with its closing marker it ends exactly there. */
  ghost predicate CommentText(c: string) {
    Block(c + "*/", 1) == Comment(|c| + 2, 0)
  }

  lemma TooShort(s: string, k: nat)
    requires s != ""
    ensures |s| == 1 && k > 0 ==> Block(s, k).depth == k
  {
    assert s[1..] == "" <==> |s| == 1;
  }

  lemma BlockOpens(text: string, depth: nat)
    requires Starts(text, '/', '*') && depth > 0
    ensures Block(text, depth) == Comment(Block(text[2..], depth + 1).length + 2, Block(text[2..], depth + 1).depth)
  {
  }

  /** A text that closes `k` levels exactly at its end closes `k` of any larger number of levels and leaves the rest to
      what follows. */
  lemma {:induction false} Levels(s: string, t: string, k: nat, d: nat)
    requires Block(s, k) == Comment(|s|, 0)
    ensures Block(s + t, k + d) == Comment(|s| + Block(t, d).length, Block(t, d).depth)
    decreases |s|
  {
    if s == "" {
      assert s + t == t;
    } else {
      TooShort(s, k);
      if Starts(s, '/', '*') {
        assert (s + t)[2..] == s[2..] + t;
        Levels(s[2..], t, k + 1, d);
      } else if Starts(s, '*', '/') {
        assert (s + t)[2..] == s[2..] + t;
        Levels(s[2..], t, k - 1, d);
      } else {
        assert (s + t)[1..] == s[1..] + t;
        Levels(s[1..], t, k, d);
      }
    }
  }

  /** A comment, written out, before some other text. */
  function Commented(c: string, rest: string): string {
    "/*" + (c + "*/") + rest
  }

  lemma CommentedShape(c: string, rest: string)
    ensures var text := Commented(c, rest);
            Starts(text, '/', '*') && text[2..] == (c + "*/") + rest && text[|c| + 4..] == rest
  {
  }

  /** Comments nest: inside a comment, a whole comment is skipped and the depth is what it was. */
  lemma NestedComment(c: string, rest: string, depth: nat)
    requires CommentText(c) && depth > 0
    ensures Block(Commented(c, rest), depth)
         == Comment(|c| + 4 + Block(rest, depth).length, Block(rest, depth).depth)
  {
    hide Block, Commented, Starts;
    CommentedShape(c, rest);
    Levels(c + "*/", rest, 1, depth);
    BlockOpens(Commented(c, rest), depth);
  }

  /** A comment can be put into a comment. */
  lemma NestedText(c: string, rest: string)
    requires CommentText(c) && CommentText(rest)
    ensures CommentText(Commented(c, rest))
  {
    hide Block;
    NestedComment(c, rest + "*/", 1);
    assert Commented(c, rest + "*/") == Commented(c, rest) + "*/";
    assert |Commented(c, rest)| == |c| + 4 + |rest|;
  }

  /** A block comment with anything nested in it leaves no token. */
  lemma CommentIsInvisible(c: string, rest: string)
    requires CommentText(c)
    ensures Tokens(Commented(c, rest)) == Tokens(rest)
  {
    hide Block, Commented;
    var text := Commented(c, rest);
    CommentedShape(c, rest);
    Levels(c + "*/", rest, 1, 0);
    NoLevels(rest);
    assert Step(text) == Lexeme(|c| + 4, [], false);
    hide Step, Tokens;
    TokensStep(text);
  }

  // The grammar of comment texts

  /** Plain text, or plain text, a nested comment and what follows it. */
  datatype Body = Plain(text: string) | Then(text: string, inner: Body, rest: Body)

  predicate Marker(a: char, b: char) {
    (a == '/' && b == '*') || (a == '*' && b == '/')
  }

  /** No comment marker starts in the text when `next` follows it. */
  ghost predicate Quiet(text: string, next: char) {
    forall i :: 0 <= i < |text| ==> !Marker(text[i], (text + [next])[i + 1])
  }

  /** Plain text holds no marker, not even together with the one that follows it. */
  ghost predicate Fine(body: Body) {
    match body
    case Plain(text) => Quiet(text, '*')
    case Then(text, inner, rest) => Quiet(text, '/') && Fine(inner) && Fine(rest)
  }

  function PrintBody(body: Body): string {
    match body
    case Plain(text) => text
    case Then(text, inner, rest) => text + Commented(PrintBody(inner), PrintBody(rest))
  }

  lemma {:induction false} QuietSkipped(text: string, rest: string, depth: nat)
    requires rest != "" && Quiet(text, rest[0]) && depth > 0
    ensures Block(text + rest, depth) == Comment(|text| + Block(rest, depth).length, Block(rest, depth).depth)
  {
    if text == "" {
      assert text + rest == rest;
    } else {
      var tail := text[1..];
      assert (text + rest)[1..] == tail + rest;
      assert (text + rest)[1] == (text + [rest[0]])[1];
      assert Quiet(tail, rest[0]) by {
        forall i | 0 <= i < |tail| ensures !Marker(tail[i], (tail + [rest[0]])[i + 1]) {
          assert tail[i] == text[i + 1] && (tail + [rest[0]])[i + 1] == (text + [rest[0]])[i + 2];
        }
      }
      QuietSkipped(tail, rest, depth);
    }
  }

  lemma CloseOne(rest: string, depth: nat)
    requires depth > 0
    ensures Block("*/" + rest, depth) == Comment(2 + Block(rest, depth - 1).length, Block(rest, depth - 1).depth)
  {
    assert ("*/" + rest)[2..] == rest;
  }

  /** A printed body and its closing marker close exactly one level. */
  lemma {:induction false} BodyCloses(body: Body, rest: string, depth: nat)
    requires Fine(body) && depth > 0
    ensures var text := PrintBody(body) + "*/";
            Block(text + rest, depth) == Comment(|text| + Block(rest, depth - 1).length, Block(rest, depth - 1).depth)
    decreases body
  {
    hide Block, Quiet;
    match body
    case Plain(text) =>
      assert text + "*/" + rest == text + ("*/" + rest);
      QuietSkipped(text, "*/" + rest, depth);
      CloseOne(rest, depth);
    case Then(text, inner, after) =>
      var first, last := PrintBody(inner) + "*/", PrintBody(after) + "*/";
      assert PrintBody(body) + "*/" + rest == text + ("/*" + (first + (last + rest)));
      QuietSkipped(text, "/*" + (first + (last + rest)), depth);
      OpenOne(first + (last + rest), depth);
      BodyCloses(inner, last + rest, depth + 1);
      BodyCloses(after, rest, depth);
  }

  lemma OpenOne(rest: string, depth: nat)
    requires depth > 0
    ensures Block("/*" + rest, depth) == Comment(2 + Block(rest, depth + 1).length, Block(rest, depth + 1).depth)
  {
    assert ("/*" + rest)[2..] == rest;
  }

  lemma ClosingStep(s: string, depth: nat)
    requires depth > 0 && Block(s, depth) == Comment(|s|, 0)
    ensures |s| > 1
    ensures Starts(s, '/', '*') ==> Block(s[2..], depth + 1) == Comment(|s| - 2, 0)
    ensures Starts(s, '*', '/') ==> Block(s[2..], depth - 1) == Comment(|s| - 2, 0)
    ensures !Starts(s, '/', '*') && !Starts(s, '*', '/') ==> Block(s[1..], depth) == Comment(|s| - 1, 0)
  {
    if s != "" {
      TooShort(s, depth);
    }
  }

  lemma Joined(s: string, inner: Body, middle: string, after: Body, rest: string)
    requires |s| > 1 && Starts(s, '/', '*') && s[2..] == PrintBody(inner) + "*/" + middle
    requires middle == PrintBody(after) + "*/" + rest
    ensures s == PrintBody(Then("", inner, after)) + "*/" + rest
  {
    assert s == "/*" + s[2..];
    var a, b := PrintBody(inner), PrintBody(after);
    assert PrintBody(Then("", inner, after)) == "" + ("/*" + (a + "*/") + b);
  }

  /** The body with one more plain character in front. */
  function Lead(c: char, body: Body): Body {
    match body
    case Plain(text) => Plain([c] + text)
    case Then(text, inner, rest) => Then([c] + text, inner, rest)
  }

  lemma LeadPrints(c: char, body: Body)
    ensures PrintBody(Lead(c, body)) == [c] + PrintBody(body)
  {
    hide Commented;
    if body.Then? {
      var nested := Commented(PrintBody(body.inner), PrintBody(body.rest));
      assert ([c] + body.text) + nested == [c] + (body.text + nested);
    }
  }

  /** The marker character that follows the plain text a body starts with. */
  function NextMark(body: Body): char {
    if body.Plain? then '*' else '/'
  }

  lemma FirstChar(body: Body)
    ensures PrintBody(body) + "*/" != "" && (PrintBody(body) + "*/")[0] == (body.text + [NextMark(body)])[0]
  {
    if body.Then? {
      CommentedShape(PrintBody(body.inner), PrintBody(body.rest));
      hide Commented, PrintBody;
    }
  }

  lemma LeadReads(s: string, tail: Body, rest: string)
    requires Fine(tail) && |s| > 1 && !Marker(s[0], s[1]) && s[1..] == PrintBody(tail) + "*/" + rest
    ensures Fine(Lead(s[0], tail)) && s == PrintBody(Lead(s[0], tail)) + "*/" + rest
  {
    LeadPrints(s[0], tail);
    FirstChar(tail);
    var text := PrintBody(tail) + "*/";
    hide PrintBody, Quiet;
    assert s == [s[0]] + s[1..] && s[1] == text[0];
    Prepend(s[0], tail.text, NextMark(tail), s[1..]);
  }

  lemma CloseReads(s: string)
    requires Starts(s, '*', '/')
    ensures Fine(Plain("")) && s == PrintBody(Plain("")) + "*/" + s[2..]
  {
  }

  /** A text that closes `depth` levels exactly at its end starts with a printed body and a closing marker. */
  lemma {:induction false} ReadBody(s: string, depth: nat) returns (body: Body, rest: string)
    requires depth > 0 && Block(s, depth) == Comment(|s|, 0)
    ensures Fine(body) && s == PrintBody(body) + "*/" + rest
    ensures Block(rest, depth - 1) == Comment(|rest|, 0)
    decreases |s|
  {
    ClosingStep(s, depth);
    hide Block, PrintBody, Lead, Quiet;
    if Starts(s, '/', '*') {
      var inner, middle := ReadBody(s[2..], depth + 1);
      var after, end := ReadBody(middle, depth);
      body, rest := Then("", inner, after), end;
      Joined(s, inner, middle, after, rest);
      EmptyIsQuiet('/');
    } else if Starts(s, '*', '/') {
      body, rest := Plain(""), s[2..];
      CloseReads(s);
    } else {
      var tail, end := ReadBody(s[1..], depth);
      body, rest := Lead(s[0], tail), end;
      LeadReads(s, tail, rest);
    }
  }

  lemma EmptyIsQuiet(next: char)
    ensures Quiet("", next)
  {
  }

  lemma Prepend(c: char, text: string, next: char, after: string)
    requires Quiet(text, next) && after != "" && !Marker(c, after[0]) && after[0] == (text + [next])[0]
    ensures Quiet([c] + text, next)
  {
    var all := [c] + text;
    forall i | 0 <= i < |all| ensures !Marker(all[i], (all + [next])[i + 1]) {
      assert (all + [next])[i + 1] == (text + [next])[i];
      assert i > 0 ==> all[i] == text[i - 1] && (text + [next])[i] == (text + [next])[i - 1 + 1];
    }
  }

  /** The texts of block comments are exactly the printed bodies: plain runs and nested comments, to any depth. */
  lemma CommentTextIffBody(c: string)
    ensures CommentText(c) <==> exists body :: Fine(body) && PrintBody(body) == c
  {
    if CommentText(c) {
      var body, rest := ReadBody(c + "*/", 1);
      assert rest == "" by {
        NoLevels(rest);
      }
      assert PrintBody(body) + "*/" + rest == PrintBody(body) + "*/";
      assert PrintBody(body) == (PrintBody(body) + "*/")[..|c|] == c;
    }
    forall body | Fine(body) && PrintBody(body) == c ensures CommentText(c) {
      BodyCloses(body, "", 1);
      NoLevels("");
      assert PrintBody(body) + "*/" + "" == c + "*/";
    }
  }

  lemma NoLevels(s: string)
    ensures Block(s, 0) == Comment(0, 0)
  {
  }

  /** A line comment leaves no token. */
  lemma LineCommentIsInvisible(c: string, rest: string)
    requires '\n' !in c
    ensures Tokens("--" + c + "\n" + rest) == Tokens(rest)
  {
    var text := "--" + c + "\n" + rest;
    LineStops(c, rest);
    assert text == "--" + (c + ("\n" + rest)) && text[2..] == c + ("\n" + rest) && text[|c| + 2..] == "\n" + rest;
    hide LineEnd;
    assert Step(text) == Lexeme(|c| + 2, [], false);
    SkipNewline(rest);
    hide Step, Tokens;
    TokensStep(text);
  }

  lemma {:induction false} LineStops(c: string, rest: string)
    requires '\n' !in c
    ensures LineEnd(c + ("\n" + rest)) == |c|
  {
    if c != "" {
      assert (c + ("\n" + rest))[1..] == c[1..] + ("\n" + rest);
      LineStops(c[1..], rest);
    }
  }

  function Delimiter(tag: string): string {
    "$" + tag + "$"
  }

  /** A dollar-quoted literal, written out, before some other text. */
  function DollarQuoted(tag: string, body: string, rest: string): string {
    Delimiter(tag) + (body + Delimiter(tag) + rest)
  }

  lemma DollarShape(tag: string, body: string, rest: string)
    ensures var text := DollarQuoted(tag, body, rest);
            && text != "" && text[0] == '$' && text[1..] == tag + ("$" + (body + Delimiter(tag) + rest))
            && text[|tag| + 1] == '$' && text[..|tag| + 2] == Delimiter(tag)
            && text[|tag| + 2..] == body + Delimiter(tag) + rest
            && text[|body| + 2 * |tag| + 4..] == rest
  {
  }

  lemma {:induction false} FindFirst(s: string, p: string, i: nat)
    requires i <= |s| && p <= s[i..] && forall k :: 0 <= k < i ==> !(p <= s[k..])
    ensures Find(s, p) == Some(i)
  {
    assert s[0..] == s;
    if i > 0 {
      forall k | 0 <= k < i - 1 ensures !(p <= s[1..][k..]) {
        assert s[1..][k..] == s[k + 1..];
      }
      assert s[1..][i - 1..] == s[i..];
      FindFirst(s[1..], p, i - 1);
    }
  }

  /** A dollar-quoted literal whose delimiter first comes back at its end leaves no token. Its tag is made of letters,
      underscores and digits. */
  lemma DollarIsInvisible(tag: string, body: string, rest: string)
    requires forall i :: 0 <= i < |tag| ==>
      'a' <= tag[i] <= 'z' || 'A' <= tag[i] <= 'Z' || tag[i] == '_' || '0' <= tag[i] <= '9'
    requires forall k :: 0 <= k < |body| ==> !(Delimiter(tag) <= (body + Delimiter(tag))[k..])
    ensures Tokens(DollarQuoted(tag, body, rest)) == Tokens(rest)
  {
    assert (body + Delimiter(tag))[|body|..] == Delimiter(tag);
    FindFirst(body + Delimiter(tag), Delimiter(tag), |body|);
    DollarFound(tag, body, rest);
  }

  lemma DollarFound(tag: string, body: string, rest: string)
    requires forall i :: 0 <= i < |tag| ==> IsTagPart(tag[i])
    requires Find(body + Delimiter(tag), Delimiter(tag)) == Some(|body|)
    ensures Tokens(DollarQuoted(tag, body, rest)) == Tokens(rest)
  {
    var text := DollarQuoted(tag, body, rest);
    DollarShape(tag, body, rest);
    FindExtends(body + Delimiter(tag), rest, Delimiter(tag));
    TagReads(tag, "$" + (body + Delimiter(tag) + rest));
    assert |Delimiter(tag)| == |tag| + 2;
    hide Find, TagEnd, DollarQuoted, Delimiter;
    assert Dollar(text) == Lexeme(|body| + 2 * |tag| + 4, [], false);
    DollarStep(text);
    hide Step, Tokens, Dollar;
    TokensStep(text);
  }

  lemma DollarStep(text: string)
    requires text != "" && text[0] == '$'
    ensures Step(text) == Dollar(text)
  {
    hide Dollar;
  }

  lemma {:induction false} TagReads(tag: string, rest: string)
    requires (forall i :: 0 <= i < |tag| ==> IsTagPart(tag[i])) && rest != "" && !IsTagPart(rest[0])
    ensures TagEnd(tag + rest) == |tag|
  {
    if tag == "" {
      assert tag + rest == rest;
    } else {
      assert (tag + rest)[1..] == tag[1..] + rest;
      TagReads(tag[1..], rest);
    }
  }
}

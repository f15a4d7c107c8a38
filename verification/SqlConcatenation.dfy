/** Scanning line by line: when the tokens of a text do not depend on what follows it. */
module SqlConcatenation {
  import opened SqlScanner

  // A finished construct is not affected by a following line

  ghost predicate NextLine(t: string) {
    t != "" && t[0] == '\n'
  }

  lemma {:induction false} LineExtends(s: string, t: string)
    requires NextLine(t)
    ensures LineEnd(s + t) == LineEnd(s)
  {
    if s != "" {
      assert (s + t)[1..] == s[1..] + t;
      LineExtends(s[1..], t);
    }
  }

  lemma {:induction false} WordExtends(s: string, t: string)
    requires NextLine(t)
    ensures WordEnd(s + t) == WordEnd(s)
  {
    if s != "" {
      assert (s + t)[1..] == s[1..] + t;
      WordExtends(s[1..], t);
    }
  }

  lemma {:induction false} TagExtends(s: string, t: string)
    requires NextLine(t)
    ensures TagEnd(s + t) == TagEnd(s)
  {
    if s != "" {
      assert (s + t)[1..] == s[1..] + t;
      TagExtends(s[1..], t);
    }
  }

  lemma StartsExtends(s: string, t: string, a: char, b: char)
    requires NextLine(t) && s != "" && b != '\n'
    ensures Starts(s + t, a, b) == Starts(s, a, b)
  {
  }

  lemma {:induction false} BlockExtends(s: string, t: string, depth: nat)
    requires NextLine(t) && Block(s, depth).depth == 0
    ensures Block(s + t, depth) == Block(s, depth)
    decreases |s|
  {
    if s != "" && depth > 0 {
      StartsExtends(s, t, '/', '*');
      StartsExtends(s, t, '*', '/');
      if Starts(s, '/', '*') {
        assert (s + t)[2..] == s[2..] + t;
        BlockExtends(s[2..], t, depth + 1);
      } else if Starts(s, '*', '/') {
        assert (s + t)[2..] == s[2..] + t;
        BlockExtends(s[2..], t, depth - 1);
      } else {
        assert (s + t)[1..] == s[1..] + t;
        BlockExtends(s[1..], t, depth);
      }
    }
  }

  lemma {:induction false} QuotedExtends(s: string, t: string, quote: char)
    requires NextLine(t) && quote != '\n' && Quoted(s, quote).closed
    ensures Quoted(s + t, quote) == Quoted(s, quote)
    decreases |s|
  {
    if s[0] != quote {
      assert (s + t)[1..] == s[1..] + t;
      QuotedExtends(s[1..], t, quote);
    } else if |s| > 1 && s[1] == quote {
      assert (s + t)[2..] == s[2..] + t;
      QuotedExtends(s[2..], t, quote);
    } else {
      assert |s| == 1 ==> (s + t)[1] == '\n';
    }
  }

  lemma {:induction false} FindExtends(s: string, t: string, p: string)
    requires Find(s, p).Some?
    ensures Find(s + t, p) == Find(s, p)
  {
    if !(p <= s) {
      FindExtends(s[1..], t, p);
      assert (s + t)[1..] == s[1..] + t;
      assert s[..|p|] == (s + t)[..|p|];
    }
  }

  lemma DollarExtends(s: string, t: string)
    requires NextLine(t) && s != "" && !Dollar(s).open
    ensures Dollar(s + t) == Dollar(s)
  {
    assert (s + t)[1..] == s[1..] + t;
    TagExtends(s[1..], t);
    var tag := TagEnd(s[1..]);
    if 1 + tag < |s| && s[1 + tag] == '$' {
      assert (s + t)[..2 + tag] == s[..2 + tag] && (s + t)[2 + tag..] == s[2 + tag..] + t;
      FindExtends(s[2 + tag..], t, s[..2 + tag]);
    }
  }

  lemma StepExtends(s: string, t: string)
    requires NextLine(t) && s != "" && !Step(s).open
    ensures Step(s + t) == Step(s)
  {
    hide LineEnd, Block, Quoted, WordEnd, Dollar;
    assert (s + t)[1..] == s[1..] + t && (s + t)[0] == s[0];
    StartsExtends(s, t, '-', '-');
    StartsExtends(s, t, '/', '*');
    if IsSpace(s[0]) {
    } else if Starts(s, '-', '-') {
      assert (s + t)[2..] == s[2..] + t;
      LineExtends(s[2..], t);
    } else if Starts(s, '/', '*') {
      assert (s + t)[2..] == s[2..] + t;
      BlockExtends(s[2..], t, 1);
    } else if s[0] == '\'' || s[0] == '"' {
      QuotedExtends(s[1..], t, s[0]);
    } else if s[0] == '$' {
      DollarExtends(s, t);
    } else if IsStart(s[0]) {
      WordExtends(s[1..], t);
      var n := 1 + WordEnd(s[1..]);
      assert (s + t)[..n] == s[..n];
    }
  }

  lemma NoTokens()
    ensures Tokens("") == []
  {
  }

  lemma TokensStep(s: string)
    requires s != ""
    ensures Tokens(s) == Step(s).tokens + Tokens(s[Step(s).length..])
  {
  }

  lemma {:induction false} ClosedConcat(a: string, t: string)
    requires Closed(a) && NextLine(t)
    ensures Tokens(a + t) == Tokens(a) + Tokens(t)
    decreases |a|
  {
    hide Step, Tokens;
    if a == "" {
      assert a + t == t && Tokens(a) == [] by {
        NoTokens();
      }
    } else {
      var n := Step(a).length;
      StepExtends(a, t);
      assert (a + t)[n..] == a[n..] + t;
      ClosedConcat(a[n..], t);
      TokensStep(a);
      TokensStep(a + t);
    }
  }

  lemma SkipNewline(b: string)
    ensures Tokens("\n" + b) == Tokens(b)
  {
    assert ("\n" + b)[1..] == b;
  }

  // An unfinished construct swallows the following line

  const PROBE := "\ny"

  lemma ProbeInComment(depth: nat)
    requires depth > 0
    ensures Block(PROBE, depth) == Comment(2, depth)
  {
    assert PROBE[1..] == "y" && PROBE[1..][1..] == "";
  }

  lemma {:induction false} BlockSwallows(s: string, t: string, depth: nat)
    requires Block(s, depth).depth > 0
    requires NextLine(t) && forall d: nat | d > 0 :: Block(t, d) == Comment(|t|, d)
    ensures Block(s + t, depth).length == |s| + |t| && Block(s + t, depth).depth > 0
    decreases |s|
  {
    if s == "" {
      assert s + t == t;
    } else {
      StartsExtends(s, t, '/', '*');
      StartsExtends(s, t, '*', '/');
      if Starts(s, '/', '*') {
        assert (s + t)[2..] == s[2..] + t;
        BlockSwallows(s[2..], t, depth + 1);
      } else if Starts(s, '*', '/') {
        assert (s + t)[2..] == s[2..] + t;
        BlockSwallows(s[2..], t, depth - 1);
      } else {
        assert (s + t)[1..] == s[1..] + t;
        BlockSwallows(s[1..], t, depth);
      }
    }
  }

  lemma ProbeInQuotes(quote: char)
    requires quote in {'\'', '"'}
    ensures Quoted(PROBE, quote) == Literal(PROBE, 2, false)
  {
    assert PROBE[1..] == "y" && PROBE[1..][1..] == "";
  }

  lemma {:induction false} QuotedSwallows(s: string, t: string, quote: char)
    requires !Quoted(s, quote).closed && !Quoted(t, quote).closed
    ensures Quoted(s + t, quote).length == |s| + |t| && !Quoted(s + t, quote).closed
    decreases |s|
  {
    if s == "" {
      assert s + t == t;
    } else if s[0] != quote {
      assert (s + t)[1..] == s[1..] + t;
      QuotedSwallows(s[1..], t, quote);
    } else {
      assert (s + t)[2..] == s[2..] + t;
      QuotedSwallows(s[2..], t, quote);
    }
  }

  ghost predicate Delimiter(p: string) {
    && |p| >= 2 && p[|p| - 1] == '$'
    && forall i :: 0 <= i < |p| ==> p[i] != '\n'
  }

  lemma {:induction false} FindSwallows(s: string, p: string)
    requires Delimiter(p) && Find(s, p).None?
    ensures Find(s + PROBE, p).None?
  {
    var t := PROBE;
    if p <= s + t {
      NotAcross(s, p);
    }
    if s == "" {
      assert s + t == t;
      assert t[1..] == "y" && t[1..][1..] == "";
    } else {
      assert (s + t)[1..] == s[1..] + t;
      FindSwallows(s[1..], p);
    }
  }

  /** A delimiter cannot start in one line and end in the next. */
  lemma NotAcross(s: string, p: string)
    requires Delimiter(p) && p <= s + PROBE
    ensures p <= s
  {
    assert (s + PROBE)[|s|] == '\n';
    assert forall i :: 0 <= i < |p| ==> p[i] == (s + PROBE)[i];
    assert (s + PROBE)[..|p|] == s[..|p|];
  }

  lemma DollarSwallows(s: string)
    requires s != "" && s[0] == '$' && Dollar(s).open
    ensures Dollar(s + PROBE).length == |s| + 2
  {
    var t := PROBE;
    assert (s + t)[1..] == s[1..] + t;
    TagExtends(s[1..], t);
    var tag := TagEnd(s[1..]);
    var delimiter := s[..2 + tag];
    hide Find, TagEnd;
    assert (s + t)[..2 + tag] == delimiter && (s + t)[2 + tag..] == s[2 + tag..] + t;
    forall i | 0 <= i < |delimiter| ensures delimiter[i] != '\n' {
      assert 0 < i < 1 + tag ==> IsTagPart(s[1..][i - 1]);
    }
    FindSwallows(s[2 + tag..], delimiter);
  }

  lemma StepSwallows(s: string)
    requires s != "" && Step(s).open
    ensures Step(s + PROBE).length == |s| + 2 && |Step(s + PROBE).tokens| == |Step(s).tokens| && Step(s).length == |s|
  {
    hide Block, Quoted, Dollar;
    var t := PROBE;
    assert (s + t)[1..] == s[1..] + t && (s + t)[0] == s[0];
    StartsExtends(s, t, '-', '-');
    StartsExtends(s, t, '/', '*');
    if Starts(s, '/', '*') {
      assert (s + t)[2..] == s[2..] + t;
      forall d: nat | d > 0 ensures Block(t, d) == Comment(|t|, d) {
        ProbeInComment(d);
      }
      BlockSwallows(s[2..], t, 1);
    } else if s[0] == '$' {
      DollarSwallows(s);
      OpenDollar(s);
    } else {
      ProbeInQuotes(s[0]);
      QuotedSwallows(s[1..], t, s[0]);
    }
  }

  lemma OpenDollar(s: string)
    requires s != "" && Dollar(s).open
    ensures Dollar(s).length == |s|
  {
  }

  lemma {:induction false} OpenSwallows(a: string)
    requires !Closed(a)
    ensures |Tokens(a + PROBE)| == |Tokens(a)|
    decreases |a|
  {
    var t, n := PROBE, Step(a).length;
    hide Step;
    if Step(a).open {
      StepSwallows(a);
      assert (a + t)[|a| + 2..] == "" && a[n..] == "";
    } else {
      StepExtends(a, t);
      assert (a + t)[n..] == a[n..] + t;
      OpenSwallows(a[n..]);
    }
  }

  lemma ProbeToken()
    ensures |Tokens("y")| == 1
  {
    assert "y"[1..] == "";
  }

  /** Scanning two texts line after line gives the tokens of both, whatever the second is, exactly when the first leaves
      no comment, literal or quoted name open. */
  lemma ConcatIffClosed(a: string)
    ensures Closed(a) <==> forall b :: Tokens(a + "\n" + b) == Tokens(a) + Tokens(b)
  {
    hide Step;
    if Closed(a) {
      forall b ensures Tokens(a + "\n" + b) == Tokens(a) + Tokens(b) {
        assert a + "\n" + b == a + ("\n" + b);
        ClosedConcat(a, "\n" + b);
        SkipNewline(b);
      }
    } else {
      OpenSwallows(a);
      ProbeToken();
      assert a + "\n" + "y" == a + PROBE;
      assert Tokens(a + "\n" + "y") != Tokens(a) + Tokens("y");
    }
  }

  /** A text that leaves a literal open, and a next line it swallows. */
  lemma OpenLiteralSwallows()
    ensures !Closed("'") && Tokens("'" + "\n" + "y") != Tokens("'") + Tokens("y")
  {
    QuotedEnd('\'');
    assert "'"[1..] == "";
    assert Step("'") == Lexeme(1, [], true) by {
      hide Quoted, Block, LineEnd, WordEnd, Dollar;
    }
    hide Step, Tokens;
    OpenSwallows("'");
    ProbeToken();
    assert "'" + "\n" + "y" == "'" + PROBE;
  }
}

/** Shard annotations: which comment texts denote a route, and what they denote. */
module RouteAnnotation {
  import opened Basics
  import opened Text

  datatype Annotation = Annotation(name: string, operands: seq<string>)

  datatype ParseError =
    | Malformed
    | InvalidName(name: string)
    | InvalidOperand(operand: string)
    | Repeated(operand: string)

  // Text helpers

  function TrimLeft(s: string): (r: string)
    ensures |r| <= |s|
  {
    if s != "" && IsSpace(s[0]) then TrimLeft(s[1..]) else s
  }

  function TrimRight(s: string): (r: string)
    ensures |r| <= |s|
  {
    if s != "" && IsSpace(s[|s| - 1]) then TrimRight(s[..|s| - 1]) else s
  }

  function Trim(s: string): string {
    TrimRight(TrimLeft(s))
  }

  function Trims(parts: seq<string>): (r: seq<string>)
    ensures |r| == |parts|
  {
    seq(|parts|, i requires 0 <= i < |parts| => Trim(parts[i]))
  }

  /** Where a character first occurs, or the length when it does not. */
  function IndexOf(s: string, c: char): (i: nat)
    ensures i <= |s| && c !in s[..i]
    ensures i < |s| ==> s[i] == c
  {
    if s == "" || s[0] == c then 0
    else
      var i := IndexOf(s[1..], c);
      assert s[..i + 1] == [s[0]] + s[1..][..i];
      i + 1
  }

  function OnFirst(c: char, parts: seq<string>): (r: seq<string>)
    requires parts != []
    ensures |r| == |parts|
  {
    [[c] + parts[0]] + parts[1..]
  }

  function OnLast(parts: seq<string>, c: char): (r: seq<string>)
    requires parts != []
    ensures |r| == |parts|
  {
    parts[..|parts| - 1] + [parts[|parts| - 1] + [c]]
  }

  function Split(s: string): (parts: seq<string>)
    ensures parts != []
  {
    if s == "" then [""]
    else
      var rest := Split(s[1..]);
      if s[0] == ',' then [""] + rest else OnFirst(s[0], rest)
  }

  ghost predicate CommaFree(parts: seq<string>) {
    forall i :: 0 <= i < |parts| ==> ',' !in parts[i]
  }

  lemma {:induction false} SplitPlain(s: string)
    requires ',' !in s
    ensures Split(s) == [s]
  {
    if s != "" {
      SplitPlain(s[1..]);
      assert [s[0]] + s[1..] == s;
    }
  }

  lemma {:induction false} SplitHead(s: string, rest: string)
    requires ',' !in s
    ensures Split(s + "," + rest) == [s] + Split(rest)
  {
    var text := s + "," + rest;
    if s == "" {
      assert text[1..] == rest;
    } else {
      assert text[1..] == s[1..] + "," + rest;
      SplitHead(s[1..], rest);
      assert [s[0]] + s[1..] == s;
    }
  }

  lemma {:induction false} SplitJoin(parts: seq<string>)
    requires parts != [] && CommaFree(parts)
    ensures Split(Join(parts, ",")) == parts
  {
    if |parts| == 1 {
      SplitPlain(parts[0]);
    } else {
      SplitHead(parts[0], Join(parts[1..], ","));
      SplitJoin(parts[1..]);
      assert [parts[0]] + parts[1..] == parts;
    }
  }

  lemma {:induction false} JoinSplit(s: string)
    ensures Join(Split(s), ",") == s && CommaFree(Split(s))
  {
    if s != "" {
      JoinSplit(s[1..]);
      var rest := Split(s[1..]);
      if s[0] == ',' {
        assert ([""] + rest)[1..] == rest;
      } else {
        var parts := OnFirst(s[0], rest);
        assert parts[1..] == rest[1..];
        assert Join(parts, ",") == [s[0]] + Join(rest, ",");
      }
    }
  }

  // Trimming the whole list does not change its trimmed parts

  lemma BothEnds(a: char, parts: seq<string>, c: char)
    requires parts != []
    ensures OnLast(OnFirst(a, parts), c) == OnFirst(a, OnLast(parts, c))
  {
    var left, right := OnLast(OnFirst(a, parts), c), OnFirst(a, OnLast(parts, c));
    if |parts| == 1 {
      assert left == [[a] + parts[0] + [c]] && right == [[a] + (parts[0] + [c])];
      assert [a] + parts[0] + [c] == [a] + (parts[0] + [c]);
    } else {
      assert forall i :: 0 <= i < |parts| ==> left[i] == right[i];
    }
  }

  lemma {:induction false} SplitLast(s: string, c: char)
    requires c != ','
    ensures Split(s + [c]) == OnLast(Split(s), c)
  {
    if s == "" {
      assert s + [c] == [c] && [c][1..] == "";
      assert [c] + "" == [c] && "" + [c] == [c];
    } else {
      assert (s + [c])[1..] == s[1..] + [c];
      SplitLast(s[1..], c);
      var rest := Split(s[1..]);
      if s[0] == ',' {
        assert OnLast([""] + rest, c) == [""] + OnLast(rest, c);
      } else {
        BothEnds(s[0], rest, c);
      }
    }
  }

  lemma {:induction false} TrimLast(p: string, c: char)
    requires IsSpace(c)
    ensures Trim(p + [c]) == Trim(p)
  {
    if p == "" {
      assert p + [c] == [c] && [c][1..] == "";
    } else if IsSpace(p[0]) {
      assert (p + [c])[1..] == p[1..] + [c];
      TrimLast(p[1..], c);
    } else {
      assert (p + [c])[..|p|] == p;
    }
  }

  lemma TrimFirst(p: string, c: char)
    requires IsSpace(c)
    ensures Trim([c] + p) == Trim(p)
  {
    assert ([c] + p)[1..] == p;
  }

  lemma TrimsOnFirst(c: char, parts: seq<string>)
    requires parts != [] && IsSpace(c)
    ensures Trims(OnFirst(c, parts)) == Trims(parts)
  {
    TrimFirst(parts[0], c);
    hide Trim, IsSpace;
  }

  lemma TrimsOnLast(parts: seq<string>, c: char)
    requires parts != [] && IsSpace(c)
    ensures Trims(OnLast(parts, c)) == Trims(parts)
  {
    TrimLast(parts[|parts| - 1], c);
    hide Trim, IsSpace;
  }

  lemma {:induction false} SplitTrimLeft(s: string)
    ensures Trims(Split(TrimLeft(s))) == Trims(Split(s))
  {
    hide Trims, OnFirst;
    if s != "" && IsSpace(s[0]) {
      SplitTrimLeft(s[1..]);
      TrimsOnFirst(s[0], Split(s[1..]));
    }
  }

  lemma {:induction false} SplitTrimRight(s: string)
    ensures Trims(Split(TrimRight(s))) == Trims(Split(s))
  {
    hide Trims, OnLast, Split;
    if s != "" && IsSpace(s[|s| - 1]) {
      var init, c := s[..|s| - 1], s[|s| - 1];
      SplitTrimRight(init);
      assert s == init + [c];
      SplitLast(init, c);
      TrimsOnLast(Split(init), c);
    }
  }

  lemma SplitTrim(s: string)
    ensures Trims(Split(Trim(s))) == Trims(Split(s))
  {
    SplitTrimRight(TrimLeft(s));
    SplitTrimLeft(s);
  }

  // The parser

  /** A letter or underscore, then letters, digits and underscores. */
  ghost predicate Valid(s: string, letter: char -> bool, digit: char -> bool) {
    s != "" && forall i :: 0 <= i < |s| ==> letter(s[i]) || s[i] == '_' || (i > 0 && digit(s[i]))
  }

  method ValidRouteIdentifier(s: string, letter: char -> bool, digit: char -> bool) returns (ok: bool)
    ensures ok == Valid(s, letter, digit)
  {
    if s == "" {
      return false;
    }
    for i := 0 to |s|
      invariant forall j :: 0 <= j < i ==> letter(s[j]) || s[j] == '_' || (j > 0 && digit(s[j]))
    {
      if letter(s[i]) || s[i] == '_' || (i > 0 && digit(s[i])) {
        continue;
      }
      return false;
    }
    return true;
  }

  ghost predicate AllValid(names: seq<string>, letter: char -> bool, digit: char -> bool) {
    forall i :: 0 <= i < |names| ==> Valid(names[i], letter, digit)
  }

  ghost predicate OperandFault(operands: seq<string>, e: ParseError, letter: char -> bool, digit: char -> bool) {
    match e
    case InvalidOperand(operand) => operand in operands && !Valid(operand, letter, digit)
    case Repeated(operand) => exists i, j :: 0 <= i < j < |operands| && operands[i] == operand == operands[j]
    case _ => false
  }

  /** Which fault an error reports. */
  ghost predicate Faulty(value: string, e: ParseError, letter: char -> bool, digit: char -> bool) {
    var open := IndexOf(value, '(');
    var shaped := 0 < open < |value| && value[|value| - 1] == ')';
    match e
    case Malformed => !shaped
    case InvalidName(name) => shaped && name == Trim(value[..open]) && !Valid(name, letter, digit)
    case _ =>
      shaped && open + 1 < |value| && OperandFault(Trims(Split(value[open + 1..|value| - 1])), e, letter, digit)
  }

  /** The operands of a non-empty list. */
  method ParseOperands(body: string, letter: char -> bool, digit: char -> bool)
    returns (r: Result<seq<string>, ParseError>)
    ensures r.Ok? <==> AllValid(Trims(Split(body)), letter, digit) && Distinct(Trims(Split(body)))
    ensures r.Ok? ==> r.value == Trims(Split(body))
    ensures r.Err? ==> OperandFault(Trims(Split(body)), r.error, letter, digit)
  {
    hide Valid, Split, Trim;
    var parts := Split(body);
    ghost var trimmed := Trims(parts);
    var operands: seq<string> := [];
    var seen: set<string> := {};
    for i := 0 to |parts|
      invariant operands == trimmed[..i] && AllValid(operands, letter, digit) && Distinct(operands)
      invariant forall operand :: operand in seen <==> operand in operands
    {
      var operand := Trim(parts[i]);
      var valid := ValidRouteIdentifier(operand, letter, digit);
      assert trimmed[i] == operand;
      if !valid {
        return Err(InvalidOperand(operand));
      }
      if operand in seen {
        ghost var k :| 0 <= k < i && operands[k] == operand;
        assert trimmed[k] == operand;
        return Err(Repeated(operand));
      }
      seen := seen + {operand};
      operands := operands + [operand];
    }
    r := Ok(operands);
  }

  /** Parses what follows the annotation prefix. */
  method ParseRoute(value: string, letter: char -> bool, digit: char -> bool)
    returns (r: Result<Annotation, ParseError>)
    ensures r.Ok? ==> Denotes(value, r.value, letter, digit)
    ensures r.Err? ==> Faulty(value, r.error, letter, digit) && !exists a :: Denotes(value, a, letter, digit)
  {
    hide Valid, Split, Trim, IndexOf, Denotes;
    var open := IndexOf(value, '(');
    if open == 0 || open == |value| || value[|value| - 1] != ')' {
      forall a ensures !Denotes(value, a, letter, digit) {
        DenotesShape(value, a, letter, digit);
      }
      return Err(Malformed);
    }
    var name := Trim(value[..open]);
    var inside := value[open + 1..|value| - 1];
    forall a ensures Denotes(value, a, letter, digit) <==> DenotesParts(name, inside, a, letter, digit) {
      DenotesIff(value, open, a, letter, digit);
    }
    var valid := ValidRouteIdentifier(name, letter, digit);
    if !valid {
      return Err(InvalidName(name));
    }
    var body := Trim(inside);
    SplitTrim(inside);
    if body == "" {
      return Ok(Annotation(name, []));
    }
    var operands := ParseOperands(body, letter, digit);
    if operands.Err? {
      return Err(operands.error);
    }
    r := Ok(Annotation(name, operands.value));
  }

  // What a text denotes

  /** A name, an opening parenthesis, comma-separated operands and a closing parenthesis, with any white space around
      the name and the operands. */
  ghost predicate Denotes(value: string, a: Annotation, letter: char -> bool, digit: char -> bool) {
    exists name, parts :: Written(value, name, parts) && Means(name, parts, a, letter, digit)
  }

  ghost predicate Written(value: string, name: string, parts: seq<string>) {
    && '(' !in name && parts != [] && CommaFree(parts)
    && value == name + "(" + Join(parts, ",") + ")"
  }

  ghost predicate Means(name: string, parts: seq<string>, a: Annotation, letter: char -> bool, digit: char -> bool) {
    && a.name == Trim(name) && Valid(a.name, letter, digit)
    && a.operands == (if Trim(Join(parts, ",")) == "" then [] else Trims(parts))
    && AllValid(a.operands, letter, digit) && Distinct(a.operands)
  }

  ghost predicate DenotesParts(name: string, inside: string, a: Annotation, letter: char -> bool, digit: char -> bool) {
    && a.name == name && Valid(a.name, letter, digit)
    && a.operands == (if Trim(inside) == "" then [] else Trims(Split(inside)))
    && AllValid(a.operands, letter, digit) && Distinct(a.operands)
  }

  lemma {:induction false} IndexIs(name: string, rest: string)
    requires '(' !in name
    ensures IndexOf(name + "(" + rest, '(') == |name|
  {
    var text := name + "(" + rest;
    if name != "" {
      assert text[1..] == name[1..] + "(" + rest;
      IndexIs(name[1..], rest);
    }
  }

  lemma WrittenIs(value: string, name: string, parts: seq<string>)
    requires Written(value, name, parts)
    ensures var open := IndexOf(value, '(');
            && open == |name| && open + 1 < |value| && value[|value| - 1] == ')'
            && value[..open] == name && value[open + 1..|value| - 1] == Join(parts, ",")
  {
    var inside := Join(parts, ",");
    assert value == name + "(" + (inside + ")");
    IndexIs(name, inside + ")");
  }

  lemma DenotesShape(value: string, a: Annotation, letter: char -> bool, digit: char -> bool)
    ensures Denotes(value, a, letter, digit) ==>
              var open := IndexOf(value, '('); 0 < open < |value| && value[|value| - 1] == ')'
  {
    hide IndexOf;
    if Denotes(value, a, letter, digit) {
      var name, parts :| Written(value, name, parts) && Means(name, parts, a, letter, digit);
      WrittenIs(value, name, parts);
    }
  }

  lemma ReadsWritten(value: string, name: string, parts: seq<string>, a: Annotation,
                     letter: char -> bool, digit: char -> bool)
    requires Written(value, name, parts) && Means(name, parts, a, letter, digit)
    ensures var open := IndexOf(value, '(');
            && open + 1 < |value|
            && DenotesParts(Trim(value[..open]), value[open + 1..|value| - 1], a, letter, digit)
  {
    WrittenIs(value, name, parts);
    SplitJoin(parts);
    hide Split, Trim, IndexOf, Valid, Join, AllValid, Distinct, Trims;
  }

  lemma Rebuild(value: string, open: nat)
    requires open + 1 < |value| && value[open] == '(' && value[|value| - 1] == ')'
    ensures value == value[..open] + "(" + value[open + 1..|value| - 1] + ")"
  {
  }

  lemma WrittenReads(value: string, open: nat, a: Annotation, letter: char -> bool, digit: char -> bool)
    requires open == IndexOf(value, '(') && open + 1 < |value| && value[|value| - 1] == ')'
    requires DenotesParts(Trim(value[..open]), value[open + 1..|value| - 1], a, letter, digit)
    ensures Denotes(value, a, letter, digit)
  {
    var name, inside := value[..open], value[open + 1..|value| - 1];
    JoinSplit(inside);
    assert value[open] == '(';
    Rebuild(value, open);
    hide Split, Trim, Valid, Join, AllValid, Distinct, Trims, IndexOf;
    assert Written(value, name, Split(inside)) && Means(name, Split(inside), a, letter, digit);
  }

  lemma DenotesIff(value: string, open: nat, a: Annotation, letter: char -> bool, digit: char -> bool)
    requires open == IndexOf(value, '(') && open + 1 < |value| && value[|value| - 1] == ')'
    ensures Denotes(value, a, letter, digit)
       <==> DenotesParts(Trim(value[..open]), value[open + 1..|value| - 1], a, letter, digit)
  {
    hide Written, Means, DenotesParts, Trim, IndexOf;
    if Denotes(value, a, letter, digit) {
      var name, parts :| Written(value, name, parts) && Means(name, parts, a, letter, digit);
      ReadsWritten(value, name, parts, a, letter, digit);
    }
    if DenotesParts(Trim(value[..open]), value[open + 1..|value| - 1], a, letter, digit) {
      WrittenReads(value, open, a, letter, digit);
    }
  }

  /** A text denotes at most one route. */
  lemma DenotesOne(value: string, a: Annotation, b: Annotation, letter: char -> bool, digit: char -> bool)
    requires Denotes(value, a, letter, digit) && Denotes(value, b, letter, digit)
    ensures a == b
  {
    hide Denotes, Trim, IndexOf, Split, Valid;
    DenotesShape(value, a, letter, digit);
    var open := IndexOf(value, '(');
    assert value[open] == '(';
    DenotesIff(value, open, a, letter, digit);
    DenotesIff(value, open, b, letter, digit);
  }

  // Comments

  predicate HasPrefix(s: string, p: string) {
    |p| <= |s| && s[..|p|] == p
  }

  predicate HasSuffix(s: string, p: string) {
    |p| <= |s| && s[|s| - |p|..] == p
  }

  function TrimPrefix(s: string, p: string): string {
    if HasPrefix(s, p) then s[|p|..] else s
  }

  function TrimSuffix(s: string, p: string): string {
    if HasSuffix(s, p) then s[..|s| - |p|] else s
  }

  /** The text of a comment without its markers. */
  function NormalizeComment(comment: string): string {
    Trim(WithoutBlock(Trim(WithoutLine(Trim(comment)))))
  }

  function WithoutLine(text: string): string {
    TrimPrefix(TrimPrefix(text, "--"), "//")
  }

  function WithoutBlock(text: string): string {
    if HasPrefix(text, "/*") && HasSuffix(text, "*/") then TrimSuffix(TrimPrefix(text, "/*"), "*/") else text
  }

  const PREFIX := "shard:"

  /** What follows the annotation prefix. */
  function ValueOf(comment: string): string
    requires |NormalizeComment(comment)| >= |PREFIX|
  {
    Trim(NormalizeComment(comment)[|PREFIX|..])
  }

  /** Parses a comment that carries the annotation prefix. */
  method ParseShardAnnotation(comment: string, letter: char -> bool, digit: char -> bool)
    returns (r: Result<Annotation, ParseError>)
    requires |NormalizeComment(comment)| >= |PREFIX|
    ensures Parsed(comment, letter, digit, r)
  {
    r := ParseRoute(ValueOf(comment), letter, digit);
  }

  // Printing and reading back

  /** Letters and digits are not white space or punctuation. */
  ghost predicate Plain(letter: char -> bool, digit: char -> bool) {
    forall c :: letter(c) || digit(c) ==> !IsSpace(c) && c !in {'(', ')', ','}
  }

  ghost predicate Solid(s: string) {
    s != "" && !IsSpace(s[0]) && !IsSpace(s[|s| - 1])
  }

  lemma ValidIsPlain(s: string, letter: char -> bool, digit: char -> bool)
    requires Plain(letter, digit) && Valid(s, letter, digit)
    ensures Solid(s) && '(' !in s && ',' !in s
  {
    forall i | 0 <= i < |s| ensures !IsSpace(s[i]) && s[i] !in {'(', ')', ','} {
      assert letter(s[i]) || s[i] == '_' || digit(s[i]);
    }
  }

  lemma {:induction false} TrimBefore(pre: string, s: string)
    requires Blank(pre)
    ensures Trim(pre + s) == Trim(s)
  {
    if pre == "" {
      assert pre + s == s;
    } else {
      assert pre + s == [pre[0]] + (pre[1..] + s);
      TrimFirst(pre[1..] + s, pre[0]);
      TrimBefore(pre[1..], s);
    }
  }

  lemma {:induction false} TrimAfter(s: string, post: string)
    requires Blank(post)
    ensures Trim(s + post) == Trim(s)
  {
    if post == "" {
      assert s + post == s;
    } else {
      var n := |post| - 1;
      assert s + post == (s + post[..n]) + [post[n]];
      TrimLast(s + post[..n], post[n]);
      TrimAfter(s, post[..n]);
    }
  }

  lemma TrimAround(pre: string, s: string, post: string)
    requires Blank(pre) && Blank(post) && Solid(s)
    ensures Trim(pre + s + post) == s
  {
    assert pre + s + post == pre + (s + post);
    TrimBefore(pre, s + post);
    TrimAfter(s, post);
  }

  /** The three ways to write a comment. */
  datatype Style = Dashes | Slashes | Block

  function Opening(style: Style): string {
    match style
    case Dashes => "--"
    case Slashes => "//"
    case Block => "/*"
  }

  function Closing(style: Style): string {
    if style.Block? then "*/" else ""
  }

  /** A comment with a shard annotation; `a` to `e` are the places for white space. */
  function Comment(style: Style, a: string, b: string, c: string, value: string, d: string, e: string): string {
    a + Marked(style, b, "shard:" + (c + value), d) + e
  }

  function Marked(style: Style, b: string, text: string, d: string): string {
    Opening(style) + (b + text + d) + Closing(style)
  }

  lemma Unmark(style: Style, b: string, text: string, d: string)
    requires Blank(b) && Solid(text) && text[0] != '/'
    ensures WithoutLine(Marked(style, b, text, d))
         == if style.Block? then Marked(style, b, text, d) else b + text + d
  {
    var inner, marked := b + text + d, Marked(style, b, text, d);
    assert inner[0] != '/' by {
      assert !IsSpace('/');
    }
    assert marked[0] == Opening(style)[0] && marked[1] == Opening(style)[1];
    match style
    case Dashes => assert marked[..2] == "--" && marked[2..] == inner;
    case Slashes => assert marked[..2] == "//" && marked[2..] == inner;
    case Block =>
  }

  lemma Unwrap(open: string, inner: string, close: string)
    ensures var all := open + inner + close;
            && HasPrefix(all, open) && HasSuffix(all, close)
            && TrimSuffix(TrimPrefix(all, open), close) == inner
  {
    var all, rest := open + inner + close, inner + close;
    assert all[..|open|] == open && all[|open|..] == rest && all[|all| - |close|..] == close;
    assert rest[|rest| - |close|..] == close && rest[..|rest| - |close|] == inner;
  }

  lemma UnmarkBlock(b: string, text: string, d: string)
    ensures var marked := Marked(Block, b, text, d);
            Solid(marked) && WithoutBlock(marked) == b + text + d
  {
    var marked := Marked(Block, b, text, d);
    assert marked[0] == '/' && marked[|marked| - 1] == '/';
    hide HasPrefix, HasSuffix, TrimPrefix, TrimSuffix;
    Unwrap("/*", b + text + d, "*/");
  }

  lemma MarkedTrims(style: Style, a: string, b: string, text: string, d: string, e: string)
    requires Blank(a) && Blank(b) && Blank(d) && Blank(e) && Solid(text)
    ensures var trimmed := Trim(a + Marked(style, b, text, d) + e);
            trimmed == if style.Block? then Marked(style, b, text, d) else Marked(style, b, text, "")
  {
    var marked, all := Marked(style, b, text, d), Marked(style, b, text, "");
    if style.Block? {
      UnmarkBlock(b, text, d);
      TrimAround(a, marked, e);
    } else {
      assert all == Opening(style) + (b + text);
      assert all[0] == Opening(style)[0] && all[|all| - 1] == text[|text| - 1];
      assert a + marked + e == a + all + (d + e);
      assert Blank(d + e);
      TrimAround(a, all, d + e);
    }
  }

  /** Whatever the style of a comment and the white space in it, its text is what stands between the markers. */
  lemma NormalizedText(style: Style, a: string, b: string, text: string, d: string, e: string)
    requires Blank(a) && Blank(b) && Blank(d) && Blank(e) && Solid(text) && text[0] != '/'
    ensures NormalizeComment(a + Marked(style, b, text, d) + e) == text
  {
    MarkedTrims(style, a, b, text, d, e);
    var marked := Marked(style, b, text, if style.Block? then d else "");
    Unmark(style, b, text, if style.Block? then d else "");
    if style.Block? {
      UnmarkBlock(b, text, d);
      TrimSolid(marked);
      TrimAround(b, text, d);
    } else {
      assert b + text + "" == b + text;
      TrimBefore(b, text);
      TrimSolid(text);
      NoBlock(text);
    }
    hide Trim, WithoutLine, WithoutBlock, Marked;
  }

  lemma NoBlock(text: string)
    requires text != "" && text[0] != '/'
    ensures WithoutBlock(text) == text
  {
    assert !HasPrefix(text, "/*");
  }

  /** A comment with the prefix keeps exactly the route text, whatever white space stands around it. */
  lemma CommentValue(style: Style, a: string, b: string, c: string, value: string, d: string, e: string)
    requires Blank(a) && Blank(b) && Blank(c) && Blank(d) && Blank(e) && Solid(value)
    ensures var comment := Comment(style, a, b, c, value, d, e);
            |NormalizeComment(comment)| >= |PREFIX| && ValueOf(comment) == value
  {
    var text := "shard:" + (c + value);
    assert text[0] == 's' && text[|text| - 1] == value[|value| - 1];
    NormalizedText(style, a, b, text, d, e);
    assert text[|PREFIX|..] == c + value;
    TrimBefore(c, value);
    TrimSolid(value);
    hide Trim, NormalizeComment;
  }

  /** The operands after a comma and a space each. */
  function Spaced(operands: seq<string>): (r: seq<string>)
    ensures |r| == |operands|
  {
    seq(|operands|, i requires 0 <= i < |operands| => if i == 0 then operands[0] else " " + operands[i])
  }

  function Print(a: Annotation): string {
    a.name + "(" + Join(Spaced(a.operands), ",") + ")"
  }

  lemma PrintedDenotes(a: Annotation, letter: char -> bool, digit: char -> bool)
    requires Plain(letter, digit) && Valid(a.name, letter, digit)
    requires AllValid(a.operands, letter, digit) && Distinct(a.operands)
    ensures Denotes(Print(a), a, letter, digit) && Solid(Print(a))
  {
    ValidIsPlain(a.name, letter, digit);
    TrimSolid(a.name);
    assert Print(a)[0] == a.name[0] && Print(a)[|Print(a)| - 1] == ')';
    if a.operands == [] {
      assert Written(Print(a), a.name, [""]) && Means(a.name, [""], a, letter, digit);
    } else {
      SpacedParts(a.operands, letter, digit);
      hide Trim, Valid, Join;
      assert Written(Print(a), a.name, Spaced(a.operands)) && Means(a.name, Spaced(a.operands), a, letter, digit);
    }
  }

  lemma TrimSolid(s: string)
    requires Solid(s)
    ensures Trim(s) == s
  {
  }

  lemma SpacedParts(operands: seq<string>, letter: char -> bool, digit: char -> bool)
    requires operands != [] && Plain(letter, digit) && AllValid(operands, letter, digit)
    ensures CommaFree(Spaced(operands)) && Trims(Spaced(operands)) == operands
    ensures Trim(Join(Spaced(operands), ",")) != ""
  {
    var parts := Spaced(operands);
    forall i | 0 <= i < |operands| ensures ',' !in parts[i] && Trim(parts[i]) == operands[i] {
      ValidIsPlain(operands[i], letter, digit);
      TrimSolid(operands[i]);
      TrimFirst(operands[i], ' ');
    }
    SplitJoin(parts);
    SplitTrim(Join(parts, ","));
    hide Trim;
    assert Trims(parts)[0] != "";
    assert Trims(Split("")) == [""] by {
      TrimNothing();
    }
  }

  lemma TrimNothing()
    ensures Trim("") == ""
  {
  }

  /** The parser's contract for one comment. */
  ghost predicate Parsed(comment: string, letter: char -> bool, digit: char -> bool, r: Result<Annotation, ParseError>)
    requires |NormalizeComment(comment)| >= |PREFIX|
  {
    if r.Ok? then Denotes(ValueOf(comment), r.value, letter, digit)
    else Faulty(ValueOf(comment), r.error, letter, digit) && !exists a :: Denotes(ValueOf(comment), a, letter, digit)
  }

  /** Printing a route with valid and different operands as a comment of any style and parsing it gives the route
      back. */
  lemma PrintedReadsBack(annotation: Annotation, letter: char -> bool, digit: char -> bool,
                         style: Style, a: string, b: string, c: string, d: string, e: string,
                         r: Result<Annotation, ParseError>)
    requires Plain(letter, digit) && Valid(annotation.name, letter, digit)
    requires AllValid(annotation.operands, letter, digit) && Distinct(annotation.operands)
    requires Blank(a) && Blank(b) && Blank(c) && Blank(d) && Blank(e)
    ensures var comment := Comment(style, a, b, c, Print(annotation), d, e);
            |NormalizeComment(comment)| >= |PREFIX| && (Parsed(comment, letter, digit, r) <==> r == Ok(annotation))
  {
    PrintedDenotes(annotation, letter, digit);
    CommentValue(style, a, b, c, Print(annotation), d, e);
    hide Denotes, Print, Valid, NormalizeComment, Comment, Trim;
    if r.Ok? && Denotes(Print(annotation), r.value, letter, digit) {
      DenotesOne(Print(annotation), annotation, r.value, letter, digit);
    }
  }
}

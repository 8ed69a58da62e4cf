/** What the scanner reads, compared with the reference lexer, and how parsing composes. */
module BinderTheorems {
  import opened Common
  import opened Text
  import opened SqlLexer
  import opened BinderParser

  // ----- exactly when the scanner reads SQL -----

  /** The asterisk-slash pair occurs inside t[lo..hi], other than as its very end. */
  predicate ClosesEarly(t: string, lo: nat, hi: nat)
    requires hi <= |t|
  {
    exists j :: lo <= j && j + 2 < hi && t[j] == '*' && t[j + 1] == '/'
  }

  /** A token on which the scanner agrees with the reference lexer: behind a variable there is a
      string or a single character, no line comment contains an asterisk-slash pair, and a lone
      colon is the last character or stands directly behind a variable. */
  predicate Harmless(t: string, tok: Token, afterVariable: bool)
    requires tok.lo < tok.hi <= |t|
  {
    && (afterVariable ==> tok.kind.Quoted? || tok.kind.Plain?)
    && (tok.kind.LineComment? ==> !ClosesEarly(t, tok.lo + 2, tok.hi))
    && (tok.kind.Plain? && t[tok.lo] == ':' && !afterVariable ==> tok.hi == |t|)
  }

  predicate AllHarmless(t: string, i: nat, toks: seq<Token>, afterVariable: bool)
    requires Tiles(t, i, toks)
    decreases |toks|
  {
    toks == [] ||
    (Harmless(t, toks[0], afterVariable) && AllHarmless(t, toks[0].hi, toks[1..], toks[0].kind.Variable?))
  }

  /** The scanner reads exactly the reference tokens if and only if all of them are harmless. */
  lemma {:induction false} ScanIsLexIff(t: string, i: nat, afterVariable: bool)
    requires i <= |t|
    ensures ScanAll(t, i, afterVariable) == Lex(t, i) <==> AllHarmless(t, i, Lex(t, i), afterVariable)
    decreases |t| - i
  {
    if i < |t| {
      var std := Next(t, i);
      var tok := Scan(t, i, afterVariable);
      StepIsLexIff(t, i, afterVariable);
      ScanIsLexIff(t, std.hi, std.kind.Variable?);
      assert Lex(t, i) == [std] + Lex(t, std.hi);
      assert ScanAll(t, i, afterVariable) == [tok] + ScanAll(t, tok.hi, tok.kind.Variable?);
      if ScanAll(t, i, afterVariable) == Lex(t, i) {
        assert tok == ScanAll(t, i, afterVariable)[0] == Lex(t, i)[0] == std;
        assert ScanAll(t, tok.hi, tok.kind.Variable?) == ScanAll(t, i, afterVariable)[1..] == Lex(t, std.hi);
      }
    }
  }

  lemma StepIsLexIff(t: string, i: nat, afterVariable: bool)
    requires i < |t|
    ensures Scan(t, i, afterVariable) == Next(t, i) <==> Harmless(t, Next(t, i), afterVariable)
  {
    if !afterVariable || t[i] == '\'' {
      if t[i] == '-' && At(t, i + 1, '-') {
        LineEndsAgreeIff(t, i + 2);
      } else if t[i] == '/' && At(t, i + 1, '*') {
        BlockEndsAgree(t, i + 2);
      }
    }
  }

  lemma {:induction false} LineEndsAgreeIff(t: string, i: nat)
    requires i <= |t|
    ensures OrEnd(CommentEnd(t, i, true), t) == OrEnd(LineEnd(t, i), t)
       <==> !ClosesEarly(t, i, OrEnd(LineEnd(t, i), t))
    decreases |t| - i
  {
    if i < |t| && t[i] != '\n' {
      var hi := OrEnd(LineEnd(t, i), t);
      LineEndsAgreeIff(t, i + 1);
      assert ClosesEarly(t, i, hi) <==>
             (i + 2 < hi && t[i] == '*' && t[i + 1] == '/') || ClosesEarly(t, i + 1, hi);
    }
  }

  lemma {:induction false} BlockEndsAgree(t: string, i: nat)
    requires i <= |t|
    ensures OrEnd(CommentEnd(t, i, false), t) == OrEnd(BlockEnd(t, i), t)
    decreases |t| - i
  {
    if i < |t| {
      BlockEndsAgree(t, i + 1);
    }
  }

  lemma {:induction false} LexHasNoStray(t: string, i: nat)
    requires i <= |t|
    ensures NoStray(Lex(t, i))
    decreases |t| - i
  {
    if i < |t| {
      LexHasNoStray(t, Next(t, i).hi);
    }
  }

  predicate ReadsAsSql(t: string) { AllHarmless(t, 0, Lex(t, 0), false) }

  /** Such a template is accepted, and the scanner finds exactly the variables of the template. */
  lemma ParsesSqlVariables(t: string)
    requires ReadsAsSql(t)
    ensures Accepts(t) && ParsedVariables(t) == Variables(t, 0, Lex(t, 0))
  {
    ScanIsLexIff(t, 0, false);
    LexHasNoStray(t, 0);
  }

  // ----- templates on which the scanner and the reference lexer differ -----

  function LexVariables(t: string, i: nat): seq<Data>
    requires i <= |t|
  {
    Variables(t, i, Lex(t, i))
  }

  function ScanVariables(t: string, i: nat, afterVariable: bool): seq<Data>
    requires i <= |t|
  {
    Variables(t, i, ScanAll(t, i, afterVariable))
  }

  lemma LexStep(t: string, i: nat, tok: Token)
    requires i < |t| && tok == Next(t, i)
    ensures LexVariables(t, i) == VariableOf(t, tok) + LexVariables(t, tok.hi)
  {
  }

  lemma ScanStep(t: string, i: nat, afterVariable: bool, tok: Token)
    requires i < |t| && tok == Scan(t, i, afterVariable)
    ensures ScanVariables(t, i, afterVariable) == VariableOf(t, tok) + ScanVariables(t, tok.hi, tok.kind.Variable?)
  {
    ScanAllStep(t, i, afterVariable);
  }

  lemma NoVariablesAtEnd(t: string, afterVariable: bool)
    ensures LexVariables(t, |t|) == ScanVariables(t, |t|, afterVariable) == []
  {
  }

  function VariableNamed(a: char, position: nat): Data { Data([':', LowerChar(a)], position) }

  lemma OneCharacterVariable(t: string, i: nat, a: char)
    requires i + 2 <= |t| && t[i] == ':' && t[i + 1] == a
    ensures VariableOf(t, Token(Variable, i, i + 2)) == [VariableNamed(a, i)]
  {
    assert t[i..i + 2] == [':', a];
    assert ToLower([':', a]) == [':', LowerChar(a)];
  }

  /** A cast directly behind a variable: its second colon is taken for the start of a variable. */
  lemma CastBehindVariable(a: char, b: char)
    requires IsAlnum(a) && IsAlnum(b)
    ensures var t := [':', a, ':', ':', b];
            && LexVariables(t, 0) == [VariableNamed(a, 0)]
            && ParsedVariables(t) == [VariableNamed(a, 0), VariableNamed(b, 3)]
  {
    var t := [':', a, ':', ':', b];
    assert ParsedVariables(t) == ScanVariables(t, 0, false);
    hide LexVariables, ScanVariables, ParsedVariables, VariableOf;
    NameEndAt(t, 1, 2);
    OneCharacterVariable(t, 0, a);
    OneCharacterVariable(t, 3, b);
    NoVariablesAtEnd(t, true);
    NoVariablesAtEnd(t, false);
    assert LexVariables(t, 0) == [VariableNamed(a, 0)] by {
      LexStep(t, 0, Token(Variable, 0, 2));
      LexStep(t, 2, Token(Cast, 2, 4));
      LexStep(t, 4, Token(Plain, 4, 5));
      NotAVariable(t, Token(Cast, 2, 4));
      NotAVariable(t, Token(Plain, 4, 5));
    }
    assert ScanVariables(t, 0, false) == [VariableNamed(a, 0), VariableNamed(b, 3)] by {
      ScanStep(t, 0, false, Token(Variable, 0, 2));
      ScanStep(t, 2, true, Token(Plain, 2, 3));
      ScanStep(t, 3, false, Token(Variable, 3, 5));
      NotAVariable(t, Token(Plain, 2, 3));
    }
  }

  /** Another variable directly behind a variable is not seen: its colon only ends the first one. */
  lemma VariableBehindVariable(a: char, b: char)
    requires IsAlnum(a) && IsAlnum(b)
    ensures var t := [':', a, ':', b];
            && LexVariables(t, 0) == [VariableNamed(a, 0), VariableNamed(b, 2)]
            && ParsedVariables(t) == [VariableNamed(a, 0)]
  {
    var t := [':', a, ':', b];
    assert ParsedVariables(t) == ScanVariables(t, 0, false);
    hide LexVariables, ScanVariables, ParsedVariables, VariableOf;
    NameEndAt(t, 1, 2);
    OneCharacterVariable(t, 0, a);
    OneCharacterVariable(t, 2, b);
    NoVariablesAtEnd(t, true);
    NoVariablesAtEnd(t, false);
    assert LexVariables(t, 0) == [VariableNamed(a, 0), VariableNamed(b, 2)] by {
      LexStep(t, 0, Token(Variable, 0, 2));
      LexStep(t, 2, Token(Variable, 2, 4));
    }
    assert ScanVariables(t, 0, false) == [VariableNamed(a, 0)] by {
      ScanStep(t, 0, false, Token(Variable, 0, 2));
      ScanStep(t, 2, true, Token(Plain, 2, 3));
      ScanStep(t, 3, false, Token(Plain, 3, 4));
      NotAVariable(t, Token(Plain, 2, 3));
      NotAVariable(t, Token(Plain, 3, 4));
    }
  }

  /** A comment directly behind a variable: it is not seen, and a colon in it starts a variable. */
  lemma CommentBehindVariable(a: char, b: char)
    requires IsAlnum(a) && IsAlnum(b)
    ensures var t := [':', a, '-', '-', ':', b];
            && LexVariables(t, 0) == [VariableNamed(a, 0)]
            && ParsedVariables(t) == [VariableNamed(a, 0), VariableNamed(b, 4)]
  {
    var t := [':', a, '-', '-', ':', b];
    assert ParsedVariables(t) == ScanVariables(t, 0, false);
    hide LexVariables, ScanVariables, ParsedVariables, VariableOf;
    NameEndAt(t, 1, 2);
    OneCharacterVariable(t, 0, a);
    OneCharacterVariable(t, 4, b);
    LineCommentToEnd(t, 4);
    LexStep(t, 0, Token(Variable, 0, 2));
    LexStep(t, 2, Token(LineComment, 2, 6));
    ScanStep(t, 0, false, Token(Variable, 0, 2));
    ScanStep(t, 2, true, Token(Plain, 2, 3));
    ScanStep(t, 3, false, Token(Plain, 3, 4));
    ScanStep(t, 4, false, Token(Variable, 4, 6));
    NoVariablesAtEnd(t, true);
    NotAVariable(t, Token(LineComment, 2, 6));
    NotAVariable(t, Token(Plain, 2, 3));
    NotAVariable(t, Token(Plain, 3, 4));
  }

  lemma {:induction false} LineCommentToEnd(t: string, i: nat)
    requires forall j :: i <= j < |t| ==> t[j] != '\n'
    ensures LineEnd(t, i) == None
    decreases |t| - i
  {
    if i < |t| {
      LineCommentToEnd(t, i + 1);
    }
  }

  /** An asterisk-slash pair in a line comment ends it. */
  lemma LineCommentClosedEarly(a: char)
    requires IsAlnum(a)
    ensures var t := ['-', '-', '*', '/', ':', a];
            && LexVariables(t, 0) == []
            && ParsedVariables(t) == [VariableNamed(a, 4)]
  {
    var t := ['-', '-', '*', '/', ':', a];
    assert ParsedVariables(t) == ScanVariables(t, 0, false);
    hide LexVariables, ScanVariables, ParsedVariables, VariableOf;
    OneCharacterVariable(t, 4, a);
    LineCommentToEnd(t, 2);
    assert VariableOf(t, Token(LineComment, 0, 6)) == VariableOf(t, Token(LineComment, 0, 4)) == [] by {
      NotAVariable(t, Token(LineComment, 0, 6));
      NotAVariable(t, Token(LineComment, 0, 4));
    }
    LexStep(t, 0, Token(LineComment, 0, 6));
    ScanStep(t, 0, false, Token(LineComment, 0, 4));
    ScanStep(t, 4, false, Token(Variable, 4, 6));
    NoVariablesAtEnd(t, true);
  }

  lemma NotAVariable(t: string, tok: Token)
    requires tok.lo <= tok.hi <= |t| && !tok.kind.Variable?
    ensures VariableOf(t, tok) == []
  {
  }

  /** A lone colon in front of a space aborts the scanner. */
  lemma LoneColonAborts()
    ensures LexVariables(": ", 0) == []
    ensures !Accepts(": ")
  {
    var t := ": ";
    LexStep(t, 0, Token(Plain, 0, 1));
    LexStep(t, 1, Token(Plain, 1, 2));
    NoVariablesAtEnd(t, false);
    ScanAllStep(t, 0, false);
  }

  // ----- parsing composes -----

  predicate Closed(t: string, tok: Token) {
    match tok.kind
    case Quoted => StringEnd(t, tok.lo + 1).Some?
    case LineComment => CommentEnd(t, tok.lo + 2, true).Some?
    case BlockComment => CommentEnd(t, tok.lo + 2, false).Some?
    case _ => true
  }

  /** At the end of t the scanner is outside of strings and comments. */
  predicate Settled(t: string) {
    forall tok :: tok in TokensOf(t) ==> Closed(t, tok)
  }

  function ShiftTokens(toks: seq<Token>, n: nat): (r: seq<Token>)
    ensures |r| == |toks|
  {
    if toks == [] then []
    else [toks[0].(lo := toks[0].lo + n, hi := toks[0].hi + n)] + ShiftTokens(toks[1..], n)
  }

  function ShiftVariables(vars: seq<Data>, n: nat): seq<Data> {
    if vars == [] then [] else [vars[0].(position := vars[0].position + n)] + ShiftVariables(vars[1..], n)
  }

  lemma {:induction false} StringEndShift(a: string, b: string, i: nat)
    ensures StringEnd(a + b, |a| + i) ==
            var r := StringEnd(b, i); if r.Some? then Some(|a| + r.value) else None
    decreases |b| - i
  {
    if i < |b| {
      StringEndShift(a, b, i + 1);
      StringEndShift(a, b, i + 2);
    }
  }

  lemma {:induction false} CommentEndShift(a: string, b: string, i: nat, line: bool)
    ensures CommentEnd(a + b, |a| + i, line) ==
            var r := CommentEnd(b, i, line); if r.Some? then Some(|a| + r.value) else None
    decreases |b| - i
  {
    if i < |b| {
      CommentEndShift(a, b, i + 1, line);
    }
  }

  lemma {:induction false} NameEndShift(a: string, b: string, i: nat)
    requires i <= |b|
    ensures NameEnd(a + b, |a| + i) == |a| + NameEnd(b, i)
    decreases |b| - i
  {
    if i < |b| && IsAlnum(b[i]) {
      NameEndShift(a, b, i + 1);
    }
  }

  /** Scanning inside the second part does not depend on the first. */
  lemma ScanShift(a: string, b: string, i: nat, afterVariable: bool)
    requires i < |b|
    ensures var tok := Scan(b, i, afterVariable);
            Scan(a + b, |a| + i, afterVariable) == tok.(lo := |a| + tok.lo, hi := |a| + tok.hi)
  {
    hide StringEnd, CommentEnd, NameEnd, IsAlnum, BlockEnd, LineEnd;
    var c := a + b;
    assert c[|a| + i] == b[i] && (i + 1 < |b| ==> c[|a| + i + 1] == b[i + 1]);
    match b[i] {
      case '\'' => StringEndShift(a, b, i + 1);
      case '-' => CommentEndShift(a, b, i + 2, true);
      case '/' => CommentEndShift(a, b, i + 2, false);
      case ':' => NameEndShift(a, b, i + 1);
      case _ =>
    }
  }

  lemma {:induction false} ScanAllShift(a: string, b: string, i: nat, afterVariable: bool)
    requires i <= |b|
    ensures ScanAll(a + b, |a| + i, afterVariable) == ShiftTokens(ScanAll(b, i, afterVariable), |a|)
    decreases |b| - i
  {
    hide Scan, ScanAll, Tiles;
    if i == |b| {
      ScanAllEnds(b, afterVariable);
      ScanAllEnds(a + b, afterVariable);
    } else {
      var tok := Scan(b, i, afterVariable);
      ScanShift(a, b, i, afterVariable);
      ScanAllShift(a, b, tok.hi, tok.kind.Variable?);
      ScanAllStep(b, i, afterVariable);
      ScanAllStep(a + b, |a| + i, afterVariable);
    }
  }

  lemma {:induction false} StringEndExtends(a: string, b: string, i: nat)
    requires StringEnd(a, i).Some?
    requires |a| > 0 && a[|a| - 1] != '\''
    ensures StringEnd(a + b, i) == StringEnd(a, i)
    decreases |a| - i
  {
    if a[i] != '\'' {
      StringEndExtends(a, b, i + 1);
    } else if i + 1 < |a| && a[i + 1] == '\'' {
      StringEndExtends(a, b, i + 2);
    }
  }

  lemma {:induction false} CommentEndExtends(a: string, b: string, i: nat, line: bool)
    requires CommentEnd(a, i, line).Some?
    requires |a| > 0 && a[|a| - 1] != '*'
    ensures CommentEnd(a + b, i, line) == CommentEnd(a, i, line)
    decreases |a| - i
  {
    if !(a[i] == '\n' && line) && !(a[i] == '*' && At(a, i + 1, '/')) {
      CommentEndExtends(a, b, i + 1, line);
    }
  }

  lemma {:induction false} NameEndExtends(a: string, b: string, i: nat)
    requires i <= |a| && |a| > 0 && !IsAlnum(a[|a| - 1])
    requires i < |a|
    ensures NameEnd(a + b, i) == NameEnd(a, i) < |a|
    decreases |a| - i
  {
    if IsAlnum(a[i]) {
      NameEndExtends(a, b, i + 1);
    }
  }

  /** A closed lexeme of a first part that ends in white space is a lexeme of the whole. */
  lemma ScanExtends(a: string, b: string, i: nat, afterVariable: bool)
    requires i < |a| && IsSpace(a[|a| - 1]) && Closed(a, Scan(a, i, afterVariable))
    ensures Scan(a + b, i, afterVariable) == Scan(a, i, afterVariable)
    ensures Scan(a, i, afterVariable).kind.Variable? ==> Scan(a, i, afterVariable).hi < |a|
  {
    var tok := Scan(a, i, afterVariable);
    match tok.kind {
      case Quoted => StringEndExtends(a, b, i + 1);
      case LineComment => CommentEndExtends(a, b, i + 2, true);
      case BlockComment => CommentEndExtends(a, b, i + 2, false);
      case Variable => NameEndExtends(a, b, i + 1);
      case _ =>
    }
  }

  lemma {:induction false} ScanAllAppend(a: string, b: string, i: nat, afterVariable: bool)
    requires i <= |a| && (|a| > 0 ==> IsSpace(a[|a| - 1])) && (afterVariable ==> i < |a|)
    requires forall tok :: tok in ScanAll(a, i, afterVariable) ==> Closed(a, tok)
    ensures ScanAll(a + b, i, afterVariable)
         == ScanAll(a, i, afterVariable) + ShiftTokens(ScanAll(b, 0, false), |a|)
    decreases |a| - i
  {
    hide Scan, Closed, ShiftTokens, ScanAll, Tiles;
    if i == |a| {
      ScanAllShift(a, b, 0, false);
      ScanAllEnds(a, afterVariable);
    } else {
      var tok := Scan(a, i, afterVariable);
      var rest := ScanAll(a, tok.hi, tok.kind.Variable?);
      ScanAllStep(a, i, afterVariable);
      assert tok in [tok] + rest && forall x :: x in rest ==> x in [tok] + rest;
      ScanExtends(a, b, i, afterVariable);
      ScanAllAppend(a, b, tok.hi, tok.kind.Variable?);
      ScanAllStep(a + b, i, afterVariable);
    }
  }

  lemma ScanAllEnds(t: string, afterVariable: bool)
    ensures ScanAll(t, |t|, afterVariable) == []
  {
  }

  lemma {:induction false} TilesAppend(a: string, b: string, i: nat, xs: seq<Token>, ys: seq<Token>)
    requires Tiles(a, i, xs) && Tiles(b, 0, ys)
    ensures Tiles(a + b, i, xs + ShiftTokens(ys, |a|))
    ensures Variables(a + b, i, xs + ShiftTokens(ys, |a|))
         == Variables(a, i, xs) + ShiftVariables(Variables(b, 0, ys), |a|)
    decreases |xs|
  {
    hide VariableOf, ShiftTokens, ShiftVariables;
    var zs := ShiftTokens(ys, |a|);
    if xs == [] {
      assert xs + zs == zs;
      TilesShift(a, b, 0, ys);
    } else {
      TilesAppend(a, b, xs[0].hi, xs[1..], ys);
      assert (xs + zs)[1..] == xs[1..] + zs;
      SameText(a + b, xs[0], a, xs[0], 0);
    }
  }

  lemma {:induction false} TilesShift(a: string, b: string, i: nat, ys: seq<Token>)
    requires Tiles(b, i, ys)
    ensures Tiles(a + b, |a| + i, ShiftTokens(ys, |a|))
    ensures Variables(a + b, |a| + i, ShiftTokens(ys, |a|)) == ShiftVariables(Variables(b, i, ys), |a|)
    decreases |ys|
  {
    hide VariableOf;
    if ys != [] {
      TilesShift(a, b, ys[0].hi, ys[1..]);
      var tok := ys[0].(lo := ys[0].lo + |a|, hi := ys[0].hi + |a|);
      SameText(a + b, tok, b, ys[0], |a|);
      ShiftAppend(VariableOf(b, ys[0]), Variables(b, ys[0].hi, ys[1..]), |a|);
      assert ShiftTokens(ys, |a|)[1..] == ShiftTokens(ys[1..], |a|);
    }
  }

  /** The same token over the same text at another place is the same variable, moved. */
  lemma SameText(t: string, x: Token, u: string, y: Token, n: nat)
    requires x.kind == y.kind && x.lo == y.lo + n && x.hi == y.hi + n
    requires y.lo <= y.hi <= |u| && x.hi <= |t| && t[x.lo..x.hi] == u[y.lo..y.hi]
    ensures VariableOf(t, x) == ShiftVariables(VariableOf(u, y), n)
    ensures n == 0 ==> VariableOf(t, x) == VariableOf(u, y)
  {
  }

  lemma {:induction false} ShiftAppend(v: seq<Data>, w: seq<Data>, n: nat)
    ensures ShiftVariables(v + w, n) == ShiftVariables(v, n) + ShiftVariables(w, n)
  {
    if v == [] {
      assert v + w == w;
    } else {
      ShiftAppend(v[1..], w, n);
      assert (v + w)[1..] == v[1..] + w;
    }
  }

  lemma {:induction false} NoStrayAppend(xs: seq<Token>, ys: seq<Token>, n: nat)
    ensures NoStray(xs + ShiftTokens(ys, n)) == (NoStray(xs) && NoStray(ys))
    decreases |xs| + |ys|
  {
    if xs != [] {
      assert (xs + ShiftTokens(ys, n))[1..] == xs[1..] + ShiftTokens(ys, n);
      NoStrayAppend(xs[1..], ys, n);
    } else if ys != [] {
      assert xs + ShiftTokens(ys, n) == ShiftTokens(ys, n);
      assert [] + ShiftTokens(ys[1..], n) == ShiftTokens(ys[1..], n);
      NoStrayAppend([], ys[1..], n);
    }
  }

  /** If a ends in white space outside of strings and comments, parsing a + b is parsing both parts. */
  lemma ParsingComposes(a: string, b: string)
    requires (|a| > 0 ==> IsSpace(a[|a| - 1])) && Settled(a)
    ensures Accepts(a + b) <==> Accepts(a) && Accepts(b)
    ensures ParsedVariables(a + b) == ParsedVariables(a) + ShiftVariables(ParsedVariables(b), |a|)
  {
    ScanAllAppend(a, b, 0, false);
    TilesAppend(a, b, 0, TokensOf(a), TokensOf(b));
    NoStrayAppend(TokensOf(a), TokensOf(b), |a|);
  }
}

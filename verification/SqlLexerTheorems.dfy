/** What the reference lexer reads, said by writing down the texts that are one token, and where the
    scanner's comments end. */
module SqlLexerTheorems {
  import opened Common
  import opened Text
  import opened SqlLexer
  import opened BinderParser
  import opened BinderTheorems

  // ----- characters, by their codes -----

  /** A digit, a letter or the underscore. */
  predicate NameCode(n: int) {
    0x30 <= n <= 0x39 || 0x41 <= n <= 0x5A || 0x61 <= n <= 0x7A || n == 0x5F
  }

  lemma NameCharacters(c: char)
    ensures IsAlnum(c) <==> NameCode(c as int)
  {
  }

  /** The blank, and the codes of tab, line feed, vertical tab, form feed and carriage return. */
  lemma SpaceCharacters(c: char)
    ensures IsSpace(c) <==> c as int in {32, 9, 10, 11, 12, 13}
  {
  }

  /** The same character, or one letter in upper and in lower case. */
  predicate SameLetter(c: char, d: char) {
    || c == d
    || (0x41 <= c as int <= 0x5A && d as int == c as int + 32)
    || (0x41 <= d as int <= 0x5A && c as int == d as int + 32)
  }

  lemma LowerCharacters(c: char, d: char)
    ensures SameLetter(LowerChar(c), c) && !(0x41 <= LowerChar(c) as int <= 0x5A)
    ensures LowerChar(c) == LowerChar(d) <==> SameLetter(c, d)
  {
  }

  /** Two names have the same key exactly if they differ in the case of letters only. */
  lemma SameKeyInAnyCase(s: string, t: string)
    ensures ToLower(s) == ToLower(t) <==> |s| == |t| && forall i :: 0 <= i < |s| ==> SameLetter(s[i], t[i])
  {
    hide LowerChar, SameLetter;
    if |s| == |t| {
      forall i | 0 <= i < |s| ensures ToLower(s)[i] == ToLower(t)[i] <==> SameLetter(s[i], t[i]) {
        LowerCharacters(s[i], t[i]);
      }
    }
  }

  // ----- strings -----

  /** A text as it stands in a string: with its quotes doubled. */
  function Doubled(s: string): string {
    if s == "" then "" else (if s[0] == '\'' then "''" else [s[0]]) + Doubled(s[1..])
  }

  /** A string ends behind the first quote that is not doubled. */
  lemma {:induction false} StringEndsAt(pre: string, s: string, rest: string)
    requires rest == "" || rest[0] != '\''
    ensures StringEnd(pre + Doubled(s) + "'" + rest, |pre|) == Some(|pre| + |Doubled(s)| + 1)
    decreases |s|
  {
    var t := pre + Doubled(s) + "'" + rest;
    if s != "" {
      var head := if s[0] == '\'' then "''" else [s[0]];
      StringEndsAt(pre + head, s[1..], rest);
      assert t == pre + head + Doubled(s[1..]) + "'" + rest;
      assert t[|pre|] == head[0] && t[|pre| + |head| - 1] == head[|head| - 1];
    }
  }

  /** Without such a quote it does not end. */
  lemma {:induction false} StringDoesNotEnd(pre: string, s: string)
    ensures StringEnd(pre + Doubled(s), |pre|) == None
    decreases |s|
  {
    if s != "" {
      var head := if s[0] == '\'' then "''" else [s[0]];
      StringDoesNotEnd(pre + head, s[1..]);
      assert pre + Doubled(s) == pre + head + Doubled(s[1..]);
      assert (pre + Doubled(s))[|pre|] == head[0] && (pre + Doubled(s))[|pre| + |head| - 1] == head[|head| - 1];
    }
  }

  lemma QuotedToken(pre: string, s: string, rest: string)
    requires rest == "" || rest[0] != '\''
    ensures var text := "'" + Doubled(s) + "'";
            Next(pre + text + rest, |pre|) == Token(Quoted, |pre|, |pre| + |text|)
  {
    var t := pre + ("'" + Doubled(s) + "'") + rest;
    StringEndsAt(pre + "'", s, rest);
    assert t == pre + "'" + Doubled(s) + "'" + rest;
  }

  // ----- comments -----

  lemma {:induction false} LineEndsAt(pre: string, s: string, rest: string)
    requires '\n' !in s
    ensures LineEnd(pre + s + "\n" + rest, |pre|) == Some(|pre| + |s| + 1)
    ensures LineEnd(pre + s, |pre|) == None
    decreases |s|
  {
    var t := pre + s + "\n" + rest;
    if s != "" {
      LineEndsAt(pre + [s[0]], s[1..], rest);
      assert t == pre + [s[0]] + s[1..] + "\n" + rest && pre + s == pre + [s[0]] + s[1..];
      assert t[|pre|] == s[0] && (pre + s)[|pre|] == s[0] && s[0] in s;
    }
  }

  lemma LineCommentToken(pre: string, s: string, rest: string)
    requires '\n' !in s
    ensures var text := "--" + s + "\n";
            Next(pre + text + rest, |pre|) == Token(LineComment, |pre|, |pre| + |text|)
  {
    var t := pre + ("--" + s + "\n") + rest;
    LineEndsAt(pre + "--", s, rest);
    assert t == pre + "--" + s + "\n" + rest;
    assert t[|pre|] == '-' && t[|pre| + 1] == '-';
  }

  predicate HasPair(s: string) {
    exists j :: 0 <= j < |s| - 1 && s[j] == '*' && s[j + 1] == '/'
  }

  lemma {:induction false} BlockEndsAt(pre: string, s: string, rest: string)
    requires !HasPair(s)
    ensures BlockEnd(pre + s + "*/" + rest, |pre|) == Some(|pre| + |s| + 2)
    ensures BlockEnd(pre + s, |pre|) == None
    decreases |s|
  {
    var t := pre + s + "*/" + rest;
    if s == "" {
      assert t[|pre|] == '*' && t[|pre| + 1] == '/';
    } else {
      var u := s[1..];
      assert forall j :: 0 <= j < |u| ==> u[j] == s[j + 1];
      BlockEndsAt(pre + [s[0]], u, rest);
      assert t == pre + [s[0]] + u + "*/" + rest && pre + s == pre + [s[0]] + u;
      assert t[|pre|] == s[0] && t[|pre| + 1] == (s + "*/")[1];
      assert (pre + s)[|pre|] == s[0] && (|s| > 1 ==> (pre + s)[|pre| + 1] == s[1]);
    }
  }

  lemma BlockCommentToken(pre: string, s: string, rest: string)
    requires !HasPair(s)
    ensures var text := "/*" + s + "*/";
            Next(pre + text + rest, |pre|) == Token(BlockComment, |pre|, |pre| + |text|)
  {
    var t := pre + ("/*" + s + "*/") + rest;
    BlockEndsAt(pre + "/*", s, rest);
    assert t == pre + "/*" + s + "*/" + rest;
    assert t[|pre|] == '/' && t[|pre| + 1] == '*';
  }

  /** The scanner can leave a comment in front of t[e]. */
  predicate EndsComment(t: string, i: nat, e: nat, line: bool) {
    && i < e <= |t|
    && (|| (line && t[e - 1] == '\n')
        || (i + 2 <= e && t[e - 2] == '*' && t[e - 1] == '/')
        || (e == |t| && t[e - 1] == '*'))
  }

  /** It leaves the comment at the first such place. */
  lemma {:induction false} CommentEndIsFirst(t: string, i: nat, line: bool)
    ensures var r := CommentEnd(t, i, line);
            && (r.Some? ==> EndsComment(t, i, r.value, line))
            && forall e: nat :: EndsComment(t, i, e, line) ==> r.Some? && r.value <= e
    decreases |t| - i
  {
    if i < |t| {
      CommentEndIsFirst(t, i + 1, line);
      assert forall e: nat :: EndsComment(t, i, e, line) ==>
               e == i + 1 || EndsComment(t, i + 1, e, line) || (e == i + 2 && t[i] == '*' && t[i + 1] == '/');
      assert forall e: nat :: EndsComment(t, i + 1, e, line) ==> EndsComment(t, i, e, line);
    }
  }

  // ----- casts and variables -----

  lemma CastToken(pre: string, rest: string)
    ensures Next(pre + "::" + rest, |pre|) == Token(Cast, |pre|, |pre| + 2)
  {
    var t := pre + "::" + rest;
    assert t[|pre|] == ':' && t[|pre| + 1] == ':';
  }

  /** A colon, and all letters, digits and underscores behind it. */
  lemma VariableToken(pre: string, name: string, rest: string)
    requires name != "" && forall c :: c in name ==> NameCode(c as int)
    requires rest == "" || !NameCode(rest[0] as int)
    ensures var text := ":" + name;
            Next(pre + text + rest, |pre|) == Token(Variable, |pre|, |pre| + |text|)
  {
    var t := pre + (":" + name) + rest;
    var end := |pre| + 1 + |name|;
    assert t[|pre|] == ':' && forall j :: 0 <= j < |name| ==> t[|pre| + 1 + j] == name[j];
    forall j | |pre| < j < end ensures IsAlnum(t[j]) {
      assert t[j] == name[j - |pre| - 1] && name[j - |pre| - 1] in name;
    }
    assert t[|pre| + 1] == name[0];
    assert end < |t| ==> t[end] == rest[0];
    NameEndAt(t, |pre| + 1, end);
  }

  /** The scanner finds it: a template that is a colon and a name is one variable. */
  lemma NameIsOneVariable(name: string)
    requires name != "" && forall c :: c in name ==> NameCode(c as int)
    ensures Accepts(":" + name)
    ensures ParsedVariables(":" + name) == [Data(ToLower(":" + name), 0)]
  {
    var t := ":" + name;
    VariableToken("", name, "");
    assert "" + t + "" == t;
    var tok := Token(Variable, 0, |t|);
    assert Scan(t, 0, false) == tok by {
      assert t[1] == name[0] && name[0] in name;
    }
    ScanAllStep(t, 0, false);
    assert ScanAll(t, |t|, true) == [];
    assert TokensOf(t) == [tok] && t[0..|t|] == t;
    var none: seq<Token> := [];
    assert TokensOf(t)[1..] == none && NoStray(none) && Variables(t, |t|, none) == [];
  }

  lemma ReadOn(t: string, i: nat, afterVariable: bool, tok: Token)
    requires i < |t| && tok == Scan(t, i, afterVariable) && !tok.kind.Stray?
    ensures var behind := tok.kind.Variable?;
            && ScanVariables(t, i, afterVariable) == VariableOf(t, tok) + ScanVariables(t, tok.hi, behind)
            && NoStray(ScanAll(t, i, afterVariable)) == NoStray(ScanAll(t, tok.hi, behind))
  {
    ScanStep(t, i, afterVariable, tok);
    ScanAllStep(t, i, afterVariable);
  }

  lemma ReadToEnd(t: string, afterVariable: bool)
    ensures ScanVariables(t, |t|, afterVariable) == [] && NoStray(ScanAll(t, |t|, afterVariable))
  {
  }

  lemma ReadAll(t: string)
    ensures Accepts(t) == NoStray(ScanAll(t, 0, false)) && ParsedVariables(t) == ScanVariables(t, 0, false)
  {
  }

  lemma DoubledExample()
    ensures Doubled("it's") == "it''s"
  {
    assert Doubled("s") == "s" by { assert "s"[1..] == ""; }
    assert Doubled("'s") == "''s" by { assert "'s"[1..] == "s"; }
    assert Doubled("t's") == "t''s" by { assert "t's"[1..] == "'s"; }
    assert "it's"[1..] == "t's";
  }

  /** The quotes of a string are read in pairs: the variable behind this one is found. */
  lemma VariableBehindString(a: char)
    requires NameCode(a as int)
    ensures var t := "'it''s', :" + [a];
            Accepts(t) && ParsedVariables(t) == [Data(ToLower(":" + [a]), 9)]
  {
    var t := "'it''s', :" + [a];
    DoubledExample();
    QuotedToken("", "it's", ", :" + [a]);
    assert t == "" + ("'" + Doubled("it's") + "'") + (", :" + [a]);
    VariableToken("'it''s', ", [a], "");
    assert t == "'it''s', " + (":" + [a]) + "";
    hide StringEnd, NameEnd, Doubled, ScanAll, ScanVariables, NoStray, Tiles, Variables;
    ReadOn(t, 0, false, Token(Quoted, 0, 7));
    ReadOn(t, 7, false, Token(Plain, 7, 8));
    ReadOn(t, 8, false, Token(Plain, 8, 9));
    ReadOn(t, 9, false, Token(Variable, 9, 11));
    ReadToEnd(t, true);
    assert t[9..11] == ":" + [a];
    ReadAll(t);
  }
}

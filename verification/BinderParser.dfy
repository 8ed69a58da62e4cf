/** The scanner and the splicer of sql_lib/sl_binder.cpp. */
module BinderParser {
  import opened Common
  import opened Text
  import opened SqlLexer

  // ----- the language the scanner reads -----

  /** Where the scanner leaves a comment: a line feed if it is a line comment, and in every comment
      behind an asterisk-slash pair or behind an asterisk that ends the template. */
  function CommentEnd(t: string, i: nat, line: bool): (r: Option<nat>)
    ensures r.Some? ==> i < r.value <= |t|
    decreases |t| - i
  {
    if i >= |t| then None
    else if t[i] == '\n' && line then Some(i + 1)
    else if t[i] == '*' && i + 1 == |t| then Some(i + 1)
    else if t[i] == '*' && t[i + 1] == '/' then Some(i + 2)
    else CommentEnd(t, i + 1, line)
  }

  /** One lexeme of the scanner.  Directly behind a variable it swallows one character that is
      not a quote; a colon that starts neither a cast nor a name makes it stop. */
  function Scan(t: string, i: nat, afterVariable: bool): (tok: Token)
    requires i < |t|
    ensures tok.lo == i < tok.hi <= |t|
  {
    if afterVariable && t[i] != '\'' then Token(Plain, i, i + 1)
    else if t[i] == '-' && At(t, i + 1, '-') then Token(LineComment, i, OrEnd(CommentEnd(t, i + 2, true), t))
    else if t[i] == '/' && At(t, i + 1, '*') then Token(BlockComment, i, OrEnd(CommentEnd(t, i + 2, false), t))
    else if t[i] == ':' && i + 1 < |t| && t[i + 1] != ':' && !IsAlnum(t[i + 1]) then Token(Stray, i, i + 1)
    else Next(t, i)
  }

  function ScanAll(t: string, i: nat, afterVariable: bool): (toks: seq<Token>)
    requires i <= |t|
    ensures Tiles(t, i, toks)
    decreases |t| - i
  {
    if i == |t| then []
    else
      var tok := Scan(t, i, afterVariable);
      [tok] + ScanAll(t, tok.hi, tok.kind.Variable?)
  }

  lemma ScanAllStep(t: string, i: nat, afterVariable: bool)
    requires i < |t|
    ensures var tok := Scan(t, i, afterVariable);
            ScanAll(t, i, afterVariable) == [tok] + ScanAll(t, tok.hi, tok.kind.Variable?)
  {
  }

  predicate NoStray(toks: seq<Token>) {
    toks == [] || (!toks[0].kind.Stray? && NoStray(toks[1..]))
  }

  function TokensOf(t: string): (toks: seq<Token>)
    ensures Tiles(t, 0, toks)
  {
    ScanAll(t, 0, false)
  }

  /** The template passes the scanner's assertion on variable names. */
  predicate Accepts(t: string) { NoStray(TokensOf(t)) }

  function ParsedVariables(t: string): seq<Data> { Variables(t, 0, TokensOf(t)) }

  // ----- the scanner -----

  /** The position in t at which the lexeme the scanner is inside of began (a variable) or will
      end (a string or a comment); outside of all three, the scanner's own position. */
  ghost function ResumeAt(t: string, i: nat, commentFound: bool, commentLine: bool, stringFound: bool,
                          varFound: bool, firstVarPos: nat): (r: nat)
    requires firstVarPos <= i <= |t|
    ensures r <= |t|
  {
    if commentFound then OrEnd(CommentEnd(t, i, commentLine), t)
    else if stringFound then OrEnd(StringEnd(t, i), t)
    else if varFound then firstVarPos
    else i
  }

  /** The variables found before resume are done; the rest is what scanning on from resume finds. */
  ghost predicate Progress(t: string, parsed: seq<Data>, resume: nat) {
    && resume <= |t|
    && ParsedVariables(t) == parsed + Variables(t, resume, ScanAll(t, resume, false))
    && Accepts(t) == NoStray(ScanAll(t, resume, false))
  }

  /** A lexeme that is neither a variable nor a stray colon changes nothing but the position. */
  lemma SkipToken(t: string, parsed: seq<Data>, i: nat)
    requires i < |t| && Progress(t, parsed, i)
    requires !Scan(t, i, false).kind.Variable? && !Scan(t, i, false).kind.Stray?
    ensures Progress(t, parsed, Scan(t, i, false).hi)
  {
  }

  /** Where the scanner goes on outside of any lexeme after a variable that ends in front of t[e]:
      behind the character that ended it, or behind the string which this character opens. */
  function AfterVariable(t: string, e: nat): (r: nat)
    requires e <= |t|
    ensures e <= r <= |t|
  {
    if e == |t| then e else if t[e] == '\'' then OrEnd(StringEnd(t, e + 1), t) else e + 1
  }

  lemma TokensAfterVariable(t: string, e: nat)
    requires e <= |t|
    ensures var rest := ScanAll(t, e, true);
            var next := ScanAll(t, AfterVariable(t, e), false);
            && Variables(t, e, rest) == Variables(t, AfterVariable(t, e), next)
            && NoStray(rest) == NoStray(next)
  {
    if e < |t| {
      var tok := Scan(t, e, true);
      assert ScanAll(t, e, true) == [tok] + ScanAll(t, tok.hi, false);
    }
  }

  lemma TakeVariable(t: string, parsed: seq<Data>, i: nat)
    requires i < |t| && Progress(t, parsed, i) && Scan(t, i, false).kind.Variable?
    ensures var e := Scan(t, i, false).hi;
            Progress(t, parsed + [Data(ToLower(t[i..e]), i)], AfterVariable(t, e))
  {
    hide Scan, Accepts, AfterVariable, ToLower;
    var tok := Scan(t, i, false);
    assert ScanAll(t, i, false) == [tok] + ScanAll(t, tok.hi, true);
    TokensAfterVariable(t, tok.hi);
  }

  lemma StopAtStray(t: string, parsed: seq<Data>, i: nat)
    requires i < |t| && Progress(t, parsed, i) && Scan(t, i, false).kind.Stray?
    ensures !Accepts(t)
  {
  }

  lemma NameEndAt(t: string, i: nat, e: nat)
    requires i <= e <= |t| && forall j :: i <= j < e ==> IsAlnum(t[j])
    requires e < |t| ==> !IsAlnum(t[e])
    ensures NameEnd(t, i) == e
  {
    var r := NameEnd(t, i);
    assert !(r < e) && !(e < r);
  }

  /** Trimming does not touch a name, so the assertion fails on the bare colon only. */
  lemma TrimName(name: string)
    requires |name| > 0 && !IsSpace(name[0]) && !IsSpace(name[|name| - 1])
    ensures Trim(name) == name
  {
  }

  /** What the branch that ends a variable in front of t[e] establishes. */
  lemma EndVariable(t: string, parsed: seq<Data>, first: nat, e: nat, name: string)
    requires first < e <= |t| && t[first] == ':' && !At(t, first + 1, ':')
    requires forall j :: first < j < e ==> IsAlnum(t[j])
    requires e < |t| ==> !IsAlnum(t[e])
    requires first + 1 < |t| && name == ToLower(t[first..e])
    requires Progress(t, parsed, first)
    ensures Trim(name) == ":" ==> !Accepts(t)
    ensures Trim(name) != ":" ==>
              Progress(t, parsed + [Data(name, first)], AfterVariable(t, e))
  {
    hide Progress, Accepts, Trim, AfterVariable;
    NameEndAt(t, first + 1, e);
    assert !IsSpace(name[|name| - 1]) by {
      assert name[|name| - 1] == LowerChar(t[e - 1]);
    }
    TrimName(name);
    if e == first + 1 {
      assert name == ":";
      StopAtStray(t, parsed, first);
    } else {
      assert name != ":";
      TakeVariable(t, parsed, first);
    }
  }

  lemma FinishScan(t: string, parsed: seq<Data>, resume: nat)
    requires Progress(t, parsed, resume)
    requires resume == |t| || (resume + 1 == |t| && t[resume] == ':')
    ensures Accepts(t) && parsed == ParsedVariables(t)
  {
    hide Accepts, ParsedVariables;
    if resume < |t| {
      SkipToken(t, parsed, resume);
    }
  }

  lemma ScanStarts(t: string)
    ensures Progress(t, [], 0)
  {
  }

  /** The scanner's loop.  It gives up where the assertion on the name would abort. */
  method Parse(t: string) returns (accepted: bool, parsed: seq<Data>)
    ensures accepted == Accepts(t)
    ensures accepted ==> parsed == ParsedVariables(t)
  {
    hide Progress, Accepts, ParsedVariables, Trim, LowerChar, ToLower, NameEnd;
    var commentFound, commentLine, stringFound, varFound := false, false, false, false;
    var firstVarPos := 0;
    parsed := [];
    var i := 0;
    assert Progress(t, [], 0) by { ScanStarts(t); }
    while i < |t|
      invariant firstVarPos <= i <= |t|
      invariant commentFound ==> !stringFound && !varFound
      invariant stringFound ==> !varFound
      invariant commentLine ==> commentFound
      invariant varFound ==> firstVarPos < i && t[firstVarPos] == ':' && !At(t, firstVarPos + 1, ':')
      invariant varFound ==> forall j :: firstVarPos < j < i ==> IsAlnum(t[j])
      invariant varFound && i == |t| ==> i == firstVarPos + 1
      invariant Progress(t, parsed, ResumeAt(t, i, commentFound, commentLine, stringFound, varFound, firstVarPos))
    {
      var c := t[i];
      var last := i == |t| - 1;
      if commentFound {
        if c == '\n' && commentLine {
          commentFound, commentLine := false, false;
        }
        if c == '*' && (last || t[i + 1] == '/') {
          if !last {
            i := i + 1;
          }
          commentFound, commentLine := false, false;
        }
        i := i + 1;
        continue;
      }
      if stringFound {
        if c == '\'' {
          if !last && t[i + 1] == '\'' {
            i := i + 2;
            continue;
          }
          stringFound := false;
        }
        i := i + 1;
        continue;
      }
      if c == '\'' {
        stringFound := true;
      }
      if varFound {
        var isAlnum := IsAlnum(c);
        if stringFound || last || !isAlnum {
          var name := ToLower(t[firstVarPos..i]);
          if last && isAlnum && !stringFound {
            name := name + [LowerChar(c)];
          }
          ghost var e := if last && isAlnum && !stringFound then i + 1 else i;
          assert name == ToLower(t[firstVarPos..e]);
          EndVariable(t, parsed, firstVarPos, e, name);
          parsed := parsed + [Data(name, firstVarPos)];
          varFound := false;
          if Trim(name) == ":" {
            return false, parsed;
          }
        }
        i := i + 1;
        continue;
      }
      if c != ':' || (!last && t[i + 1] == ':') {
        SkipToken(t, parsed, i);
      }
      if !stringFound && c == ':' && !last && t[i + 1] == ':' {
        i := i + 2;
        continue;
      }
      if !stringFound && c == ':' {
        varFound := true;
        firstVarPos := i;
        i := i + 1;
        continue;
      }
      if c == '/' && !last && t[i + 1] == '*' {
        commentFound, commentLine := true, false;
        i := i + 2;
        continue;
      }
      if c == '-' && !last && t[i + 1] == '-' {
        commentFound, commentLine := true, true;
        i := i + 2;
        continue;
      }
      i := i + 1;
    }
    FinishScan(t, parsed, ResumeAt(t, i, commentFound, commentLine, stringFound, varFound, firstVarPos));
    accepted := true;
  }
}

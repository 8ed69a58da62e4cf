/** Substituting values for the variables of a template: `BinderParser::calculate`. */
module BinderSplice {
  import opened Text
  import opened SqlLexer
  import opened BinderParser
  import opened BinderTheorems

  type Values = map<string, string>

  /** A variable without a value contributes nothing. */
  function ValueOf(values: Values, name: string): string {
    if name in values then values[name] else ""
  }

  /** One-pass substitution, token by token: a variable becomes its value, any other text stays. */
  function Render(t: string, i: nat, toks: seq<Token>, values: Values): string
    requires Tiles(t, i, toks)
    decreases |toks|
  {
    if toks == [] then ""
    else RenderToken(t, toks[0], values) + Render(t, toks[0].hi, toks[1..], values)
  }

  function RenderToken(t: string, tok: Token, values: Values): string
    requires tok.lo <= tok.hi <= |t|
  {
    var text := t[tok.lo..tok.hi];
    if tok.kind.Variable? then ValueOf(values, ToLower(text)) else text
  }

  function Rendered(t: string, values: Values): string { Render(t, 0, TokensOf(t), values) }

  // ----- the spans the parser stores -----

  /** Spans in increasing order, disjoint, inside t[from..], each named by its lower-cased text. */
  predicate Spans(t: string, vars: seq<Data>, from: nat) {
    && from <= |t|
    && (vars != [] ==>
          var end := vars[0].position + |vars[0].name|;
          && from <= vars[0].position < end <= |t|
          && vars[0].name == ToLower(t[vars[0].position..end])
          && Spans(t, vars[1..], end))
  }

  lemma SpansCons(t: string, d: Data, rest: seq<Data>, from: nat)
    requires from <= d.position && d.position + |d.name| <= |t| && d.name != ""
    requires d.name == ToLower(t[d.position..d.position + |d.name|])
    requires Spans(t, rest, d.position + |d.name|)
    ensures Spans(t, [d] + rest, from)
  {
    hide ToLower;
    assert ([d] + rest)[1..] == rest;
  }

  lemma {:induction false} TilesGiveSpans(t: string, i: nat, toks: seq<Token>)
    requires Tiles(t, i, toks)
    ensures Spans(t, Variables(t, i, toks), i)
    decreases |toks|
  {
    if toks != [] {
      hide Spans, ToLower;
      var tok := toks[0];
      var vars := Variables(t, tok.hi, toks[1..]);
      TilesGiveSpans(t, tok.hi, toks[1..]);
      assert Variables(t, i, toks) == VariableOf(t, tok) + vars;
      hide Variables, Tiles;
      if tok.kind.Variable? {
        SpansCons(t, VariableOf(t, tok)[0], vars, i);
      } else {
        assert VariableOf(t, tok) + vars == vars;
        SpansWiden(t, vars, i, tok.hi);
      }
    }
  }

  lemma SpansWiden(t: string, vars: seq<Data>, i: nat, j: nat)
    requires i <= j && Spans(t, vars, j)
    ensures Spans(t, vars, i)
  {
  }

  lemma ParsedSpans(t: string)
    ensures Spans(t, ParsedVariables(t), 0)
  {
    TilesGiveSpans(t, 0, TokensOf(t));
  }

  // ----- splicing by position -----

  /** The text from shift on, with the spans of vars replaced. */
  function Splice(t: string, vars: seq<Data>, shift: nat, values: Values): string
    requires Spans(t, vars, shift)
  {
    if vars == [] then t[shift..]
    else
      t[shift..vars[0].position]
      + (ValueOf(values, vars[0].name) + Splice(t, vars[1..], vars[0].position + |vars[0].name|, values))
  }

  lemma SpliceStep(t: string, vars: seq<Data>, shift: nat, values: Values)
    requires vars != [] && Spans(t, vars, shift)
    ensures var p := vars[0].position;
            var end := p + |vars[0].name|;
            && shift <= p < end <= |t| && Spans(t, vars[1..], end)
            && Splice(t, vars, shift, values)
               == t[shift..p] + (ValueOf(values, vars[0].name) + Splice(t, vars[1..], end, values))
  {
  }

  /** One round of the splicing loop: the text in front of the first span, and its value, move over. */
  lemma SpliceOnto(sql: string, t: string, vars: seq<Data>, shift: nat, values: Values)
    requires vars != [] && Spans(t, vars, shift)
    ensures var p := vars[0].position;
            var end := p + |vars[0].name|;
            && shift <= p < end <= |t| && Spans(t, vars[1..], end)
            && sql + Splice(t, vars, shift, values)
               == sql + t[shift..p] + ValueOf(values, vars[0].name) + Splice(t, vars[1..], end, values)
  {
    SpliceStep(t, vars, shift, values);
    hide Splice, Spans, ValueOf;
    var p := vars[0].position;
    var v, rest := ValueOf(values, vars[0].name), Splice(t, vars[1..], p + |vars[0].name|, values);
    assert sql + (t[shift..p] + (v + rest)) == sql + t[shift..p] + v + rest;
  }

  lemma ValueOfName(values: Values, name: string)
    ensures ValueOf(values, name) == if name in values then values[name] else ""
  {
  }

  method Calculate(t: string, parsed: seq<Data>, values: Values) returns (r: string)
    requires Spans(t, parsed, 0)
    ensures r == Splice(t, parsed, 0, values)
  {
    hide Spans, Splice, ValueOf, ToLower;
    if parsed == [] {
      SpliceNone(t, 0, values);
      return t;
    }
    var sql := "";
    var shift: nat := 0;
    ghost var rest := parsed;
    for k := 0 to |parsed|
      invariant rest == parsed[k..]
      invariant shift <= |t| && Spans(t, rest, shift)
      invariant k > 0 ==> shift == parsed[k - 1].position + |parsed[k - 1].name|
      invariant sql + Splice(t, rest, shift, values) == Splice(t, parsed, 0, values)
    {
      var d := parsed[k];
      assert rest[0] == d;
      SpliceOnto(sql, t, rest, shift, values);
      sql := sql + t[shift..d.position];
      ghost var done := sql + ValueOf(values, d.name);
      ValueOfName(values, d.name);
      if d.name in values {
        sql := sql + values[d.name];
      }
      assert sql == done;
      shift := d.position + |d.name|;
      rest := rest[1..];
    }
    var back := parsed[|parsed| - 1];
    var rightPos := |t| - (back.position + |back.name|);
    SpliceNone(t, shift, values);
    r := sql + t[|t| - rightPos..];
  }

  lemma CutText(t: string, i: nat, j: nat, p: nat, rest: string)
    requires i <= j <= p <= |t|
    ensures t[i..p] + rest == t[i..j] + (t[j..p] + rest)
  {
    assert t[i..p] == t[i..j] + t[j..p];
  }

  /** Text in front of the first span is kept. */
  lemma SpliceFrom(t: string, vars: seq<Data>, i: nat, j: nat, values: Values)
    requires i <= j && Spans(t, vars, j) && Spans(t, vars, i)
    ensures j <= |t| && Splice(t, vars, i, values) == t[i..j] + Splice(t, vars, j, values)
  {
    hide Splice, ToLower, ValueOf;
    assert j <= |t|;
    if vars == [] {
      hide Spans;
      SpliceNone(t, i, values);
      SpliceNone(t, j, values);
      assert t[i..] == t[i..j] + t[j..];
    } else {
      SpliceStep(t, vars, i, values);
      SpliceStep(t, vars, j, values);
      hide Spans;
      var p := vars[0].position;
      CutText(t, i, j, p, ValueOf(values, vars[0].name) + Splice(t, vars[1..], p + |vars[0].name|, values));
    }
  }

  lemma SpliceNone(t: string, i: nat, values: Values)
    requires i <= |t|
    ensures Splice(t, [], i, values) == t[i..]
  {
  }

  /** Splicing by position is one-pass substitution over the tokens. */
  lemma {:induction false} SpliceIsRender(t: string, i: nat, toks: seq<Token>, values: Values)
    requires Tiles(t, i, toks)
    ensures Spans(t, Variables(t, i, toks), i)
    ensures Splice(t, Variables(t, i, toks), i, values) == Render(t, i, toks, values)
    decreases |toks|
  {
    hide Splice, Spans;
    TilesGiveSpans(t, i, toks);
    if toks == [] {
      SpliceNone(t, i, values);
      assert t[i..] == "";
    } else {
      var tok := toks[0];
      var vars := Variables(t, tok.hi, toks[1..]);
      var all := VariableOf(t, tok) + vars;
      SpliceIsRender(t, tok.hi, toks[1..], values);
      assert Variables(t, i, toks) == all;
      if tok.kind.Variable? {
        assert all[1..] == vars;
        SpliceStep(t, all, i, values);
        var rest := ValueOf(values, all[0].name) + Splice(t, vars, tok.hi, values);
        assert t[i..i] + rest == rest;
      } else {
        assert all == vars;
        SpliceFrom(t, vars, i, tok.hi, values);
      }
    }
  }

  /** For a whole template. */
  lemma SpliceIsRendered(t: string, values: Values)
    ensures Spans(t, ParsedVariables(t), 0)
    ensures Splice(t, ParsedVariables(t), 0, values) == Rendered(t, values)
  {
    SpliceIsRender(t, 0, TokensOf(t), values);
  }

  /** On a template that the scanner reads as SQL, exactly the variables of SQL are substituted. */
  lemma RenderedAsSql(t: string, values: Values)
    requires ReadsAsSql(t)
    ensures Rendered(t, values) == Render(t, 0, Lex(t, 0), values)
  {
    ScanIsLexIff(t, 0, false);
  }

  // ----- the length of the result -----

  function NamesLength(vars: seq<Data>): nat {
    if vars == [] then 0 else |vars[0].name| + NamesLength(vars[1..])
  }

  function ValuesLength(vars: seq<Data>, values: Values): nat {
    if vars == [] then 0 else |ValueOf(values, vars[0].name)| + ValuesLength(vars[1..], values)
  }

  lemma {:induction false} SpliceLength(t: string, vars: seq<Data>, shift: nat, values: Values)
    requires Spans(t, vars, shift)
    ensures |Splice(t, vars, shift, values)| == |t| - shift - NamesLength(vars) + ValuesLength(vars, values)
  {
    if vars != [] {
      SpliceLength(t, vars[1..], vars[0].position + |vars[0].name|, values);
    }
  }

  /** Result length = template length - lengths of the names + lengths of the values. */
  lemma RenderedLength(t: string, values: Values)
    ensures |Rendered(t, values)| == |t| - NamesLength(ParsedVariables(t)) + ValuesLength(ParsedVariables(t), values)
  {
    SpliceIsRendered(t, values);
    SpliceLength(t, ParsedVariables(t), 0, values);
  }

  // ----- binding every variable to its own name -----

  predicate BindsToItself(vars: seq<Data>, values: Values) {
    forall v :: v in vars ==> v.name in values && values[v.name] == v.name
  }

  predicate IsLowerCase(s: string) { ToLower(s) == s }

  predicate VariablesLowerCase(t: string, toks: seq<Token>) {
    forall tok :: tok in toks && tok.kind.Variable? && tok.lo <= tok.hi <= |t| ==> IsLowerCase(t[tok.lo..tok.hi])
  }

  /** t with the text of its variables in lower case. */
  function LowerVariables(t: string, i: nat, toks: seq<Token>): (r: string)
    requires Tiles(t, i, toks)
    ensures i <= |t| && |r| == |t| - i
    decreases |toks|
  {
    if toks == [] then ""
    else
      var text := t[toks[0].lo..toks[0].hi];
      (if toks[0].kind.Variable? then ToLower(text) else text) + LowerVariables(t, toks[0].hi, toks[1..])
  }

  lemma {:induction false} RenderOwnNames(t: string, i: nat, toks: seq<Token>, values: Values)
    requires Tiles(t, i, toks) && BindsToItself(Variables(t, i, toks), values)
    ensures Render(t, i, toks, values) == LowerVariables(t, i, toks)
    decreases |toks|
  {
    if toks != [] {
      var vars := Variables(t, toks[0].hi, toks[1..]);
      assert Variables(t, i, toks) == VariableOf(t, toks[0]) + vars;
      assert forall v :: v in vars ==> v in Variables(t, i, toks);
      assert forall v :: v in VariableOf(t, toks[0]) ==> v in Variables(t, i, toks);
      RenderOwnNames(t, toks[0].hi, toks[1..], values);
      if toks[0].kind.Variable? {
        assert VariableOf(t, toks[0])[0] in VariableOf(t, toks[0]);
      }
    }
  }

  lemma {:induction false} LowerVariablesIsTemplateIff(t: string, i: nat, toks: seq<Token>)
    requires Tiles(t, i, toks)
    ensures i <= |t|
    ensures LowerVariables(t, i, toks) == t[i..] <==> VariablesLowerCase(t, toks)
    decreases |toks|
  {
    if toks != [] {
      var tok, rest := toks[0], toks[1..];
      LowerVariablesIsTemplateIff(t, tok.hi, rest);
      var text := t[tok.lo..tok.hi];
      assert t[i..] == text + t[tok.hi..];
      var head := if tok.kind.Variable? then ToLower(text) else text;
      assert LowerVariables(t, i, toks)[..|head|] == head && t[i..][..|head|] == text;
      assert LowerVariables(t, i, toks)[|head|..] == LowerVariables(t, tok.hi, rest) && t[i..][|head|..] == t[tok.hi..];
      assert forall x :: x in toks <==> x == tok || x in rest;
    }
  }

  /** Binding every parsed variable to its own name lower-cases the variables and nothing else; it
      gives the template back exactly when its variables are in lower case already. */
  lemma BindingRoundTrip(t: string, values: Values)
    requires BindsToItself(ParsedVariables(t), values)
    ensures Rendered(t, values) == LowerVariables(t, 0, TokensOf(t))
    ensures Rendered(t, values) == t <==> VariablesLowerCase(t, TokensOf(t))
  {
    RenderOwnNames(t, 0, TokensOf(t), values);
    LowerVariablesIsTemplateIff(t, 0, TokensOf(t));
    assert t[0..] == t;
  }

  // ----- another value for one name -----

  predicate Occurs(t: string, name: string) {
    exists v :: v in ParsedVariables(t) && v.name == name
  }

  /** Two sets of values that give the same text for every name but this one. */
  ghost predicate SameBut(v: Values, w: Values, name: string) {
    forall n :: n != name ==> ValueOf(v, n) == ValueOf(w, n)
  }

  lemma {:induction false} ValuesLengthGrows(vars: seq<Data>, v: Values, w: Values, name: string)
    requires SameBut(v, w, name) && |ValueOf(v, name)| < |ValueOf(w, name)|
    ensures ValuesLength(vars, v) <= ValuesLength(vars, w)
    ensures (exists d :: d in vars && d.name == name) ==> ValuesLength(vars, v) < ValuesLength(vars, w)
  {
    hide ValueOf;
    if vars != [] {
      ValuesLengthGrows(vars[1..], v, w, name);
      assert forall d :: d in vars <==> d == vars[0] || d in vars[1..];
    }
  }

  lemma {:induction false} SpliceSame(t: string, vars: seq<Data>, shift: nat, v: Values, w: Values, name: string)
    requires Spans(t, vars, shift) && SameBut(v, w, name)
    requires (forall d :: d in vars ==> d.name != name) || ValueOf(v, name) == ValueOf(w, name)
    ensures Splice(t, vars, shift, v) == Splice(t, vars, shift, w)
    decreases |vars|
  {
    assert shift <= |t|;
    hide Spans, Splice, ValueOf;
    if vars == [] {
      SpliceNone(t, shift, v);
      SpliceNone(t, shift, w);
    } else {
      SpliceStep(t, vars, shift, v);
      SpliceStep(t, vars, shift, w);
      assert ValueOf(v, vars[0].name) == ValueOf(w, vars[0].name) by {
        assert vars[0] in vars;
      }
      SpliceSame(t, vars[1..], vars[0].position + |vars[0].name|, v, w, name);
    }
  }

  lemma SplitSame(x: string, a: string, r: string, b: string, s: string)
    requires |a| == |b| && x + (a + r) == x + (b + s)
    ensures a == b && r == s
  {
    assert a + r == (x + (a + r))[|x|..] && b + s == (x + (b + s))[|x|..];
    assert a == (a + r)[..|a|] && b == (b + s)[..|a|];
    assert r == (a + r)[|a|..] && s == (b + s)[|a|..];
  }

  /** Values of equal length leave all places as they are, so that the texts can be compared piece by piece. */
  lemma {:induction false} SpliceTells(t: string, vars: seq<Data>, shift: nat, v: Values, w: Values, name: string)
    requires Spans(t, vars, shift) && SameBut(v, w, name) && |ValueOf(v, name)| == |ValueOf(w, name)|
    requires Splice(t, vars, shift, v) == Splice(t, vars, shift, w)
    requires exists d :: d in vars && d.name == name
    ensures ValueOf(v, name) == ValueOf(w, name)
    decreases |vars|
  {
    hide Spans, Splice, ValueOf;
    var d := vars[0];
    var end := d.position + |d.name|;
    SpliceStep(t, vars, shift, v);
    SpliceStep(t, vars, shift, w);
    SplitSame(t[shift..d.position], ValueOf(v, d.name), Splice(t, vars[1..], end, v),
              ValueOf(w, d.name), Splice(t, vars[1..], end, w));
    if d.name != name {
      assert forall x :: x in vars <==> x == d || x in vars[1..];
      SpliceTells(t, vars[1..], end, v, w, name);
    }
  }

  /** Another value for one name changes the result exactly when the name occurs and the values differ. */
  lemma RenderedChangesIff(t: string, v: Values, w: Values, name: string)
    requires SameBut(v, w, name)
    ensures Rendered(t, v) == Rendered(t, w) <==> !Occurs(t, name) || ValueOf(v, name) == ValueOf(w, name)
  {
    hide Rendered, ParsedVariables, Spans, Splice, ValueOf;
    var vars := ParsedVariables(t);
    SpliceIsRendered(t, v);
    SpliceIsRendered(t, w);
    RenderedLength(t, v);
    RenderedLength(t, w);
    if !Occurs(t, name) || ValueOf(v, name) == ValueOf(w, name) {
      SpliceSame(t, vars, 0, v, w, name);
    } else if |ValueOf(v, name)| < |ValueOf(w, name)| {
      ValuesLengthGrows(vars, v, w, name);
    } else if |ValueOf(w, name)| < |ValueOf(v, name)| {
      ValuesLengthGrows(vars, w, v, name);
    } else if Rendered(t, v) == Rendered(t, w) {
      SpliceTells(t, vars, 0, v, w, name);
    }
  }

  /** Removing a value changes the result exactly when the variable occurs and its value is not empty. */
  lemma RenderedWithoutIff(t: string, values: Values, name: string)
    ensures Rendered(t, values - {name}) == Rendered(t, values)
       <==> !Occurs(t, name) || ValueOf(values, name) == ""
  {
    hide Rendered, Occurs;
    RenderedChangesIff(t, values - {name}, values, name);
  }
}

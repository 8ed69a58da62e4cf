/** The binder of sql_lib/sl_binder.cpp: a template, bound values, and a cached result. */
module Binder {
  import opened Common
  import opened Text
  import opened SqlLexer
  import opened BinderParser
  import opened BinderSplice
  import opened BinderTheorems

  function WithColon(name: string): string
    requires name != ""
  {
    if name[0] == ':' then name else ":" + name
  }

  /** A string value as it is put into the statement: trimmed, then quoted or NULL, on request. */
  function Formatted(value: string, trimString: bool, formatString: bool): string {
    var v := if trimString then Trim(value) else value;
    if !formatString then v else if v == "" then "NULL" else "E'" + v + "'"
  }

  lemma TrimShortens(s: string)
    ensures |Trim(s)| <= |s|
    ensures |Trim(s)| == |s| ==> Trim(s) == s
  {
  }

  /** A formatted value is NULL if it is empty, after trimming where that is asked for, and else quoted;
      an unformatted one is inserted as it is. */
  lemma FormattedSpelledOut(value: string, trimString: bool)
    ensures Formatted("", trimString, true) == "NULL" && Formatted(value, false, false) == value
    ensures value != "" ==> Formatted(value, false, true) == "E'" + value + "'"
    ensures Formatted(value, true, true) == Formatted(Trim(value), false, true)
    ensures Formatted(value, true, false) == Trim(value)
  {
    TrimShortens("");
    hide Trim;
  }

  /** The values after one more bind.  A name bound before is kept only if it is given with its colon:
      the lookup is made before the colon is added. */
  function Bound(values: Values, variable: string, value: string): Values
    requires variable != ""
  {
    var name := ToLower(variable);
    if name in values then values else values[WithColon(name) := value]
  }

  /** Every bound name carries its colon and is in lower case. */
  ghost predicate BoundNames(values: Values) {
    forall name :: name in values ==> name != "" && name[0] == ':' && IsLowerCase(name)
  }

  lemma ToLowerTwice(s: string)
    ensures ToLower(ToLower(s)) == ToLower(s)
  {
  }

  /** The name under which a variable is bound. */
  lemma BoundNameOf(variable: string)
    requires variable != ""
    ensures var name := WithColon(ToLower(variable));
            name[0] == ':' && IsLowerCase(name) && (variable[0] == ':' <==> ToLower(variable)[0] == ':')
  {
    ToLowerTwice(variable);
    var lower := ToLower(variable);
    if variable[0] != ':' {
      assert ToLower(":" + lower) == ":" + lower;
    }
  }

  /** Binding a bound name again keeps its value exactly if the name is given with its colon or the
      value is the same.  Other variables keep theirs in any case. */
  lemma RebindKeepsIff(values: Values, variable: string, value: string)
    requires BoundNames(values) && variable != "" && WithColon(ToLower(variable)) in values
    ensures Bound(values, variable, value) == values
       <==> variable[0] == ':' || value == values[WithColon(ToLower(variable))]
    ensures variable[0] != ':' ==> Bound(values, variable, value)[WithColon(ToLower(variable))] == value
    ensures forall name :: name in values && name != WithColon(ToLower(variable))
              ==> name in Bound(values, variable, value) && Bound(values, variable, value)[name] == values[name]
  {
    BoundNameOf(variable);
  }

  /** A name bound for the first time gets its value, with or without a colon. */
  lemma FirstBindStores(values: Values, variable: string, value: string)
    requires BoundNames(values) && variable != "" && WithColon(ToLower(variable)) !in values
    ensures Bound(values, variable, value) == values[WithColon(ToLower(variable)) := value]
  {
    BoundNameOf(variable);
  }

  /** isBinded: the lookup that `unbind` asserts.  The name is trimmed, but not brought to lower case. */
  predicate IsBound(values: Values, variable: string) {
    Trim(variable) != "" && WithColon(Trim(variable)) in values
  }

  lemma TrimKeepsStart(s: string)
    requires s != "" && !IsSpace(s[0])
    ensures Trim(s) <= s && Trim(s) != ""
  {
  }

  lemma WithColonSame(x: string, y: string)
    requires x != "" && |x| <= |y| && (y[0] == ':' ==> x[0] == ':')
    ensures WithColon(x) == WithColon(y) <==> x == y
  {
    assert (":" + x)[1..] == x && (":" + y)[1..] == y;
  }

  /** `bind` and the lookup mean the same key exactly for a trimmed name in lower case. */
  lemma SameKeyIff(variable: string)
    requires Trim(variable) != ""
    ensures variable != ""
    ensures WithColon(Trim(variable)) == WithColon(ToLower(variable))
       <==> Trim(variable) == variable && IsLowerCase(variable)
  {
    TrimShortens(variable);
    BoundNameOf(variable);
    if variable[0] == ':' {
      TrimKeepsStart(variable);
    }
    hide Trim, ToLower;
    WithColonSame(Trim(variable), ToLower(variable));
  }

  /** After `bind`, the same name passes the assertion of `unbind` exactly if it is trimmed and in lower
      case, or if the lookup already found it before. */
  lemma BoundIsFoundIff(values: Values, variable: string, value: string)
    requires BoundNames(values) && variable != ""
    ensures IsBound(Bound(values, variable, value), variable)
       <==> (Trim(variable) == variable && IsLowerCase(variable)) || IsBound(values, variable)
  {
    if Trim(variable) != "" {
      SameKeyIff(variable);
      hide Trim, ToLower;
    }
  }

  /** An upper-case name is bound, and then not found. */
  lemma UpperCaseNotFound(a: char, value: string)
    requires 'A' <= a <= 'Z'
    ensures !IsBound(Bound(map[], [':', a], value), [':', a])
  {
    BoundIsFoundIff(map[], [':', a], value);
    assert ToLower([':', a])[1] != a;
  }

  /** A name with a blank behind it is bound with the blank, and then not found without it. */
  lemma UntrimmedNotFound(a: char, value: string)
    requires 'a' <= a <= 'z'
    ensures !IsBound(Bound(map[], [a, ' '], value), [a, ' '])
  {
    BoundIsFoundIff(map[], [a, ' '], value);
    TrimBlank(a);
  }

  lemma TrimBlank(a: char)
    requires IsAlnum(a)
    ensures Trim([a, ' ']) == [a]
  {
    assert LTrim([a, ' ']) == [a, ' '];
    assert [a, ' '][..1] == [a];
  }

  class Binder {
    var sqlTemplate: string
    var data: Option<seq<Data>>    // the parser's variables, once the template is parsed
    var values: Values
    var sql: string
    var isCalculated: bool
    ghost var renderedValues: Values  // the values that the cached result was made from

    ghost predicate Valid()
      reads this
    {
      && (data.Some? ==> Accepts(sqlTemplate) && data.value == ParsedVariables(sqlTemplate))
      && (isCalculated ==> data.Some? && sql == Rendered(sqlTemplate, renderedValues))
      && BoundNames(values)
    }

    predicate IsPrepared()
      reads this
    {
      sqlTemplate != ""
    }

    /** The cached result is what the current values give. */
    ghost predicate Current()
      reads this
    {
      isCalculated ==> sql == Rendered(sqlTemplate, values)
    }

    constructor (text: string)
      ensures Valid() && Current() && sqlTemplate == Trim(text) && values == map[] && !isCalculated
    {
      hide Trim, Accepts, ParsedVariables, Rendered;
      sqlTemplate := Trim(text);
      data := None;
      values := map[];
      sql := "";
      isCalculated := false;
    }

    method Prepare(text: string)
      requires Trim(text) != ""
      modifies this
      ensures Valid() && Current() && IsPrepared()
      ensures sqlTemplate == Trim(text) && values == map[] && !isCalculated && data == None
    {
      hide Trim, Accepts, ParsedVariables, Rendered;
      data := None;
      values := map[];
      sql := "";
      isCalculated := false;
      sqlTemplate := Trim(text);
    }

    method Bind(variable: string, value: string, trimString: bool, formatString: bool)
      requires Valid() && IsPrepared() && variable != "" && !isCalculated
      modifies `values
      ensures Valid()
      ensures values == Bound(old(values), variable, Formatted(value, trimString, formatString))
      ensures var name, val := WithColon(ToLower(variable)), Formatted(value, trimString, formatString);
              && values.Keys == old(values).Keys + {name}
              && values[name] == (if name in old(values) && variable[0] == ':' then old(values)[name] else val)
              && forall other :: other in old(values) && other != name ==> values[other] == old(values)[other]
    {
      hide Trim, Accepts, ParsedVariables, Rendered, IsLowerCase, ToLower;
      BoundNameOf(variable);
      var name := ToLower(variable);
      if name in values {
        return;
      }
      if name[0] != ':' {
        name := ":" + name;
      }
      var val := value;
      if trimString {
        val := Trim(val);
      }
      if formatString {
        if val == "" {
          val := "NULL";
        } else {
          val := "E'" + val + "'";
        }
      }
      values := values[name := val];
    }

    /** The statement, computed at the first call after a change of template or clearing of binds. */
    method Sql() returns (r: string)
      requires Valid() && IsPrepared() && Accepts(sqlTemplate)
      modifies `data, `sql, `isCalculated, `renderedValues
      ensures Valid() && isCalculated && data.Some?
      ensures r == sql
      ensures old(isCalculated) ==> r == old(sql) && renderedValues == old(renderedValues)
      ensures !old(isCalculated) ==> r == Rendered(sqlTemplate, values) && renderedValues == values
    {
      hide Trim, Accepts, ParsedVariables, Rendered, Spans, Splice;
      var vars := ParsedData();
      if !isCalculated {
        SpliceIsRendered(sqlTemplate, values);
        sql := Calculate(sqlTemplate, vars, values);
        renderedValues := values;
      }
      isCalculated := true;
      return sql;
    }

    /** The parser of the template, made on demand. */
    method ParsedData() returns (vars: seq<Data>)
      requires Valid() && Accepts(sqlTemplate)
      modifies `data
      ensures Valid() && data == Some(vars)
      ensures vars == ParsedVariables(sqlTemplate)
    {
      if data.None? {
        var accepted, parsed := Parse(sqlTemplate);
        data := Some(parsed);
      }
      vars := data.value;
    }

    method ClearBinds()
      requires Valid()
      modifies `values, `isCalculated
      ensures Valid() && Current() && values == map[] && !isCalculated
    {
      values := map[];
      isCalculated := false;
    }

    /** Removing a value leaves the cached result alone.  If it was current, it stays so exactly when the
        variable does not occur in the template or its value was empty. */
    method Unbind(variable: string)
      requires Valid() && IsPrepared() && IsBound(values, variable)
      modifies `values
      ensures Valid() && values == old(values) - {WithColon(Trim(variable))}
      ensures old(Current()) && isCalculated ==>
                (Current() <==> !Occurs(sqlTemplate, WithColon(Trim(variable)))
                                || old(values)[WithColon(Trim(variable))] == "")
      ensures IsLowerCase(WithColon(Trim(variable)))
      ensures !IsBound(values, variable)
    {
      var name := Trim(variable);
      if name[0] != ':' {
        name := ":" + name;
      }
      RenderedWithoutIff(sqlTemplate, values, name);
      values := values - {name};
    }

    /** The parser's lookup, with its result negated as the code has it: true means not found. */
    method IsVariableParsed(variable: string) returns (r: bool)
      requires Valid() && IsPrepared() && Accepts(sqlTemplate) && variable != ""
      modifies `data
      ensures Valid()
      ensures r <==> !Occurs(sqlTemplate, ToLower(WithColon(variable)))
    {
      var vars := ParsedData();
      var key := ToLower(if variable[0] == ':' then variable else ":" + variable);
      r := forall v :: v in vars ==> v.name != key;
    }
  }

  // ----- one value in one call -----

  /** bindOne for a string: the statement with this one value. */
  method BindOne(template: string, variable: string, value: string, trimString: bool, formatString: bool)
    returns (r: string)
    requires Trim(template) != "" && variable != "" && Accepts(Trim(template))
    ensures r == Rendered(Trim(template), OneValue(variable, value, trimString, formatString))
  {
    hide Trim, Accepts, Rendered, ParsedVariables, Formatted;
    var binder := new Binder(template);
    binder.Bind(variable, value, trimString, formatString);
    assert binder.values == OneValue(variable, value, trimString, formatString);
    r := binder.Sql();
  }

  /** bindOne for a character array: formatString is not passed on, so that its default holds. */
  method BindOneText(template: string, variable: string, value: string, trimString: bool, formatString: bool)
    returns (r: string)
    requires Trim(template) != "" && variable != "" && Accepts(Trim(template))
    ensures r == Rendered(Trim(template), OneValue(variable, value, trimString, true))
    ensures r == Rendered(Trim(template), OneValue(variable, value, trimString, formatString))
       <==> formatString || !Occurs(Trim(template), WithColon(ToLower(variable)))
  {
    hide Trim, Accepts, Rendered, Occurs;
    r := BindOne(template, variable, value, trimString, true);
    FormatMatters(value, trimString);
    RenderedChangesIff(Trim(template), OneValue(variable, value, trimString, true),
                       OneValue(variable, value, trimString, formatString), WithColon(ToLower(variable)));
  }

  /** bindOne for a truth value goes by way of a character array, so that the word is quoted. */
  method BindOneBool(template: string, variable: string, value: bool) returns (r: string)
    requires Trim(template) != "" && variable != "" && Accepts(Trim(template))
    ensures r == Rendered(Trim(template), map[WithColon(ToLower(variable)) := if value then "E'TRUE'" else "E'FALSE'"])
  {
    hide Trim, Accepts, Rendered, Occurs;
    var text := if value then "TRUE" else "FALSE";
    r := BindOneText(template, variable, text, false, false);
    FormattedSpelledOut(text, false);
    hide Formatted;
    assert "E'" + "TRUE" + "'" == "E'TRUE'" && "E'" + "FALSE" + "'" == "E'FALSE'";
  }

  function OneValue(variable: string, value: string, trimString: bool, formatString: bool): Values
    requires variable != ""
  {
    map[WithColon(ToLower(variable)) := Formatted(value, trimString, formatString)]
  }

  lemma FormatMatters(value: string, trimString: bool)
    ensures |Formatted(value, trimString, true)| > |Formatted(value, trimString, false)|
  {
  }

  // ----- where the binder departs from what its names say -----

  /** A template that is one variable with a name of one character. */
  function OneVariable(a: char): string { [':', a] }

  lemma OneVariableTokens(a: char)
    requires IsAlnum(a)
    ensures TokensOf(OneVariable(a)) == [Token(Variable, 0, 2)]
  {
    var t := OneVariable(a);
    NameEndAt(t, 1, 2);
    assert Scan(t, 0, false) == Token(Variable, 0, 2);
    hide Scan;
    ScanAllStep(t, 0, false);
    ScanAllEnds(t, true);
  }

  lemma OneVariableRenders(a: char, values: Values)
    requires IsAlnum(a)
    ensures Accepts(OneVariable(a))
    ensures Rendered(OneVariable(a), values) == ValueOf(values, ToLower(OneVariable(a)))
  {
    hide TokensOf, ToLower, IsAlnum, ValueOf;
    OneVariableTokens(a);
    var t, tok := OneVariable(a), Token(Variable, 0, 2);
    assert t[0..2] == t;
    var none: seq<Token> := [];
    assert TokensOf(t)[1..] == none && NoStray(none);
    assert Render(t, 2, none, values) == "";
    assert RenderToken(t, tok, values) == ValueOf(values, ToLower(t));
  }

  /** Bind, ask for the statement, unbind, ask again: the second statement still holds the value,
      though what the remaining values give is empty. */
  method StatementAfterUnbind(a: char, value: string) returns (binder: Binder, first: string, second: string)
    requires IsAlnum(a)
    ensures first == second == value
    ensures binder.values == map[] && Rendered(binder.sqlTemplate, binder.values) == ""
  {
    hide Trim, Accepts, Rendered, ParsedVariables, Bound;
    OneVariableRenders(a, map[]);
    var name := OneVariable(a);
    TrimName(name);
    var key := ToLower(name);
    binder := new Binder(name);
    binder.Bind(name, value, false, false);
    OneVariableRenders(a, binder.values);
    first := binder.Sql();
    TrimName(key);
    binder.Unbind(key);
    second := binder.Sql();
  }

  /** The same name bound twice: with its colon the first value stays, without it the second wins. */
  method BindTwice(a: char, first: string, second: string) returns (kept: string, replaced: string)
    requires IsAlnum(a)
    ensures kept == first && replaced == second
  {
    hide Trim, Accepts, Rendered, ParsedVariables, Bound;
    OneVariableRenders(a, map[]);
    var name := OneVariable(a);
    TrimName(name);
    assert ToLower(name) == WithColon(ToLower([a]));
    var binder := new Binder(name);
    binder.Bind(name, first, false, false);
    binder.Bind(name, second, false, false);
    OneVariableRenders(a, binder.values);
    kept := binder.Sql();
    binder.ClearBinds();
    binder.Bind([a], first, false, false);
    binder.Bind([a], second, false, false);
    OneVariableRenders(a, binder.values);
    replaced := binder.Sql();
  }
}

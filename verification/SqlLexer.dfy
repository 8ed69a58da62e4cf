/** A reference lexer for SQL templates: quoted strings with '' inside, line comments, block
    comments that do not nest, :: casts, and variables `:name` with a maximal name. */
module SqlLexer {
  import opened Common
  import opened Text

  /** Stray is never produced here: it marks a colon on which the scanner under study stops. */
  datatype Kind = Quoted | LineComment | BlockComment | Cast | Variable | Plain | Stray

  /** A lexeme occupies t[lo..hi]. */
  datatype Token = Token(kind: Kind, lo: nat, hi: nat)

  /** Where a string ends whose opening quote is before i. */
  function StringEnd(t: string, i: nat): (r: Option<nat>)
    ensures r.Some? ==> i < r.value <= |t|
    decreases |t| - i
  {
    if i >= |t| then None
    else if t[i] != '\'' then StringEnd(t, i + 1)
    else if i + 1 < |t| && t[i + 1] == '\'' then StringEnd(t, i + 2)
    else Some(i + 1)
  }

  /** Where a line comment ends: behind the next line feed. */
  function LineEnd(t: string, i: nat): (r: Option<nat>)
    ensures r.Some? ==> i < r.value <= |t|
    decreases |t| - i
  {
    if i >= |t| then None
    else if t[i] == '\n' then Some(i + 1)
    else LineEnd(t, i + 1)
  }

  /** Where a block comment ends: behind the next asterisk-slash pair. */
  function BlockEnd(t: string, i: nat): (r: Option<nat>)
    ensures r.Some? ==> i < r.value <= |t|
    decreases |t| - i
  {
    if i + 1 >= |t| then None
    else if t[i] == '*' && t[i + 1] == '/' then Some(i + 2)
    else BlockEnd(t, i + 1)
  }

  /** Where the longest run of name characters from i ends. */
  function NameEnd(t: string, i: nat): (r: nat)
    requires i <= |t|
    ensures i <= r <= |t|
    ensures forall j :: i <= j < r ==> IsAlnum(t[j])
    ensures r < |t| ==> !IsAlnum(t[r])
    decreases |t| - i
  {
    if i < |t| && IsAlnum(t[i]) then NameEnd(t, i + 1) else i
  }

  /** An unterminated string or comment runs to the end of the template. */
  function OrEnd(end: Option<nat>, t: string): nat {
    if end.Some? then end.value else |t|
  }

  predicate At(t: string, i: nat, c: char) { i < |t| && t[i] == c }

  function Next(t: string, i: nat): (tok: Token)
    requires i < |t|
    ensures tok.lo == i < tok.hi <= |t|
  {
    if t[i] == '\'' then Token(Quoted, i, OrEnd(StringEnd(t, i + 1), t))
    else if t[i] == '-' && At(t, i + 1, '-') then Token(LineComment, i, OrEnd(LineEnd(t, i + 2), t))
    else if t[i] == '/' && At(t, i + 1, '*') then Token(BlockComment, i, OrEnd(BlockEnd(t, i + 2), t))
    else if t[i] == ':' && At(t, i + 1, ':') then Token(Cast, i, i + 2)
    else if t[i] == ':' && i + 1 < |t| && IsAlnum(t[i + 1]) then Token(Variable, i, NameEnd(t, i + 1))
    else Token(Plain, i, i + 1)
  }

  /** The tokens cover t[i..] without gaps or overlaps. */
  predicate Tiles(t: string, i: nat, toks: seq<Token>)
    decreases |toks|
  {
    if toks == [] then i == |t|
    else toks[0].lo == i < toks[0].hi <= |t| && Tiles(t, toks[0].hi, toks[1..])
  }

  function Lex(t: string, i: nat): (toks: seq<Token>)
    requires i <= |t|
    ensures Tiles(t, i, toks)
    decreases |t| - i
  {
    if i == |t| then [] else [Next(t, i)] + Lex(t, Next(t, i).hi)
  }

  /** A variable as the binder stores it: its text with the colon, in lower case, and its place. */
  datatype Data = Data(name: string, position: nat)

  function Variables(t: string, i: nat, toks: seq<Token>): seq<Data>
    requires Tiles(t, i, toks)
    decreases |toks|
  {
    if toks == [] then []
    else VariableOf(t, toks[0]) + Variables(t, toks[0].hi, toks[1..])
  }

  function VariableOf(t: string, tok: Token): seq<Data>
    requires tok.lo <= tok.hi <= |t|
  {
    if tok.kind.Variable? then [Data(ToLower(t[tok.lo..tok.hi]), tok.lo)] else []
  }
}

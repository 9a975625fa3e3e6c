/** From condition text to tokens, and the joining of a list of conditions. */
module ConditionWords {
  import opened Options
  import opened ConditionParser
  import opened ConditionGrammar

  /** Unicode white space. */
  predicate IsSpace(c: char) {
    var n := c as int;
    || 0x9 <= n <= 0xD || n == 0x20 || n == 0x85 || n == 0xA0 || n == 0x1680
    || 0x2000 <= n <= 0x200A || n == 0x2028 || n == 0x2029 || n == 0x202F || n == 0x205F || n == 0x3000
  }

  /** Parentheses set off by spaces. */
  function Spaced(s: string): string {
    if s == "" then ""
    else (if s[0] == '(' then " ( " else if s[0] == ')' then " ) " else [s[0]]) + Spaced(s[1..])
  }

  function Closed(word: string): seq<string> {
    if word == "" then [] else [word]
  }

  /** Splits at white space; `word` is the word being read. */
  function SplitFrom(word: string, s: string): seq<string>
    decreases |s|
  {
    if s == "" then Closed(word)
    else if IsSpace(s[0]) then Closed(word) + SplitFrom("", s[1..])
    else SplitFrom(word + [s[0]], s[1..])
  }

  function Words(s: string): seq<string> {
    SplitFrom("", s)
  }

  function Lower(s: string): string {
    seq(|s|, i requires 0 <= i < |s| => if 'A' <= s[i] <= 'Z' then (s[i] as int + 32) as char else s[i])
  }

  const MAX_COUNT: nat := 0xFFFF_FFFF_FFFF_FFFF

  predicate AllDigits(s: string) {
    forall i | 0 <= i < |s| :: '0' <= s[i] <= '9'
  }

  function Decimal(s: string): nat
    requires AllDigits(s)
  {
    if s == "" then 0 else Decimal(s[..|s| - 1]) * 10 + (s[|s| - 1] as int - '0' as int)
  }

  /** A count: digits with an optional plus sign, within 64 bits. */
  function Count(word: string): Option<nat> {
    var digits := if word != "" && word[0] == '+' then word[1..] else word;
    if digits != "" && AllDigits(digits) && Decimal(digits) <= MAX_COUNT then Some(Decimal(digits)) else None
  }

  function Classify(word: string): Tok {
    var lower := Lower(word);
    if lower == "and" then TAnd
    else if lower == "or" then TOr
    else if lower == "not" then TNot
    else if lower == "of" then TOf
    else if lower == "them" then TThem
    else if lower == "all" then TAll
    else if lower == "(" then TOpen
    else if lower == ")" then TClose
    else
      match Count(word)
      case Some(n) => TNum(n)
      case None => TIdent(word)
  }

  function Classified(words: seq<string>): seq<Tok> {
    seq(|words|, i requires 0 <= i < |words| => Classify(words[i]))
  }

  function Toks(s: string): seq<Tok> {
    Classified(Words(Spaced(s)))
  }

  method Tokenize(input: string) returns (r: Result<seq<Tok>>)
    ensures r == if Toks(input) == [] then Err(EmptyCondition) else Ok(Toks(input))
  {
    var words := Words(Spaced(input));
    var toks := [];
    for i := 0 to |words|
      invariant toks == Toks(input)[..i]
    {
      toks := toks + [Classify(words[i])];
    }
    assert toks == Toks(input);
    r := if toks == [] then Err(EmptyCondition) else Ok(toks);
  }

  /** What a condition string means. */
  function ParseText(s: string): Result<Expr> {
    if Toks(s) == [] then Err(EmptyCondition) else ParseSpec(Toks(s))
  }

  method Parse(input: string) returns (r: Result<Expr>)
    ensures r == ParseText(input)
  {
    var toks := Tokenize(input);
    if toks.Err? { return Err(toks.fault); }
    r := ParseTokens(toks.value);
  }

  /** A string is a condition exactly when its tokens are a phrase. */
  lemma TextIsPhrase(s: string, e: Expr)
    ensures ParseText(s) == Ok(e) <==> OrPhrase(Toks(s), e)
  {
    ParsesExactlyTheGrammar(Toks(s), e);
  }

  // --- tokens of joined text ---------------------------------------------------------------------

  lemma {:induction false} SpacedJoin(a: string, b: string)
    ensures Spaced(a + b) == Spaced(a) + Spaced(b)
  {
    if a == "" {
      assert a + b == b;
    } else {
      var all := a + b;
      assert all[0] == a[0] && all[1..] == a[1..] + b;
      SpacedJoin(a[1..], b);
      var head := if a[0] == '(' then " ( " else if a[0] == ')' then " ) " else [a[0]];
      assert Spaced(all) == head + Spaced(all[1..]);
      assert Spaced(a) == head + Spaced(a[1..]);
      hide Spaced;
      assert head + (Spaced(a[1..]) + Spaced(b)) == head + Spaced(a[1..]) + Spaced(b);
    }
  }

  /** White space between two texts separates their words. */
  lemma {:induction false} SplitJoin(word: string, a: string, c: char, b: string)
    requires IsSpace(c)
    ensures SplitFrom(word, a + [c] + b) == SplitFrom(word, a) + Words(b)
    decreases |a|
  {
    var all := a + [c] + b;
    if a == "" {
      assert all[0] == c && all[1..] == b;
    } else {
      assert all[0] == a[0] && all[1..] == a[1..] + [c] + b;
      SplitJoin(if IsSpace(a[0]) then "" else word + [a[0]], a[1..], c, b);
    }
  }

  lemma ClassifiedJoin(a: seq<string>, b: seq<string>)
    ensures Classified(a + b) == Classified(a) + Classified(b)
  {
  }

  lemma WordsJoin(a: string, c: char, b: string)
    requires IsSpace(c)
    ensures Words(a + [c] + b) == Words(a) + Words(b)
  {
    SplitJoin("", a, c, b);
  }

  lemma LeadingSpace(b: string)
    ensures Words(" " + b) == Words(b)
  {
    WordsJoin("", ' ', b);
    assert "" + [' '] + b == " " + b;
  }

  lemma OneWord(c: char)
    requires !IsSpace(c)
    ensures Words([c]) == [[c]] && Words([c, ' ']) == [[c]]
  {
    assert [c][1..] == "" && "" + [c] == [c];
    assert SplitFrom([c], "") == [[c]];
    assert SplitFrom("", [c]) == SplitFrom("" + [c], [c][1..]);
    WordsJoin([c], ' ', "");
    assert [c] + [' '] + "" == [c, ' '];
  }

  lemma SpacedMarks()
    ensures Spaced("(") == " ( " && Spaced(")") == " ) "
  {
    assert "("[1..] == "" && ")"[1..] == "";
  }

  lemma SpacedParens(s: string)
    ensures Spaced("(" + s + ")") == " " + ("(" + [' '] + (Spaced(s) + [' '] + ") "))
  {
    SpacedMarks();
    hide Spaced;
    SpacedJoin("(", s + ")");
    SpacedJoin(s, ")");
    assert "(" + s + ")" == "(" + (s + ")");
    assert " ( " + (Spaced(s) + " ) ") == " " + ("(" + [' '] + (Spaced(s) + [' '] + ") "));
  }

  lemma WordsInParens(x: string)
    ensures Words(" " + ("(" + [' '] + (x + [' '] + ") "))) == ["("] + (Words(x) + [")"])
  {
    OneWord('(');
    OneWord(')');
    assert ['('] == "(" && [')', ' '] == ") ";
    hide Words;
    LeadingSpace("(" + [' '] + (x + [' '] + ") "));
    WordsJoin("(", ' ', x + [' '] + ") ");
    WordsJoin(x, ' ', ") ");
  }

  /** A parenthesised text tokenizes to its tokens in parentheses. */
  lemma ToksInParens(s: string)
    ensures Toks("(" + s + ")") == [TOpen] + Toks(s) + [TClose]
  {
    SpacedParens(s);
    WordsInParens(Spaced(s));
    var words := Words(Spaced(s));
    ClassifiedJoin(["("], words + [")"]);
    ClassifiedJoin(words, [")"]);
    assert Lower("(") == "(" && Lower(")") == ")";
    assert Classified(["("]) == [TOpen] && Classified([")"]) == [TClose];
  }

  lemma ToksSpace(a: string, c: char, b: string)
    requires IsSpace(c)
    ensures Toks(a + [c] + b) == Toks(a) + Toks(b)
  {
    SpacedJoin(a + [c], b);
    SpacedJoin(a, [c]);
    assert [c][1..] == "";
    assert Spaced([c]) == [c];
    WordsJoin(Spaced(a), c, Spaced(b));
    ClassifiedJoin(Words(Spaced(a)), Words(Spaced(b)));
  }

  lemma ToksOr()
    ensures Toks("or") == [TOr]
  {
    assert "or"[1..] == "r" && "r"[1..] == "";
    assert Spaced("r") == "r" && Spaced("or") == "or";
    assert SplitFrom("or", "") == ["or"];
    assert "" + ['o'] == "o" && "o" + ['r'] == "or";
    assert Words("or") == ["or"];
    assert Lower("or") == "or";
  }

  lemma ToksOrJoin(a: string, b: string)
    ensures Toks(a + " or " + b) == Toks(a) + [TOr] + Toks(b)
  {
    ToksSpace(a, ' ', "or" + [' '] + b);
    ToksSpace("or", ' ', b);
    ToksOr();
    assert a + " or " + b == a + [' '] + ("or" + [' '] + b);
  }

  // --- a list of conditions -----------------------------------------------------------------------

  /** A condition as written in the rule file. */
  datatype Yaml = Text(text: string) | List(items: seq<Yaml>) | Other

  /** The strings of a list in parentheses; other items are skipped. */
  function Parts(items: seq<Yaml>): seq<string> {
    if items == [] then []
    else Parts(items[..|items| - 1]) +
         (if items[|items| - 1].Text? then ["(" + items[|items| - 1].text + ")"] else [])
  }

  function JoinOr(parts: seq<string>): string
    requires parts != []
  {
    if |parts| == 1 then parts[0] else JoinOr(parts[..|parts| - 1]) + " or " + parts[|parts| - 1]
  }

  function ConditionToString(v: Yaml): Result<string> {
    match v
    case Text(s) => Ok(s)
    case List(items) => if Parts(items) == [] then Err(EmptyCondition) else Ok(JoinOr(Parts(items)))
    case Other => Err(NotAString)
  }
}

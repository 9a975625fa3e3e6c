/** From the text of a condition to the verdict of its rule: every expression can be
    written in words and is read back, and each word means what it says. */
module ConditionTexts {
  import opened Options
  import opened ConditionParser
  import opened ConditionGrammar
  import opened ConditionWords
  import opened ConditionEval

  // --- spelling --------------------------------------------------------------------------------

  predicate SameLetter(c: char, lower: char) {
    c == lower || ('a' <= lower <= 'z' && c as int + 32 == lower as int)
  }

  predicate InAnyCase(word: string, lower: string) {
    |word| == |lower| && forall i | 0 <= i < |word| :: SameLetter(word[i], lower[i])
  }

  predicate Reserved(word: string) {
    || InAnyCase(word, "and") || InAnyCase(word, "or") || InAnyCase(word, "not")
    || InAnyCase(word, "of") || InAnyCase(word, "them") || InAnyCase(word, "all")
  }

  function Digit(d: nat): char
    requires d < 10
  {
    ('0' as int + d) as char
  }

  /** A number in decimal. */
  function Digits(n: nat): string {
    if n < 10 then [Digit(n)] else Digits(n / 10) + [Digit(n % 10)]
  }

  /** Digits with an optional plus sign. */
  predicate Numeric(word: string) {
    var digits := if word != "" && word[0] == '+' then word[1..] else word;
    digits != "" && forall i | 0 <= i < |digits| :: '0' <= digits[i] <= '9'
  }

  /** One word: not empty, without white space and parentheses. */
  predicate Plain(word: string) {
    word != "" && forall i | 0 <= i < |word| :: !IsSpace(word[i]) && word[i] != '(' && word[i] != ')'
  }

  predicate IsName(word: string) {
    Plain(word) && !Reserved(word) && !Numeric(word)
  }

  /** The word is a way to write the token. */
  predicate Spells(word: string, t: Tok) {
    match t
    case TAnd => InAnyCase(word, "and")
    case TOr => InAnyCase(word, "or")
    case TNot => InAnyCase(word, "not")
    case TOf => InAnyCase(word, "of")
    case TThem => InAnyCase(word, "them")
    case TAll => InAnyCase(word, "all")
    case TNum(n) => n < 0x1_0000_0000_0000_0000 && (word == Digits(n) || word == "+" + Digits(n))
    case TIdent(name) => word == name && IsName(name)
    case TOpen => word == "("
    case TClose => word == ")"
  }

  // --- a spelled word is read as its token ----------------------------------------------------------

  lemma LowerIs(word: string, lower: string)
    requires forall i | 0 <= i < |lower| :: 'a' <= lower[i] <= 'z'
    ensures Lower(word) == lower <==> InAnyCase(word, lower)
  {
    if Lower(word) == lower {
      forall i | 0 <= i < |word| ensures SameLetter(word[i], lower[i]) {
        assert Lower(word)[i] == lower[i];
      }
    }
    if InAnyCase(word, lower) {
      forall i | 0 <= i < |word| ensures Lower(word)[i] == lower[i] {
        assert SameLetter(word[i], lower[i]);
      }
    }
  }

  lemma LowerReserved(word: string)
    ensures Lower(word) == "and" <==> InAnyCase(word, "and")
    ensures Lower(word) == "or" <==> InAnyCase(word, "or")
    ensures Lower(word) == "not" <==> InAnyCase(word, "not")
    ensures Lower(word) == "of" <==> InAnyCase(word, "of")
    ensures Lower(word) == "them" <==> InAnyCase(word, "them")
    ensures Lower(word) == "all" <==> InAnyCase(word, "all")
  {
    hide Lower, InAnyCase;
    LowerIs(word, "and");
    LowerIs(word, "or");
    LowerIs(word, "not");
    LowerIs(word, "of");
    LowerIs(word, "them");
    LowerIs(word, "all");
  }

  lemma {:induction false} DigitsRead(n: nat)
    ensures Digits(n) != "" && AllDigits(Digits(n)) && Decimal(Digits(n)) == n
  {
    if n >= 10 {
      DigitsRead(n / 10);
      var init, all := Digits(n / 10), Digits(n);
      assert all[..|all| - 1] == init && all[|all| - 1] == Digit(n % 10);
    } else {
      assert [Digit(n)][..0] == "" && Decimal("") == 0;
    }
  }

  lemma NotNumeric(word: string)
    ensures Count(word).Some? ==> Numeric(word)
  {
  }

  lemma CountsDigits(n: nat)
    requires n < 0x1_0000_0000_0000_0000
    ensures Count(Digits(n)) == Some(n) == Count("+" + Digits(n))
    ensures Numeric(Digits(n)) && Numeric("+" + Digits(n))
  {
    DigitsRead(n);
    hide Decimal, Digits;
    assert ("+" + Digits(n))[1..] == Digits(n);
  }

  /** Numbers are not words. */
  lemma NumericIsNotReserved(word: string)
    requires Numeric(word)
    ensures !Reserved(word) && Plain(word) && Lower(word) != "(" && Lower(word) != ")"
  {
    assert word != "" && word[0] <= '9';
    assert Lower(word)[0] == word[0];
    var digits := if word[0] == '+' then word[1..] else word;
    forall i | 0 <= i < |word| ensures !IsSpace(word[i]) && word[i] != '(' && word[i] != ')' {
      assert i > 0 && word[0] == '+' ==> word[i] == digits[i - 1];
    }
  }

  lemma PlainIsNoParen(word: string)
    requires Plain(word)
    ensures Lower(word) != "(" && Lower(word) != ")"
  {
    assert Lower(word)[0] == word[0] || 'a' <= Lower(word)[0] <= 'z';
  }

  lemma ReservedIsPlain(word: string)
    requires Reserved(word)
    ensures Plain(word)
  {
    assert forall i | 0 <= i < |word| :: 'a' <= word[i] <= 'z' || 'A' <= word[i] <= 'Z';
  }

  predicate IsParen(word: string) {
    word == "(" || word == ")"
  }

  /** A spelled token is read as that token. */
  lemma SpelledIsRead(word: string, t: Tok)
    requires Spells(word, t)
    ensures Classify(word) == t
    ensures if t == TOpen || t == TClose then IsParen(word) else Plain(word)
  {
    LowerReserved(word);
    match t
    case TNum(n) =>
      CountsDigits(n);
      NumericIsNotReserved(word);
    case TIdent(name) =>
      PlainIsNoParen(name);
      NotNumeric(name);
    case TOpen =>
      assert Lower("(") == "(";
    case TClose =>
      assert Lower(")") == ")";
    case _ =>
      ReservedIsPlain(word);
      DifferentWords(word);
  }

  /** No word is two words. */
  lemma DifferentWords(word: string)
    ensures InAnyCase(word, "and") ==> Lower(word) == "and"
    ensures InAnyCase(word, "or") ==> Lower(word) == "or"
    ensures InAnyCase(word, "not") ==> Lower(word) == "not"
    ensures InAnyCase(word, "of") ==> Lower(word) == "of"
    ensures InAnyCase(word, "them") ==> Lower(word) == "them"
    ensures InAnyCase(word, "all") ==> Lower(word) == "all"
  {
    LowerReserved(word);
  }

  // --- texts ----------------------------------------------------------------------------------------

  /** A word and the white space after it. */
  datatype Piece = Piece(word: string, gap: string)

  function Text(ps: seq<Piece>): string {
    if ps == [] then "" else ps[0].word + ps[0].gap + Text(ps[1..])
  }

  predicate Blank(gap: string) {
    forall i | 0 <= i < |gap| :: IsSpace(gap[i])
  }

  /** Words are set off by white space; next to a parenthesis there need be none. */
  predicate SetOff(ps: seq<Piece>) {
    forall i | 0 <= i < |ps| ::
      Blank(ps[i].gap) &&
      (ps[i].gap == "" && i + 1 < |ps| ==> IsParen(ps[i].word) || IsParen(ps[i + 1].word))
  }

  predicate Spelled(ps: seq<Piece>, ts: seq<Tok>) {
    |ps| == |ts| && forall i | 0 <= i < |ps| :: Spells(ps[i].word, ts[i])
  }

  lemma NoToks()
    ensures Toks("") == []
  {
  }

  lemma {:induction false} PlainSpaced(word: string)
    requires forall i | 0 <= i < |word| :: word[i] != '(' && word[i] != ')'
    ensures Spaced(word) == word
  {
    if word != "" {
      PlainSpaced(word[1..]);
      assert word == [word[0]] + word[1..];
    }
  }

  lemma {:induction false} PlainSplit(front: string, word: string)
    requires forall i | 0 <= i < |word| :: !IsSpace(word[i])
    ensures SplitFrom(front, word) == Closed(front + word)
    decreases |word|
  {
    if word == "" {
      assert front + word == front;
    } else {
      PlainSplit(front + [word[0]], word[1..]);
      assert front + [word[0]] + word[1..] == front + word;
    }
  }

  lemma PlainToks(word: string)
    requires Plain(word)
    ensures Toks(word) == [Classify(word)]
  {
    PlainSpaced(word);
    PlainSplit("", word);
    assert "" + word == word;
    assert Words(word) == [word];
    hide Classify, Words, Spaced;
    assert Classified([word]) == [Classify(word)];
  }

  lemma {:induction false} BlankLead(gap: string, b: string)
    requires Blank(gap)
    ensures Toks(gap + b) == Toks(b)
  {
    if gap == "" {
      assert gap + b == b;
    } else {
      NoToks();
      hide Toks;
      BlankLead(gap[1..], b);
      ToksSpace("", gap[0], gap[1..] + b);
      assert gap + b == "" + [gap[0]] + (gap[1..] + b);
    }
  }

  function ParenTok(p: char): Tok {
    if p == '(' then TOpen else TClose
  }

  lemma ParenSpaced(a: string, p: char, b: string)
    requires p == '(' || p == ')'
    ensures Spaced(a + [p] + b) == Spaced(a) + [' '] + ([p] + [' '] + Spaced(b))
  {
    SpacedMarks();
    assert "(" == ['('] && ")" == [')'];
    assert Spaced([p]) == [' '] + ([p] + [' ']);
    hide Spaced;
    SpacedJoin(a + [p], b);
    SpacedJoin(a, [p]);
    var x, y := Spaced(a), Spaced(b);
    assert x + ([' '] + ([p] + [' '])) + y == x + [' '] + ([p] + [' '] + y);
  }

  lemma ParenWords(x: string, p: char, y: string)
    requires p == '(' || p == ')'
    ensures Words(x + [' '] + ([p] + [' '] + y)) == Words(x) + ([[p]] + Words(y))
  {
    OneWord(p);
    hide Words;
    WordsJoin(x, ' ', [p] + [' '] + y);
    WordsJoin([p], ' ', y);
  }

  lemma ParenClassified(p: char)
    requires p == '(' || p == ')'
    ensures Classified([[p]]) == [ParenTok(p)]
  {
    assert "(" == ['('] && ")" == [')'];
    assert Lower("(") == "(" && Lower(")") == ")";
  }

  /** A parenthesis is a word of its own, set off or not. */
  lemma ParenApart(a: string, p: char, b: string)
    requires p == '(' || p == ')'
    ensures Toks(a + [p] + b) == Toks(a) + [ParenTok(p)] + Toks(b)
  {
    hide Spaced, Words, Classified, ParenTok;
    ParenSpaced(a, p, b);
    ParenWords(Spaced(a), p, Spaced(b));
    ParenClassified(p);
    ClassifiedJoin(Words(Spaced(a)), [[p]] + Words(Spaced(b)));
    ClassifiedJoin([[p]], Words(Spaced(b)));
  }

  lemma WordThen(word: string, c: char, rest: string)
    requires Plain(word) && IsSpace(c)
    ensures Toks(word + [c] + rest) == [Classify(word)] + Toks(rest)
  {
    hide Toks, Classify;
    PlainToks(word);
    ToksSpace(word, c, rest);
  }

  lemma TextFirst(ps: seq<Piece>)
    requires ps != []
    ensures Text(ps) == ps[0].word + (ps[0].gap + Text(ps[1..]))
  {
    assert ps[0].word + ps[0].gap + Text(ps[1..]) == ps[0].word + (ps[0].gap + Text(ps[1..]));
  }

  lemma ParenFirst(word: string, gap: string, rest: string)
    requires IsParen(word) && Blank(gap)
    ensures Toks(word + (gap + rest)) == [ParenTok(word[0])] + Toks(rest)
  {
    hide Toks, Blank;
    NoToks();
    ParenApart("", word[0], gap + rest);
    BlankLead(gap, rest);
    assert "" + [word[0]] + (gap + rest) == word + (gap + rest);
  }

  lemma GapAfter(word: string, gap: string, rest: string)
    requires Plain(word) && Blank(gap) && gap != ""
    ensures Toks(word + (gap + rest)) == [Classify(word)] + Toks(rest)
  {
    assert Blank(gap[1..]) && IsSpace(gap[0]);
    hide Toks, Classify, Plain, Blank;
    WordThen(word, gap[0], gap[1..] + rest);
    BlankLead(gap[1..], rest);
    assert word + [gap[0]] + (gap[1..] + rest) == word + (gap + rest);
  }

  lemma ParenAfter(word: string, rest: string)
    requires Plain(word) && rest != "" && (rest[0] == '(' || rest[0] == ')')
    ensures Toks(word + rest) == [Classify(word)] + Toks(rest)
  {
    hide Toks, Classify, Plain;
    NoToks();
    PlainToks(word);
    ParenApart(word, rest[0], rest[1..]);
    ParenApart("", rest[0], rest[1..]);
    assert rest == "" + [rest[0]] + rest[1..] && word + rest == word + [rest[0]] + rest[1..];
  }

  /** The first word of a text. */
  lemma FirstRead(word: string, t: Tok, gap: string, rest: string, next: string)
    requires Spells(word, t) && Blank(gap)
    requires gap == "" && !IsParen(word) ==> rest == "" || (IsParen(next) && next <= rest)
    ensures Toks(word + (gap + rest)) == [t] + Toks(rest)
  {
    SpelledIsRead(word, t);
    hide Toks, Classify, Spells, Plain, Blank;
    if IsParen(word) {
      ParenFirst(word, gap, rest);
      ParenSpells(word, t);
    } else if gap != "" {
      GapAfter(word, gap, rest);
    } else {
      assert gap + rest == rest;
      if rest == "" {
        NoToks();
        PlainToks(word);
        assert word + rest == word;
      } else {
        ParenAfter(word, rest);
      }
    }
  }

  lemma ParenSpells(word: string, t: Tok)
    requires IsParen(word) && Classify(word) == t
    ensures t == ParenTok(word[0])
  {
    assert Lower("(") == "(" && Lower(")") == ")";
  }

  /** Every way to write a list of tokens is read as that list. */
  lemma {:induction false} TextIsRead(ps: seq<Piece>, ts: seq<Tok>)
    requires SetOff(ps) && Spelled(ps, ts)
    ensures Toks(Text(ps)) == ts
  {
    hide Toks, Spells, Blank;
    if ps == [] {
      NoToks();
    } else {
      TextIsRead(ps[1..], ts[1..]);
      TextFirst(ps);
      var rest := Text(ps[1..]);
      var next := if |ps| > 1 then ps[1].word else "";
      if |ps| > 1 {
        TextFirst(ps[1..]);
      }
      assert Blank(ps[0].gap) && Spells(ps[0].word, ts[0]);
      FirstRead(ps[0].word, ts[0], ps[0].gap, rest, next);
      assert ts == [ts[0]] + ts[1..];
    }
  }

  /** Any expression, written in words in any letter case and with any white space, is
      read back. */
  lemma WrittenThenParsed(e: Expr, lead: string, ps: seq<Piece>)
    requires Blank(lead) && SetOff(ps) && Spelled(ps, PrintOr(e))
    ensures ParseText(lead + Text(ps)) == Ok(e)
  {
    hide Toks, PrintOr, OrPhrase, Spelled, SetOff;
    BlankLead(lead, Text(ps));
    TextIsRead(ps, PrintOr(e));
    PrintedIsPhrase(e);
    TextIsPhrase(lead + Text(ps), e);
  }

  // --- every expression over names can be written ------------------------------------------------------

  /** Its names are names and its counts fit 64 bits. */
  predicate Expressible(e: Expr) {
    match e
    case Ref(name) => IsName(name)
    case Not(x) => Expressible(x)
    case And(a, b) => Expressible(a) && Expressible(b)
    case Or(a, b) => Expressible(a) && Expressible(b)
    case Quant(atLeast, target) =>
      && (atLeast.Some? ==> atLeast.value < 0x1_0000_0000_0000_0000)
      && (target.Pattern? ==> IsName(target.text))
  }

  predicate HasWord(t: Tok) {
    (t.TNum? ==> t.n < 0x1_0000_0000_0000_0000) && (t.TIdent? ==> IsName(t.name))
  }

  function WordFor(t: Tok): string {
    match t
    case TAnd => "and"
    case TOr => "or"
    case TNot => "not"
    case TOf => "of"
    case TThem => "them"
    case TAll => "all"
    case TNum(n) => Digits(n)
    case TIdent(name) => name
    case TOpen => "("
    case TClose => ")"
  }

  lemma WordForSpells(t: Tok)
    requires HasWord(t)
    ensures Spells(WordFor(t), t)
  {
  }

  ghost predicate AllHaveWords(ts: seq<Tok>) {
    forall i | 0 <= i < |ts| :: HasWord(ts[i])
  }

  lemma {:induction false} PrintedHasWords(e: Expr)
    requires Expressible(e)
    ensures AllHaveWords(PrintOr(e)) && AllHaveWords(PrintAnd(e))
    ensures AllHaveWords(PrintNot(e)) && AllHaveWords(PrintPrimary(e))
  {
    hide HasWord;
    match e
    case Ref(name) =>
      PrintedAlone(e);
      assert HasWord(TIdent(name)) by { NameHasWord(name); }
    case Not(x) =>
      PrintedHasWords(x);
      NegationHasWords(x);
    case And(a, b) =>
      PrintedHasWords(a);
      PrintedHasWords(b);
      ConnectivesHaveWords();
      WordsJoined(PrintAnd(a), TAnd, PrintNot(b));
      WordsEnclosed(PrintAnd(a) + [TAnd] + PrintNot(b));
      assert PrintNot(e) == PrintPrimary(e);
    case Or(a, b) =>
      PrintedHasWords(a);
      PrintedHasWords(b);
      ConnectivesHaveWords();
      WordsJoined(PrintOr(a), TOr, PrintAnd(b));
      WordsEnclosed(PrintOr(a) + [TOr] + PrintAnd(b));
      assert PrintNot(e) == PrintPrimary(e);
      assert PrintAnd(e) == PrintNot(e);
    case Quant(atLeast, target) =>
      PrintedAlone(e);
      CountHasWords(atLeast, target);
  }

  lemma NameHasWord(name: string)
    requires IsName(name)
    ensures HasWord(TIdent(name))
  {
  }

  lemma ConnectivesHaveWords()
    ensures HasWord(TAnd) && HasWord(TOr) && HasWord(TNot) && HasWord(TOpen) && HasWord(TClose)
  {
  }

  lemma CountHasWords(atLeast: Option<nat>, target: Target)
    requires Expressible(Quant(atLeast, target))
    ensures AllHaveWords(CountToks(atLeast) + [TOf] + TargetToks(target))
  {
  }

  lemma WordsEnclosed(ts: seq<Tok>)
    requires AllHaveWords(ts)
    ensures AllHaveWords([TOpen] + ts + [TClose])
  {
    ConnectivesHaveWords();
    hide HasWord;
  }

  lemma NegationHasWords(x: Expr)
    requires AllHaveWords(PrintNot(x))
    ensures var e := Not(x);
            && AllHaveWords(PrintOr(e)) && AllHaveWords(PrintAnd(e))
            && AllHaveWords(PrintNot(e)) && AllHaveWords(PrintPrimary(e))
  {
    var e, ts := Not(x), [TNot] + PrintNot(x);
    ConnectivesHaveWords();
    hide HasWord;
    assert AllHaveWords(ts);
    WordsEnclosed(ts);
    assert PrintNot(e) == ts && PrintAnd(e) == ts;
    assert PrintOr(e) == PrintAnd(e);
  }

  /** A name or a quantifier is printed as it stands. */
  lemma PrintedAlone(e: Expr)
    requires e.Ref? || e.Quant?
    ensures PrintOr(e) == PrintAnd(e) == PrintNot(e) == PrintPrimary(e)
  {
    assert PrintNot(e) == PrintPrimary(e);
    assert PrintAnd(e) == PrintNot(e);
  }

  lemma WordsJoined(a: seq<Tok>, t: Tok, b: seq<Tok>)
    requires AllHaveWords(a) && HasWord(t) && AllHaveWords(b)
    ensures AllHaveWords(a + [t] + b)
  {
    hide HasWord;
  }

  lemma CanBeWritten(e: Expr) returns (ps: seq<Piece>)
    requires Expressible(e)
    ensures SetOff(ps) && Spelled(ps, PrintOr(e)) && ParseText(Text(ps)) == Ok(e)
  {
    var ts := PrintOr(e);
    PrintedHasWords(e);
    ps := seq(|ts|, i requires 0 <= i < |ts| => Piece(WordFor(ts[i]), " "));
    hide PrintOr, HasWord, WordFor, Spells, ParseText;
    forall i | 0 <= i < |ps| ensures Spells(ps[i].word, ts[i]) {
      WordForSpells(ts[i]);
    }
    WrittenThenParsed(e, "", ps);
    assert "" + Text(ps) == Text(ps);
  }

  // --- what the words mean ------------------------------------------------------------------------------

  lemma Complement(a: Expr, results: Results, names: seq<string>)
    ensures Eval(Not(a), results, names) != Eval(a, results, names)
    ensures !Eval(And(a, Not(a)), results, names) && Eval(Or(a, Not(a)), results, names)
  {
  }

  lemma DeMorgan(a: Expr, b: Expr, results: Results, names: seq<string>)
    ensures Eval(Not(And(a, b)), results, names) == Eval(Or(Not(a), Not(b)), results, names)
    ensures Eval(Not(Or(a, b)), results, names) == Eval(And(Not(a), Not(b)), results, names)
  {
  }

  lemma WordBetween(a: string, word: string, b: string)
    requires Plain(word)
    ensures Toks(a + " " + word + " " + b) == Toks(a) + [Classify(word)] + Toks(b)
  {
    hide Toks, Classify;
    WordThen(word, ' ', b);
    ToksSpace(a, ' ', word + [' '] + b);
    assert a + " " + word + " " + b == a + [' '] + (word + [' '] + b);
  }

  lemma PartPhrase(s: string)
    requires ParseText(s).Ok?
    ensures var ts, e := Toks("(" + s + ")"), ParseText(s).value;
            Primary(ts, e) && NotPhrase(ts, e) && AndPhrase(ts, e) && OrPhrase(ts, e)
  {
    PartIsPhrase(s);
    Tighter(Toks("(" + s + ")"), ParseText(s).value);
  }

  /** Two conditions and a word between them. */
  lemma JoinedByAnd(s: string, t: string, word: string)
    requires ParseText(s).Ok? && ParseText(t).Ok? && InAnyCase(word, "and")
    ensures ParseText("(" + s + ")" + " " + word + " " + ("(" + t + ")")) ==
              Ok(And(ParseText(s).value, ParseText(t).value))
  {
    var x, y, e, f := "(" + s + ")", "(" + t + ")", ParseText(s).value, ParseText(t).value;
    SpelledIsRead(word, TAnd);
    hide Toks, ParseText, Classify, OrPhrase, AndPhrase, NotPhrase, Primary, InAnyCase;
    PartPhrase(s);
    PartPhrase(t);
    WordBetween(x, word, y);
    var text, ts := x + " " + word + " " + y, Toks(x) + [TAnd] + Toks(y);
    JoinedAnd(Toks(x), Toks(y), e, f);
    AndIsOr(ts, And(e, f));
    TextIsPhrase(text, And(e, f));
  }

  lemma AndIsOr(ts: seq<Tok>, e: Expr)
    requires AndPhrase(ts, e)
    ensures OrPhrase(ts, e)
  {
  }

  lemma JoinedByOr(s: string, t: string, word: string)
    requires ParseText(s).Ok? && ParseText(t).Ok? && InAnyCase(word, "or")
    ensures ParseText("(" + s + ")" + " " + word + " " + ("(" + t + ")")) ==
              Ok(Or(ParseText(s).value, ParseText(t).value))
  {
    var x, y, e, f := "(" + s + ")", "(" + t + ")", ParseText(s).value, ParseText(t).value;
    SpelledIsRead(word, TOr);
    hide Toks, ParseText, Classify, OrPhrase, AndPhrase, NotPhrase, Primary, InAnyCase;
    PartPhrase(s);
    PartPhrase(t);
    WordBetween(x, word, y);
    JoinedOr(Toks(x), Toks(y), e, f);
    TextIsPhrase(x + " " + word + " " + y, Or(e, f));
  }

  lemma NotIsOr(ts: seq<Tok>, e: Expr)
    requires NotPhrase(ts, e)
    ensures OrPhrase([TNot] + ts, Not(e))
  {
    assert ([TNot] + ts)[1..] == ts;
    assert NotPhrase([TNot] + ts, Not(e));
    Wider([TNot] + ts, Not(e));
  }

  lemma NegatedByNot(s: string, word: string)
    requires ParseText(s).Ok? && InAnyCase(word, "not")
    ensures ParseText(word + " " + ("(" + s + ")")) == Ok(Not(ParseText(s).value))
  {
    var x, e := "(" + s + ")", ParseText(s).value;
    SpelledIsRead(word, TNot);
    hide Toks, ParseText, Classify, OrPhrase, AndPhrase, NotPhrase, Primary, InAnyCase;
    PartPhrase(s);
    WordThen(word, ' ', x);
    assert word + [' '] + x == word + " " + x;
    NotIsOr(Toks(x), e);
    TextIsPhrase(word + " " + x, Not(e));
  }

  /** The verdict of a rule whose condition is written so. */
  ghost predicate Verdict<Event>(rule: CompiledRule<Event>, text: string, event: Event) {
    ParseText(text).Ok? && rule.(condition := ParseText(text).value).Matches(event)
  }

  lemma SameResults<Event>(rule: CompiledRule<Event>, a: Expr, b: Expr, event: Event)
    ensures rule.(condition := a).Results(event) == rule.(condition := b).Results(event)
  {
  }

  /** `(s) and (t)`, `(s) or (t)` and `not (s)` match an event as the rules with s and
      with t say, in any letter case. */
  lemma ConnectivesMean<Event>(rule: CompiledRule<Event>, event: Event, s: string, t: string,
                               conj: string, disj: string, neg: string)
    requires ParseText(s).Ok? && ParseText(t).Ok?
    requires InAnyCase(conj, "and") && InAnyCase(disj, "or") && InAnyCase(neg, "not")
    ensures var x, y := "(" + s + ")", "(" + t + ")";
            && (Verdict(rule, x + " " + conj + " " + y, event) <==> Verdict(rule, s, event) && Verdict(rule, t, event))
            && (Verdict(rule, x + " " + disj + " " + y, event) <==> Verdict(rule, s, event) || Verdict(rule, t, event))
            && (Verdict(rule, neg + " " + x, event) <==> !Verdict(rule, s, event))
  {
    JoinedByAnd(s, t, conj);
    JoinedByOr(s, t, disj);
    NegatedByNot(s, neg);
    hide ParseText, InAnyCase;
  }

  /** A name alone matches exactly when the rule has a selection of that name and the
      event satisfies it. */
  lemma NameMeans<Event>(rule: CompiledRule<Event>, event: Event, name: string)
    requires IsName(name)
    ensures Verdict(rule, name, event) <==> name in rule.selections && rule.selections[name](event)
  {
    var ps := [Piece(name, "")];
    PrintedAlone(Ref(name));
    assert Spelled(ps, [TIdent(name)]) && SetOff(ps);
    WrittenThenParsed(Ref(name), "", ps);
    OnePiece(name);
    hide ParseText, IsName;
  }

  lemma OnePiece(word: string)
    ensures "" + Text([Piece(word, "")]) == word
  {
    var ps := [Piece(word, "")];
    assert ps[1..] == [] && Text(ps[1..]) == "";
    assert Text(ps) == word + "" + "";
  }

  // --- quantifiers -----------------------------------------------------------------------------------------

  /** A pattern ending in a star picks the names that start so; any other picks itself. */
  lemma PatternPicks(front: string, name: string)
    ensures Picks(Pattern(front + "*"), name) <==> exists rest :: name == front + rest
    ensures (front == "" || front[|front| - 1] != '*') ==> (Picks(Pattern(front), name) <==> name == front)
    ensures Picks(Everyone, name)
  {
    assert (front + "*")[..|front|] == front;
    if front <= name {
      assert name == front + name[|front|..];
    }
  }

  /** How a quantifier over everything or over a pattern is written. */
  lemma QuantifierText(atLeast: Option<nat>, target: Target, count: string, of: string, last: string)
    requires Spells(count, if atLeast.None? then TAll else TNum(atLeast.value)) && Spells(of, TOf)
    requires Spells(last, if target.Everyone? then TThem else TIdent(target.text))
    ensures ParseText(count + " " + of + " " + last) == Ok(Quant(atLeast, target))
  {
    var ps := [Piece(count, " "), Piece(of, " "), Piece(last, "")];
    var e := Quant(atLeast, target);
    PrintedAlone(e);
    hide Spells, ParseText;
    assert Spelled(ps, PrintOr(e)) && SetOff(ps);
    ThreePieces(count, of, last);
    WrittenThenParsed(e, "", ps);
  }

  lemma ThreePieces(a: string, b: string, c: string)
    ensures "" + Text([Piece(a, " "), Piece(b, " "), Piece(c, "")]) == a + " " + b + " " + c
  {
    var ps := [Piece(a, " "), Piece(b, " "), Piece(c, "")];
    var rest := ps[1..];
    assert rest == [Piece(b, " "), Piece(c, "")] && rest[1..] == [Piece(c, "")];
    OnePiece(c);
    assert Text(rest) == b + " " + Text([Piece(c, "")]);
    assert Text(ps) == a + " " + Text(rest);
  }

  /** The rule's selections that the target picks and the event satisfies. */
  function Satisfied<Event>(rule: CompiledRule<Event>, target: Target, event: Event): set<string> {
    set n | n in rule.names && Picks(target, n) && n in rule.selections && rule.selections[n](event)
  }

  /** `N of` matches when at least N of the selections meant are satisfied; `all of`
      when some is meant and all that are meant are satisfied. */
  lemma QuantifiersMean<Event>(rule: CompiledRule<Event>, event: Event, target: Target, n: nat,
                               count: string, all: string, of: string, last: string)
    requires Distinct(rule.names)
    requires Spells(count, TNum(n)) && Spells(all, TAll) && Spells(of, TOf)
    requires Spells(last, if target.Everyone? then TThem else TIdent(target.text))
    ensures Verdict(rule, count + " " + of + " " + last, event) <==> |Satisfied(rule, target, event)| >= n
    ensures Verdict(rule, all + " " + of + " " + last, event) <==>
              (exists x :: x in rule.names && Picks(target, x)) &&
              forall x | x in rule.names && Picks(target, x) :: x in rule.selections && rule.selections[x](event)
  {
    hide ParseText, Spells, Eval, Picks;
    QuantifierText(Some(n), target, count, of, last);
    QuantifierText(None, target, all, of, last);
    var results := rule.Results(event);
    QuantifierMeaning(Some(n), target, results, rule.names);
    QuantifierMeaning(None, target, results, rule.names);
    SatisfiedAre(rule, target, event);
    SameResults(rule, Quant(Some(n), target), Quant(None, target), event);
    SomePicked(rule, target, event);
  }

  lemma SatisfiedAre<Event>(rule: CompiledRule<Event>, target: Target, event: Event)
    ensures PickedHits(target, rule.Results(event), rule.names) == Satisfied(rule, target, event)
  {
    hide Picks;
  }

  lemma SomePicked<Event>(rule: CompiledRule<Event>, target: Target, event: Event)
    ensures Picked(target, rule.names) != {} &&
            (forall n | n in Picked(target, rule.names) :: Hit(rule.Results(event), n))
              <==>
            (exists x :: x in rule.names && Picks(target, x)) &&
            forall x | x in rule.names && Picks(target, x) :: x in rule.selections && rule.selections[x](event)
  {
    hide Picks;
    var results, picked := rule.Results(event), Picked(target, rule.names);
    forall x ensures x in picked <==> x in rule.names && Picks(target, x) {
    }
    forall x ensures Hit(results, x) <==> x in rule.selections && rule.selections[x](event) {
    }
    if x :| x in rule.names && Picks(target, x) {
      assert x in picked;
    }
  }

  // --- white space, large numbers -------------------------------------------------------------------

  /** Tabs, line breaks and the wide space set words off; letters, digits and the marks
      of names do not. */
  lemma WhiteSpace(c: char)
    ensures Blank(" \t\n\r\U{a0}\U{3000}")
    ensures ('a' <= c <= 'z' || 'A' <= c <= 'Z' || '0' <= c <= '9' || c == '_' || c == '-' || c == '*' || c == '.') ==>
              !IsSpace(c)
  {
  }

  /** A number beyond 64 bits is read as a name. */
  lemma LargeNumbersAreNames(n: nat)
    requires n >= 0x1_0000_0000_0000_0000
    ensures ParseText(Digits(n)) == Ok(Ref(Digits(n)))
  {
    DigitsRead(n);
    NumericWord(n);
    NumericIsNotReserved(Digits(n));
    LowerReserved(Digits(n));
    assert Count(Digits(n)) == None by {
      assert Digits(n)[0] != '+';
    }
    hide Decimal, Digits, Lower;
    PlainToks(Digits(n));
    assert Classify(Digits(n)) == TIdent(Digits(n));
    PrintedIsPhrase(Ref(Digits(n)));
    PrintedAlone(Ref(Digits(n)));
    TextIsPhrase(Digits(n), Ref(Digits(n)));
  }

  lemma NumericWord(n: nat)
    ensures Numeric(Digits(n))
  {
    DigitsRead(n);
  }

  // --- what faults say -----------------------------------------------------------------------------------

  predicate Starts(t: Tok) {
    t == TOpen || t == TAll || t.TNum? || t.TIdent? || t == TNot
  }

  /** A text without words, and a condition that is not text, are faults of their own. */
  lemma NothingWritten(gap: string, items: seq<Yaml>)
    requires Blank(gap) && forall i | 0 <= i < |items| :: !items[i].Text?
    ensures ParseText(gap) == Err(EmptyCondition)
    ensures ConditionToString(List(items)) == Err(EmptyCondition) && ConditionToString(Other) == Err(NotAString)
  {
    BlankLead(gap, "");
    NoToks();
    assert gap + "" == gap;
    NoParts(items);
  }

  /** What stands where a condition should start. */
  lemma UnexpectedStart(ts: seq<Tok>)
    requires ts != [] && !Starts(ts[0])
    ensures ParseSpec(ts) == Err(Unexpected(Some(ts[0])))
  {
    assert PrimarySpec(ts) == Refused(Unexpected(Some(ts[0])));
    assert NotSpec(ts) == PrimarySpec(ts);
    assert AndSpec(ts) == PrimarySpec(ts);
    assert OrSpec(ts) == PrimarySpec(ts);
  }

  /** A whole condition followed by more. */
  lemma MoreThanOne(ts: seq<Tok>, e: Expr, rest: seq<Tok>)
    requires OrPhrase(ts, e) && rest != [] && rest[0] != TAnd && rest[0] != TOr
    ensures ParseSpec(ts + rest) == Err(TrailingTokens)
  {
    OrComplete(ts, e, rest);
    assert OrSpec(ts + rest) == Parsed(e, rest);
  }

  /** An opened parenthesis that is not closed after its condition. */
  lemma Unclosed(ts: seq<Tok>, e: Expr, rest: seq<Tok>)
    requires OrPhrase(ts, e) && (rest == [] || (rest[0] != TAnd && rest[0] != TOr && rest[0] != TClose))
    ensures ParseSpec([TOpen] + (ts + rest)) == Err(Expected(TClose))
  {
    var all := [TOpen] + (ts + rest);
    OrComplete(ts, e, rest);
    assert all[1..] == ts + rest && OrSpec(ts + rest) == Parsed(e, rest);
    assert PrimarySpec(all) == Refused(Expected(TClose));
    assert NotSpec(all) == PrimarySpec(all);
    assert AndSpec(all) == PrimarySpec(all);
    assert OrSpec(all) == PrimarySpec(all);
  }

  /** A count without `of`, or without anything to count. */
  lemma UnfinishedCount(count: Tok, rest: seq<Tok>)
    requires count == TAll || count.TNum?
    ensures (rest == [] || rest[0] != TOf) ==> ParseSpec([count] + rest) == Err(Expected(TOf))
    ensures rest == [TOf] ==> ParseSpec([count] + rest) == Err(NoTarget(None))
    ensures |rest| >= 2 && rest[0] == TOf && rest[1] != TThem && !rest[1].TIdent? ==>
              ParseSpec([count] + rest) == Err(NoTarget(Some(rest[1])))
  {
    var all := [count] + rest;
    assert all[1..] == rest;
    var atLeast := if count == TAll then None else Some(count.n);
    assert PrimarySpec(all) == QuantSpec(atLeast, rest);
    assert NotSpec(all) == PrimarySpec(all);
    if QuantSpec(atLeast, rest).Refused? {
      assert AndSpec(all) == PrimarySpec(all);
      assert OrSpec(all) == PrimarySpec(all);
    }
  }
}

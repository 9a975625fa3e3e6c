/** The condition mini-language: its tokens, its expressions, and the parser that
    moves a position over a token list. */
module ConditionParser {
  import opened Options

  datatype Tok =
    | TAnd | TOr | TNot | TOf | TThem | TAll
    | TNum(n: nat) | TIdent(name: string)
    | TOpen | TClose

  datatype Target = Everyone | Pattern(text: string)

  datatype Expr =
    | Ref(name: string)
    | Not(e: Expr)
    | And(a: Expr, b: Expr)
    | Or(a: Expr, b: Expr)
    | Quant(atLeast: Option<nat>, target: Target)

  datatype Fault =
    | EmptyCondition
    | Expected(tok: Tok)
    | Unexpected(found: Option<Tok>)
    | NoTarget(found: Option<Tok>)
    | TrailingTokens
    | NotAString

  datatype Result<T> = Ok(value: T) | Err(fault: Fault)

  // --- what the parser computes, as functions on the tokens still ahead ----------------------

  datatype Parsed<T> = Parsed(value: T, rest: seq<Tok>) | Refused(fault: Fault)

  function First(ts: seq<Tok>): Option<Tok> {
    if ts == [] then None else Some(ts[0])
  }

  function OrSpec(ts: seq<Tok>): (r: Parsed<Expr>)
    ensures r.Parsed? ==> |r.rest| < |ts|
    decreases |ts|, 4
  {
    match AndSpec(ts)
    case Refused(f) => Refused(f)
    case Parsed(lhs, rest) => OrRest(lhs, rest)
  }

  /** Further alternatives after `lhs`. */
  function OrRest(lhs: Expr, ts: seq<Tok>): (r: Parsed<Expr>)
    ensures r.Parsed? ==> |r.rest| <= |ts|
    decreases |ts|, 5
  {
    if First(ts) != Some(TOr) then Parsed(lhs, ts)
    else
      match AndSpec(ts[1..])
      case Refused(f) => Refused(f)
      case Parsed(rhs, rest) => OrRest(Or(lhs, rhs), rest)
  }

  function AndSpec(ts: seq<Tok>): (r: Parsed<Expr>)
    ensures r.Parsed? ==> |r.rest| < |ts|
    decreases |ts|, 2
  {
    match NotSpec(ts)
    case Refused(f) => Refused(f)
    case Parsed(lhs, rest) => AndRest(lhs, rest)
  }

  /** Further conjuncts after `lhs`. */
  function AndRest(lhs: Expr, ts: seq<Tok>): (r: Parsed<Expr>)
    ensures r.Parsed? ==> |r.rest| <= |ts|
    decreases |ts|, 3
  {
    if First(ts) != Some(TAnd) then Parsed(lhs, ts)
    else
      match NotSpec(ts[1..])
      case Refused(f) => Refused(f)
      case Parsed(rhs, rest) => AndRest(And(lhs, rhs), rest)
  }

  function NotSpec(ts: seq<Tok>): (r: Parsed<Expr>)
    ensures r.Parsed? ==> |r.rest| < |ts|
    decreases |ts|, 1
  {
    if First(ts) == Some(TNot) then
      match NotSpec(ts[1..])
      case Refused(f) => Refused(f)
      case Parsed(e, rest) => Parsed(Not(e), rest)
    else
      PrimarySpec(ts)
  }

  function PrimarySpec(ts: seq<Tok>): (r: Parsed<Expr>)
    ensures r.Parsed? ==> |r.rest| < |ts|
    decreases |ts|, 0
  {
    match First(ts)
    case Some(TOpen) =>
      (match OrSpec(ts[1..])
       case Refused(f) => Refused(f)
       case Parsed(e, rest) =>
         if First(rest) == Some(TClose) then Parsed(e, rest[1..]) else Refused(Expected(TClose)))
    case Some(TAll) => QuantSpec(None, ts[1..])
    case Some(TNum(n)) => QuantSpec(Some(n), ts[1..])
    case Some(TIdent(name)) => Parsed(Ref(name), ts[1..])
    case other => Refused(Unexpected(other))
  }

  /** What follows a count: `of` and a target. */
  function QuantSpec(atLeast: Option<nat>, ts: seq<Tok>): (r: Parsed<Expr>)
    ensures r.Parsed? ==> |r.rest| < |ts|
  {
    if First(ts) != Some(TOf) then Refused(Expected(TOf))
    else
      match First(ts[1..])
      case Some(TThem) => Parsed(Quant(atLeast, Everyone), ts[2..])
      case Some(TIdent(p)) => Parsed(Quant(atLeast, Pattern(p)), ts[2..])
      case other => Refused(NoTarget(other))
  }

  /** A whole token list. */
  function ParseSpec(ts: seq<Tok>): Result<Expr> {
    match OrSpec(ts)
    case Refused(f) => Err(f)
    case Parsed(e, rest) => if rest == [] then Ok(e) else Err(TrailingTokens)
  }

  // --- the parser object ----------------------------------------------------------------------

  class Parser {
    const toks: seq<Tok>
    var pos: nat

    constructor (toks: seq<Tok>)
      ensures this.toks == toks && pos == 0
    {
      this.toks := toks;
      pos := 0;
    }

    /** The tokens still ahead; none once the position has run past the end. */
    function Ahead(): seq<Tok>
      reads this`pos
    {
      if pos <= |toks| then toks[pos..] else []
    }

    /** A result and position agree with what the specification gives on `from`. */
    ghost predicate Agrees<T>(r: Result<T>, spec: Parsed<T>)
      reads this`pos
    {
      match spec
      case Refused(f) => r == Err(f)
      case Parsed(e, rest) => r == Ok(e) && pos <= |toks| && Ahead() == rest
    }

    method Peek() returns (t: Option<Tok>)
      ensures t == First(Ahead())
    {
      t := if pos < |toks| then Some(toks[pos]) else None;
    }

    method Next() returns (t: Option<Tok>)
      modifies this`pos
      ensures t == First(old(Ahead())) && pos == old(pos) + 1
      ensures t.Some? ==> pos <= |toks| && Ahead() == old(Ahead())[1..]
    {
      t := if pos < |toks| then Some(toks[pos]) else None;
      pos := pos + 1;
    }

    method Expect(t: Tok) returns (r: Result<()>)
      modifies this`pos
      ensures Agrees(r, if First(old(Ahead())) == Some(t) then Parsed((), old(Ahead())[1..]) else Refused(Expected(t)))
    {
      var found := Next();
      r := if found == Some(t) then Ok(()) else Err(Expected(t));
    }

    method ParseOr() returns (r: Result<Expr>)
      modifies this`pos
      ensures Agrees(r, OrSpec(old(Ahead())))
      decreases |Ahead()|, 4
    {
      r := ParseAnd();
      if r.Err? { return; }
      var lhs := r.value;
      var t := Peek();
      while t == Some(TOr)
        invariant pos <= |toks| && |Ahead()| < |old(Ahead())| && t == First(Ahead())
        invariant OrSpec(old(Ahead())) == OrRest(lhs, Ahead())
        decreases |Ahead()|
      {
        var _ := Next();
        r := ParseAnd();
        if r.Err? { return; }
        lhs := Or(lhs, r.value);
        t := Peek();
      }
      r := Ok(lhs);
    }

    method ParseAnd() returns (r: Result<Expr>)
      modifies this`pos
      ensures Agrees(r, AndSpec(old(Ahead())))
      decreases |Ahead()|, 3
    {
      r := ParseNot();
      if r.Err? { return; }
      var lhs := r.value;
      var t := Peek();
      while t == Some(TAnd)
        invariant pos <= |toks| && |Ahead()| < |old(Ahead())| && t == First(Ahead())
        invariant AndSpec(old(Ahead())) == AndRest(lhs, Ahead())
        decreases |Ahead()|
      {
        var _ := Next();
        r := ParseNot();
        if r.Err? { return; }
        lhs := And(lhs, r.value);
        t := Peek();
      }
      r := Ok(lhs);
    }

    method ParseNot() returns (r: Result<Expr>)
      modifies this`pos
      ensures Agrees(r, NotSpec(old(Ahead())))
      decreases |Ahead()|, 2
    {
      var t := Peek();
      if t == Some(TNot) {
        var _ := Next();
        r := ParseNot();
        r := if r.Err? then r else Ok(Not(r.value));
      } else {
        r := ParsePrimary();
      }
    }

    method ParsePrimary() returns (r: Result<Expr>)
      modifies this`pos
      ensures Agrees(r, PrimarySpec(old(Ahead())))
      decreases |Ahead()|, 1
    {
      var t := Next();
      match t
      case Some(TOpen) =>
        r := ParseOr();
        if r.Err? { return; }
        var close := Expect(TClose);
        if close.Err? { r := Err(close.fault); }
      case Some(TAll) =>
        r := ParseQuant(None);
      case Some(TNum(n)) =>
        r := ParseQuant(Some(n));
      case Some(TIdent(name)) =>
        r := Ok(Ref(name));
      case other =>
        r := Err(Unexpected(other));
    }

    method ParseQuant(atLeast: Option<nat>) returns (r: Result<Expr>)
      modifies this`pos
      ensures Agrees(r, QuantSpec(atLeast, old(Ahead())))
    {
      var of := Expect(TOf);
      if of.Err? { return Err(of.fault); }
      var target := ParseTarget();
      r := if target.Err? then Err(target.fault) else Ok(Quant(atLeast, target.value));
    }

    method ParseTarget() returns (r: Result<Target>)
      modifies this`pos
      ensures Agrees(r, match First(old(Ahead()))
                        case Some(TThem) => Parsed(Everyone, old(Ahead())[1..])
                        case Some(TIdent(p)) => Parsed(Pattern(p), old(Ahead())[1..])
                        case other => Refused(NoTarget(other)))
    {
      var t := Next();
      match t
      case Some(TThem) => r := Ok(Everyone);
      case Some(TIdent(p)) => r := Ok(Pattern(p));
      case other => r := Err(NoTarget(other));
    }
  }

  method ParseTokens(toks: seq<Tok>) returns (r: Result<Expr>)
    ensures r == ParseSpec(toks)
  {
    var p := new Parser(toks);
    r := p.ParseOr();
    if r.Ok? && p.pos != |p.toks| {
      r := Err(TrailingTokens);
    }
  }
}

/** Kconfig expressions (tools/kconfiglib.py): evaluation, printing and the token-index parser. */
module KconfigExpr {

  datatype Symbol = Symbol(name: string, constant: bool)

  datatype Relation = Equal | Unequal | Less | LessEqual | Greater | GreaterEqual

  datatype Expr =
    | Sym(s: Symbol)
    | And(l: Expr, r: Expr)
    | Or(l: Expr, r: Expr)
    | Not(e: Expr)
    | Rel(op: Relation, a: Symbol, b: Symbol)

  datatype Token = TSym(s: Symbol) | TRel(op: Relation) | TAnd | TOr | TNot | TOpen | TClose

  // ---- Evaluation -----------------------------------------------------------------------------------------------

  type Tri = t: int | 0 <= t <= 2

  /** An assignment: the value of each symbol and the outcome of comparing two of them. */
  datatype Env = Env(tri: Symbol -> Tri, holds: (Relation, Symbol, Symbol) -> bool)

  function Min(a: Tri, b: Tri): Tri { if a < b then a else b }
  function Max(a: Tri, b: Tri): Tri { if a < b then b else a }

  function Value(e: Expr, env: Env): Tri {
    match e
    case Sym(s) => env.tri(s)
    case And(l, r) => var v := Value(l, env); if v == 0 then 0 else Min(v, Value(r, env))
    case Or(l, r) => var v := Value(l, env); if v == 2 then 2 else Max(v, Value(r, env))
    case Not(x) => 2 - Value(x, env)
    case Rel(op, a, b) => if env.holds(op, a, b) then 2 else 0
  }

  /** Skipping an operand that cannot matter makes no difference. */
  lemma ValueIsStrict(l: Expr, r: Expr, env: Env)
    ensures Value(And(l, r), env) == Min(Value(l, env), Value(r, env))
    ensures Value(Or(l, r), env) == Max(Value(l, env), Value(r, env))
    ensures Value(Not(And(l, r)), env) == Value(Or(Not(l), Not(r)), env)
    ensures Value(Not(Not(l)), env) == Value(l, env)
  {
  }

  // ---- Printing ---------------------------------------------------------------------------------------------------

  function Print(e: Expr): seq<Token>
    decreases e, 0
  {
    match e
    case Sym(s) => [TSym(s)]
    case And(l, r) => AndOperand(l) + [TAnd] + AndOperand(r)
    case Or(l, r) => OrOperand(l) + [TOr] + OrOperand(r)
    case Not(x) => if x.Sym? then [TNot, TSym(x.s)] else [TNot, TOpen] + Print(x) + [TClose]
    case Rel(op, a, b) => [TSym(a), TRel(op), TSym(b)]
  }

  function AndOperand(e: Expr): seq<Token>
    decreases e, 1
  {
    if e.Or? then [TOpen] + Print(e) + [TClose] else Print(e)
  }

  function OrOperand(e: Expr): seq<Token>
    decreases e, 1
  {
    if e.And? then [TOpen] + Print(e) + [TClose] else Print(e)
  }

  // ---- The grammar ---------------------------------------------------------------------------------------------------

  datatype Parse = Fail | Ok(e: Expr, rest: seq<Token>)

  const M := Symbol("m", true)
  const MODULES := Symbol("MODULES", false)

  function ParseExpr(t: seq<Token>, tm: bool): (p: Parse)
    ensures p.Ok? ==> |p.rest| < |t|
    decreases |t|, 2
  {
    match ParseAnd(t, tm)
    case Fail => Fail
    case Ok(l, rest) =>
      if rest == [] || rest[0] != TOr then Ok(l, rest)
      else
        match ParseExpr(rest[1..], tm)
        case Fail => Fail
        case Ok(r, rest2) => Ok(Or(l, r), rest2)
  }

  function ParseAnd(t: seq<Token>, tm: bool): (p: Parse)
    ensures p.Ok? ==> |p.rest| < |t|
    decreases |t|, 1
  {
    match ParseFactor(t, tm)
    case Fail => Fail
    case Ok(l, rest) =>
      if rest == [] || rest[0] != TAnd then Ok(l, rest)
      else
        match ParseAnd(rest[1..], tm)
        case Fail => Fail
        case Ok(r, rest2) => Ok(And(l, r), rest2)
  }

  function ParseFactor(t: seq<Token>, tm: bool): (p: Parse)
    ensures p.Ok? ==> |p.rest| < |t|
    decreases |t|, 0
  {
    if t == [] then Fail
    else
      match t[0]
      case TSym(s) =>
        if |t| == 1 || !t[1].TRel? then Ok(if tm && s == M then And(Sym(M), Sym(MODULES)) else Sym(s), t[1..])
        else if |t| == 2 || !t[2].TSym? then Fail
        else Ok(Rel(t[1].op, s, t[2].s), t[3..])
      case TNot =>
        (match ParseFactor(t[1..], tm)
         case Fail => Fail
         case Ok(x, rest) => Ok(Not(x), rest))
      case TOpen =>
        (match ParseExpr(t[1..], tm)
         case Fail => Fail
         case Ok(x, rest) => if rest != [] && rest[0] == TClose then Ok(x, rest[1..]) else Fail)
      case _ => Fail
  }

  // ---- Re-association to the right -------------------------------------------------------------------------------------

  function JoinAnd(x: Expr, y: Expr): Expr {
    if x.And? then And(x.l, JoinAnd(x.r, y)) else And(x, y)
  }

  function JoinOr(x: Expr, y: Expr): Expr {
    if x.Or? then Or(x.l, JoinOr(x.r, y)) else Or(x, y)
  }

  /** Chains of one operator hang to the right. */
  function Right(e: Expr): Expr {
    match e
    case And(l, r) => JoinAnd(Right(l), Right(r))
    case Or(l, r) => JoinOr(Right(l), Right(r))
    case Not(x) => Not(Right(x))
    case _ => e
  }

  lemma {:induction false} JoinAndAssoc(x: Expr, y: Expr, z: Expr)
    ensures JoinAnd(JoinAnd(x, y), z) == JoinAnd(x, JoinAnd(y, z))
  {
    if x.And? {
      JoinAndAssoc(x.r, y, z);
    }
  }

  lemma {:induction false} JoinOrAssoc(x: Expr, y: Expr, z: Expr)
    ensures JoinOr(JoinOr(x, y), z) == JoinOr(x, JoinOr(y, z))
  {
    if x.Or? {
      JoinOrAssoc(x.r, y, z);
    }
  }

  lemma {:induction false} JoinAndValue(x: Expr, y: Expr, env: Env)
    ensures Value(JoinAnd(x, y), env) == Min(Value(x, env), Value(y, env))
  {
    if x.And? {
      JoinAndValue(x.r, y, env);
    }
  }

  lemma {:induction false} JoinOrValue(x: Expr, y: Expr, env: Env)
    ensures Value(JoinOr(x, y), env) == Max(Value(x, env), Value(y, env))
  {
    if x.Or? {
      JoinOrValue(x.r, y, env);
    }
  }

  lemma {:induction false} RightValue(e: Expr, env: Env)
    ensures Value(Right(e), env) == Value(e, env)
  {
    match e
    case And(l, r) =>
      RightValue(l, env);
      RightValue(r, env);
      JoinAndValue(Right(l), Right(r), env);
    case Or(l, r) =>
      RightValue(l, env);
      RightValue(r, env);
      JoinOrValue(Right(l), Right(r), env);
    case Not(x) => RightValue(x, env);
    case _ =>
  }

  lemma {:induction false} JoinAndPrint(x: Expr, y: Expr)
    ensures Print(JoinAnd(x, y)) == AndOperand(x) + [TAnd] + AndOperand(y)
  {
    if x.And? {
      JoinAndPrint(x.r, y);
      assert AndOperand(x) == AndOperand(x.l) + [TAnd] + AndOperand(x.r);
      assert JoinAnd(x.r, y).And?;
    }
  }

  lemma {:induction false} JoinOrPrint(x: Expr, y: Expr)
    ensures Print(JoinOr(x, y)) == OrOperand(x) + [TOr] + OrOperand(y)
  {
    if x.Or? {
      JoinOrPrint(x.r, y);
      assert OrOperand(x) == OrOperand(x.l) + [TOr] + OrOperand(x.r);
      assert JoinOr(x.r, y).Or?;
    }
  }

  lemma {:induction false} RightPrint(e: Expr)
    ensures Print(Right(e)) == Print(e)
    ensures Right(e).And? == e.And? && Right(e).Or? == e.Or? && Right(e).Sym? == e.Sym?
  {
    match e
    case And(l, r) =>
      RightPrint(l);
      RightPrint(r);
      JoinAndPrint(Right(l), Right(r));
    case Or(l, r) =>
      RightPrint(l);
      RightPrint(r);
      JoinOrPrint(Right(l), Right(r));
    case Not(x) => RightPrint(x);
    case _ =>
  }

  // ---- Parsing what was printed -------------------------------------------------------------------------------------------

  predicate Ends(t: seq<Token>, o: Token) {
    t == [] || (!t[0].TRel? && t[0] != o)
  }

  /** In parentheses anything is a factor. */
  lemma {:induction false} ParenParse(e: Expr, t: seq<Token>)
    ensures ParseFactor([TOpen] + Print(e) + [TClose] + t, false) == Ok(Right(e), t)
    decreases e, 4
  {
    var u := [TOpen] + Print(e) + [TClose] + t;
    TopParse(e, [TClose] + t);
    assert u[1..] == Print(e) + ([TClose] + t);
    assert ([TClose] + t)[1..] == t;
  }

  lemma {:induction false} FactorParse(e: Expr, t: seq<Token>)
    requires !e.And? && !e.Or? && (t == [] || !t[0].TRel?)
    ensures ParseFactor(Print(e) + t, false) == Ok(Right(e), t)
    decreases e, 0
  {
    var u := Print(e) + t;
    match e
    case Sym(s) => assert u[1..] == t;
    case Rel(op, a, b) => assert u[3..] == t;
    case Not(x) => NegatedParse(x, t);
  }

  lemma {:induction false} NegatedParse(x: Expr, t: seq<Token>)
    requires t == [] || !t[0].TRel?
    ensures ParseFactor(Print(Not(x)) + t, false) == Ok(Not(Right(x)), t)
    decreases x, 5
  {
    var u := Print(Not(x)) + t;
    if x.Sym? {
      FactorParse(x, t);
      assert u[1..] == Print(x) + t;
    } else {
      ParenParse(x, t);
      assert u[1..] == [TOpen] + Print(x) + [TClose] + t;
    }
    NotFactor(u);
  }

  lemma NotFactor(u: seq<Token>)
    requires u != [] && u[0] == TNot && ParseFactor(u[1..], false).Ok?
    ensures var p := ParseFactor(u[1..], false); ParseFactor(u, false) == Ok(Not(p.e), p.rest)
  {
  }

  /** What an operand of `&&` parses to, alone or before more operands. */
  ghost function ThenAnd(x: Expr, t: seq<Token>): Parse {
    if t == [] || t[0] != TAnd then Ok(x, t)
    else
      match ParseAnd(t[1..], false)
      case Fail => Fail
      case Ok(y, rest) => Ok(JoinAnd(x, y), rest)
  }

  lemma {:induction false} AndParse(e: Expr, t: seq<Token>)
    requires t == [] || !t[0].TRel?
    ensures ParseAnd(AndOperand(e) + t, false) == ThenAnd(Right(e), t)
    decreases e, if e.Or? then 5 else 1
  {
    RightPrint(e);
    match e
    case And(l, r) =>
      var u := [TAnd] + (AndOperand(r) + t);
      assert AndOperand(e) + t == AndOperand(l) + u;
      assert u[1..] == AndOperand(r) + t;
      AndParse(l, u);
      AndParse(r, t);
      if t != [] && t[0] == TAnd {
        var p := ParseAnd(t[1..], false);
        if p.Ok? {
          JoinAndAssoc(Right(l), Right(r), p.e);
        }
      }
    case Or(l, r) =>
      ParenParse(e, t);
      assert AndOperand(e) + t == [TOpen] + Print(e) + [TClose] + t;
    case _ =>
      FactorParse(e, t);
  }

  ghost function ThenOr(x: Expr, t: seq<Token>): Parse {
    if t == [] || t[0] != TOr then Ok(x, t)
    else
      match ParseExpr(t[1..], false)
      case Fail => Fail
      case Ok(y, rest) => Ok(JoinOr(x, y), rest)
  }

  lemma {:induction false} OrParse(e: Expr, t: seq<Token>)
    requires Ends(t, TAnd)
    ensures ParseExpr(OrOperand(e) + t, false) == ThenOr(Right(e), t)
    decreases e, if e.And? then 5 else 2
  {
    RightPrint(e);
    match e
    case Or(l, r) =>
      var u := [TOr] + (OrOperand(r) + t);
      assert OrOperand(e) + t == OrOperand(l) + u;
      assert u[1..] == OrOperand(r) + t;
      OrParse(l, u);
      OrParse(r, t);
      if t != [] && t[0] == TOr {
        var p := ParseExpr(t[1..], false);
        if p.Ok? {
          JoinOrAssoc(Right(l), Right(r), p.e);
        }
      }
    case And(l, r) =>
      ParenParse(e, t);
      assert OrOperand(e) + t == [TOpen] + Print(e) + [TClose] + t;
    case _ =>
      AndParse(e, t);
  }

  lemma {:induction false} TopParse(e: Expr, t: seq<Token>)
    requires Ends(t, TAnd) && Ends(t, TOr)
    ensures ParseExpr(Print(e) + t, false) == Ok(Right(e), t)
    decreases e, 3
  {
    if e.Or? {
      OrParse(e, t);
    } else {
      AndParse(e, t);
    }
  }

  /** Printing and parsing gives the expression with its chains hung to the right: the value is the same under every
      assignment, and so is the printed form. */
  lemma RoundTrip(e: Expr)
    ensures ParseExpr(Print(e), false) == Ok(Right(e), [])
    ensures forall env :: Value(Right(e), env) == Value(e, env)
    ensures Print(Right(e)) == Print(e)
    ensures Right(Right(e)) == Right(e)
  {
    TopParse(e, []);
    assert Print(e) + [] == Print(e);
    forall env ensures Value(Right(e), env) == Value(e, env) {
      RightValue(e, env);
    }
    RightPrint(e);
    TopParse(Right(e), []);
    assert Print(Right(e)) + [] == Print(Right(e));
  }

  /** Expressions that print alike are alike up to association, so they have the same value. */
  lemma PrintDetermines(e: Expr, f: Expr, env: Env)
    requires Print(e) == Print(f)
    ensures Right(e) == Right(f) && Value(e, env) == Value(f, env)
  {
    RoundTrip(e);
    RoundTrip(f);
    RightValue(e, env);
    RightValue(f, env);
  }

  // ---- The condition m -----------------------------------------------------------------------------------------------------

  /** In conditions a lone `m` stands for `m && MODULES`; the operands of a relation are left alone. */
  function Gated(e: Expr): Expr {
    match e
    case Sym(s) => if s == M then And(Sym(M), Sym(MODULES)) else e
    case And(l, r) => And(Gated(l), Gated(r))
    case Or(l, r) => Or(Gated(l), Gated(r))
    case Not(x) => Not(Gated(x))
    case Rel(_, _, _) => e
  }

  function GatedParse(p: Parse): Parse {
    match p
    case Fail => Fail
    case Ok(e, rest) => Ok(Gated(e), rest)
  }

  /** The rewriting parser accepts the same token lists, up to the same place, and rewrites every lone `m` and nothing else. */
  lemma {:induction false} RewritingParse(t: seq<Token>)
    ensures ParseExpr(t, true) == GatedParse(ParseExpr(t, false))
    decreases |t|, 2
  {
    RewritingAnd(t);
    var p := ParseAnd(t, false);
    if p.Ok? && p.rest != [] && p.rest[0] == TOr {
      RewritingParse(p.rest[1..]);
    }
  }

  lemma {:induction false} RewritingAnd(t: seq<Token>)
    ensures ParseAnd(t, true) == GatedParse(ParseAnd(t, false))
    decreases |t|, 1
  {
    RewritingFactor(t);
    var p := ParseFactor(t, false);
    if p.Ok? && p.rest != [] && p.rest[0] == TAnd {
      RewritingAnd(p.rest[1..]);
    }
  }

  lemma {:induction false} RewritingFactor(t: seq<Token>)
    ensures ParseFactor(t, true) == GatedParse(ParseFactor(t, false))
    decreases |t|, 0
  {
    if t != [] && t[0] == TNot {
      RewritingFactor(t[1..]);
    } else if t != [] && t[0] == TOpen {
      RewritingParse(t[1..]);
    }
  }

  function GatedTri(env: Env, s: Symbol): Tri {
    if s == M then Min(env.tri(M), env.tri(MODULES)) else env.tri(s)
  }

  /** The assignment in which the constant m is n unless modules are on. */
  function GatedEnv(env: Env): Env {
    Env(s => GatedTri(env, s), env.holds)
  }

  lemma {:induction false} GatedValue(e: Expr, env: Env)
    ensures Value(Gated(e), env) == Value(e, GatedEnv(env))
  {
    match e
    case And(l, r) =>
      GatedValue(l, env);
      GatedValue(r, env);
    case Or(l, r) =>
      GatedValue(l, env);
      GatedValue(r, env);
    case Not(x) => GatedValue(x, env);
    case _ =>
  }

  /** A condition that is printed and read back has its value with m switched off where modules are. */
  lemma ConditionRoundTrip(e: Expr, env: Env)
    ensures ParseExpr(Print(e), true) == Ok(Gated(Right(e)), [])
    ensures Value(Gated(Right(e)), env) == Value(e, GatedEnv(env))
    ensures env.tri(MODULES) == 2 ==> Value(Gated(Right(e)), env) == Value(e, env)
  {
    RoundTrip(e);
    RewritingParse(Print(e));
    GatedValue(Right(e), env);
    GatedValue(e, env);
    RightValue(e, GatedEnv(env));
    if env.tri(MODULES) == 2 {
      SameEnv(e, GatedEnv(env), env);
    }
  }

  lemma {:induction false} SameEnv(e: Expr, env: Env, env': Env)
    requires (forall s :: env.tri(s) == env'.tri(s)) && env.holds == env'.holds
    ensures Value(e, env) == Value(e, env')
  {
    match e
    case And(l, r) =>
      SameEnv(l, env, env');
      SameEnv(r, env, env');
    case Or(l, r) =>
      SameEnv(l, env, env');
      SameEnv(r, env, env');
    case Not(x) => SameEnv(x, env, env');
    case _ =>
  }

  // ---- The parser object ---------------------------------------------------------------------------------------------------

  datatype Option = None | Some(e: Expr)

  /** Tokens and the position of the next one. A parse error leaves nothing to continue with. */
  class Parser {
    const tokens: seq<Token>
    var i: nat

    ghost predicate Valid()
      reads this
    {
      i <= |tokens|
    }

    ghost function Left(): seq<Token>
      requires Valid()
      reads this
    {
      tokens[i..]
    }

    constructor (tokens: seq<Token>)
      ensures this.tokens == tokens && i == 0 && Valid()
    {
      this.tokens, i := tokens, 0;
    }

    method CheckToken(t: Token) returns (r: bool)
      requires Valid()
      modifies this
      ensures Valid()
      ensures r <==> old(i) < |tokens| && tokens[old(i)] == t
      ensures i == if r then old(i) + 1 else old(i)
    {
      r := i < |tokens| && tokens[i] == t;
      if r {
        i := i + 1;
      }
    }

    method ParseExpression(tm: bool) returns (r: Option)
      requires Valid()
      modifies this
      ensures Valid() && old(i) <= i
      ensures r == None ==> ParseExpr(old(Left()), tm) == Fail
      ensures r != None ==> ParseExpr(old(Left()), tm) == Ok(r.e, Left())
      decreases |tokens| - i, 2
    {
      var l := ParseAndExpression(tm);
      if l == None {
        return None;
      }
      var more := CheckToken(TOr);
      if !more {
        return l;
      }
      assert Left() == tokens[i - 1..][1..];
      var x := ParseExpression(tm);
      if x == None {
        return None;
      }
      return Some(Or(l.e, x.e));
    }

    method ParseAndExpression(tm: bool) returns (r: Option)
      requires Valid()
      modifies this
      ensures Valid() && old(i) <= i
      ensures r == None ==> ParseAnd(old(Left()), tm) == Fail
      ensures r != None ==> ParseAnd(old(Left()), tm) == Ok(r.e, Left())
      decreases |tokens| - i, 1
    {
      var l := ParseFactorExpression(tm);
      if l == None {
        return None;
      }
      var more := CheckToken(TAnd);
      if !more {
        return l;
      }
      assert Left() == tokens[i - 1..][1..];
      var x := ParseAndExpression(tm);
      if x == None {
        return None;
      }
      return Some(And(l.e, x.e));
    }

    method ParseFactorExpression(tm: bool) returns (r: Option)
      requires Valid()
      modifies this
      ensures Valid() && old(i) <= i
      ensures r == None ==> ParseFactor(old(Left()), tm) == Fail
      ensures r != None ==> ParseFactor(old(Left()), tm) == Ok(r.e, Left())
      decreases |tokens| - i, 0
    {
      if i == |tokens| {
        return None;
      }
      var token := tokens[i];
      i := i + 1;
      if token.TSym? {
        if i == |tokens| || !tokens[i].TRel? {
          return Some(if tm && token.s == M then And(Sym(M), Sym(MODULES)) else Sym(token.s));
        }
        var op := tokens[i].op;
        i := i + 1;
        if i == |tokens| || !tokens[i].TSym? {
          return None;
        }
        i := i + 1;
        return Some(Rel(op, token.s, tokens[i - 1].s));
      }
      assert Left() == old(Left())[1..];
      if token == TNot {
        var x := ParseFactorExpression(tm);
        return if x == None then None else Some(Not(x.e));
      }
      if token == TOpen {
        var x := ParseExpression(tm);
        if x == None {
          return None;
        }
        var closed := CheckToken(TClose);
        if closed {
          assert Left() == tokens[i - 1..][1..];
          return x;
        }
      }
      return None;
    }
  }
}

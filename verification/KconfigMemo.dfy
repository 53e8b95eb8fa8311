/** Kconfig symbol values (tools/kconfiglib.py): memoised evaluation of bool and tristate symbols outside choices, and
    invalidation that stops at symbols without cached values. */
module KconfigMemo {
  import opened KconfigExpr

  datatype Kind = BoolSym | TristateSym

  /** A defined symbol: the conditions of its prompts, its defaults with their conditions, and its dependencies. */
  datatype Def = Def(kind: Kind, prompts: seq<Expr>, defaults: seq<(Expr, Expr)>, weak: Expr, rev: Expr, direct: Expr)

  datatype Number = NoNumber | Num(n: int)

  /** The definitions, and how a text reads as a number. */
  datatype Config = Config(defs: map<Symbol, Def>, number: string -> Number)

  type Values = map<Symbol, Tri>

  // ---- Values from values -------------------------------------------------------------------------------------

  function Tristate(s: Symbol): bool {
    s.constant && (s.name == "n" || s.name == "m" || s.name == "y")
  }

  /** Constant and undefined symbols never change. */
  function FixedTri(s: Symbol): Tri {
    if s == Symbol("y", true) then 2 else if s == Symbol("m", true) then 1 else 0
  }

  function TriIn(c: Config, vals: Values, s: Symbol): Tri {
    if s !in c.defs then FixedTri(s) else if s in vals then vals[s] else 0
  }

  function TriText(t: Tri): string {
    if t == 0 then "n" else if t == 1 then "m" else "y"
  }

  function Text(c: Config, vals: Values, s: Symbol): string {
    if s in c.defs then TriText(TriIn(c, vals, s)) else s.name
  }

  function NumberOf(c: Config, vals: Values, s: Symbol): Number {
    if s in c.defs || Tristate(s) then Num(TriIn(c, vals, s)) else c.number(s.name)
  }

  function Strcmp(a: string, b: string): int {
    if a == b then 0
    else if a == [] then -1
    else if b == [] then 1
    else if a[0] < b[0] then -1
    else if b[0] < a[0] then 1
    else Strcmp(a[1..], b[1..])
  }

  /** `a` stands before `b` in a dictionary. */
  ghost predicate Before(a: string, b: string) {
    exists k: nat :: k <= |a| && k < |b| && a[..k] == b[..k] && (k == |a| || a[k] < b[k])
  }

  lemma {:induction false} StrcmpIsDictionaryOrder(a: string, b: string)
    ensures Strcmp(a, b) == 0 <==> a == b
    ensures Strcmp(a, b) < 0 <==> Before(a, b)
    ensures Strcmp(b, a) == -Strcmp(a, b)
  {
    if a == b {
      assert !Before(a, b);
    } else if a == [] {
      assert a[..0] == b[..0];
    } else if b != [] && a[0] == b[0] {
      assert a == [a[0]] + a[1..] && b == [b[0]] + b[1..];
      StrcmpIsDictionaryOrder(a[1..], b[1..]);
      BeforeTail(a, b);
    } else if b != [] {
      if a[0] < b[0] {
        assert a[..0] == b[..0];
      } else if Before(a, b) {
        var k: nat :| k <= |a| && k < |b| && a[..k] == b[..k] && (k == |a| || a[k] < b[k]);
        assert k > 0 ==> a[..k][0] == b[..k][0];
      }
    }
  }

  lemma BeforeTail(a: string, b: string)
    requires a != [] && b != [] && a[0] == b[0]
    ensures Before(a, b) <==> Before(a[1..], b[1..])
  {
    if Before(a, b) {
      var k: nat :| k <= |a| && k < |b| && a[..k] == b[..k] && (k == |a| || a[k] < b[k]);
      assert k > 0;
      assert a[1..][..k - 1] == a[..k][1..] == b[..k][1..] == b[1..][..k - 1];
    }
    if Before(a[1..], b[1..]) {
      var k: nat :| k <= |a[1..]| && k < |b[1..]| && a[1..][..k] == b[1..][..k] && (k == |a[1..]| || a[1..][k] < b[1..][k]);
      assert a[..k + 1] == [a[0]] + a[1..][..k] == b[..k + 1];
    }
  }

  function Compare(c: Config, vals: Values, a: Symbol, b: Symbol): int {
    var m, n := NumberOf(c, vals, a), NumberOf(c, vals, b);
    if m.Num? && n.Num? then m.n - n.n else Strcmp(Text(c, vals, a), Text(c, vals, b))
  }

  function Holds(c: Config, vals: Values, op: Relation, a: Symbol, b: Symbol): bool {
    var comp := Compare(c, vals, a, b);
    match op
    case Equal => comp == 0
    case Unequal => comp != 0
    case Less => comp < 0
    case LessEqual => comp <= 0
    case Greater => comp > 0
    case GreaterEqual => comp >= 0
  }

  /** Symbols that both read as numbers compare as these, any others as texts. */
  lemma HoldsMeans(c: Config, vals: Values, a: Symbol, b: Symbol)
    ensures var m, n := NumberOf(c, vals, a), NumberOf(c, vals, b);
      if m.Num? && n.Num? then
        (Holds(c, vals, Less, a, b) <==> m.n < n.n) && (Holds(c, vals, Equal, a, b) <==> m.n == n.n)
      else
        && (Holds(c, vals, Less, a, b) <==> Before(Text(c, vals, a), Text(c, vals, b)))
        && (Holds(c, vals, Equal, a, b) <==> Text(c, vals, a) == Text(c, vals, b))
    ensures Holds(c, vals, Unequal, a, b) == !Holds(c, vals, Equal, a, b)
    ensures Holds(c, vals, LessEqual, a, b) == (Holds(c, vals, Less, a, b) || Holds(c, vals, Equal, a, b))
    ensures Holds(c, vals, Greater, a, b) == Holds(c, vals, Less, b, a)
    ensures Holds(c, vals, GreaterEqual, a, b) == Holds(c, vals, LessEqual, b, a)
  {
    StrcmpIsDictionaryOrder(Text(c, vals, a), Text(c, vals, b));
  }

  ghost function EnvOf(c: Config, vals: Values): Env {
    Env(s => TriIn(c, vals, s), (op, a, b) => Holds(c, vals, op, a, b))
  }

  ghost function Val(c: Config, vals: Values, e: Expr): Tri {
    Value(e, EnvOf(c, vals))
  }

  const MODULES_VALUE := Sym(MODULES)

  /** `type`: without modules a tristate is a bool. */
  ghost predicate IsTristate(c: Config, vals: Values, d: Def) {
    d.kind == TristateSym && Val(c, vals, MODULES_VALUE) != 0
  }

  ghost function VisMax(c: Config, vals: Values, ps: seq<Expr>): Tri {
    if ps == [] then 0 else Max(VisMax(c, vals, ps[..|ps| - 1]), Val(c, vals, ps[|ps| - 1]))
  }

  /** `_visibility` */
  ghost function VisOf(c: Config, vals: Values, d: Def): Tri {
    var vis := VisMax(c, vals, d.prompts);
    if vis == 1 && !IsTristate(c, vals, d) then 2 else vis
  }

  ghost function DefaultOf(c: Config, vals: Values, ds: seq<(Expr, Expr)>): Tri {
    if ds == [] then 0
    else
      var cond := Val(c, vals, ds[0].1);
      if cond != 0 then Min(Val(c, vals, ds[0].0), cond) else DefaultOf(c, vals, ds[1..])
  }

  datatype User = Unset | Set(t: Tri)

  /** The value before selects: the user's where visible, otherwise defaults and implies. */
  ghost function BaseOf(c: Config, vals: Values, d: Def, user: User, vis: Tri): Tri {
    if vis != 0 && user.Set? then Min(user.t, vis)
    else
      var val := DefaultOf(c, vals, d.defaults);
      var weak := Val(c, vals, d.weak);
      if weak != 0 && Val(c, vals, d.direct) != 0 then Max(weak, val) else val
  }

  /** `tri_value` of a symbol outside choices. */
  ghost function TriOf(c: Config, vals: Values, d: Def, user: User, vis: Tri): Tri {
    var rev := Val(c, vals, d.rev);
    var base := BaseOf(c, vals, d, user, vis);
    var val := if rev != 0 then Max(rev, base) else base;
    if val == 1 && (!IsTristate(c, vals, d) || Val(c, vals, d.weak) == 2) then 2 else val
  }

  // ---- What an evaluation reads -----------------------------------------------------------------------------------

  /** All symbols the short-circuiting evaluation reads have values. */
  ghost predicate Known(c: Config, vals: Values, e: Expr) {
    match e
    case Sym(s) => s in c.defs ==> s in vals
    case And(l, r) => Known(c, vals, l) && (Val(c, vals, l) != 0 ==> Known(c, vals, r))
    case Or(l, r) => Known(c, vals, l) && (Val(c, vals, l) != 2 ==> Known(c, vals, r))
    case Not(x) => Known(c, vals, x)
    case Rel(op, a, b) => (a in c.defs ==> a in vals) && (b in c.defs ==> b in vals)
  }

  ghost predicate KnownAll(c: Config, vals: Values, ps: seq<Expr>) {
    forall p <- ps :: Known(c, vals, p)
  }

  ghost predicate KnownVis(c: Config, vals: Values, d: Def) {
    KnownAll(c, vals, d.prompts) && (VisMax(c, vals, d.prompts) == 1 && d.kind == TristateSym ==> Known(c, vals, MODULES_VALUE))
  }

  ghost predicate KnownDefault(c: Config, vals: Values, ds: seq<(Expr, Expr)>) {
    ds != [] ==>
      && Known(c, vals, ds[0].1)
      && (if Val(c, vals, ds[0].1) != 0 then Known(c, vals, ds[0].0) else KnownDefault(c, vals, ds[1..]))
  }

  ghost predicate KnownBase(c: Config, vals: Values, d: Def, user: User, vis: Tri) {
    !(vis != 0 && user.Set?) ==>
      && KnownDefault(c, vals, d.defaults)
      && Known(c, vals, d.weak)
      && (Val(c, vals, d.weak) != 0 ==> Known(c, vals, d.direct))
  }

  ghost predicate KnownTri(c: Config, vals: Values, d: Def, user: User, vis: Tri) {
    && KnownBase(c, vals, d, user, vis)
    && Known(c, vals, d.rev)
    && var rev := Val(c, vals, d.rev);
    var base := BaseOf(c, vals, d, user, vis);
    (if rev != 0 then Max(rev, base) else base) == 1 && d.kind == TristateSym ==>
      Known(c, vals, MODULES_VALUE) && (IsTristate(c, vals, d) ==> Known(c, vals, d.weak))
  }

  ghost function Items(e: Expr): set<Symbol> {
    match e
    case Sym(s) => {s}
    case And(l, r) => Items(l) + Items(r)
    case Or(l, r) => Items(l) + Items(r)
    case Not(x) => Items(x)
    case Rel(op, a, b) => {a, b}
  }

  /** `w` has the values of `v` for the symbols in `items`. */
  ghost predicate Extends(v: Values, w: Values, items: set<Symbol>) {
    forall s :: s in items && s in v ==> s in w && w[s] == v[s]
  }

  /** More values do not change what is known. */
  lemma {:induction false} KnownGrows(c: Config, v: Values, w: Values, e: Expr)
    requires Known(c, v, e) && Extends(v, w, Items(e))
    ensures Known(c, w, e) && Val(c, w, e) == Val(c, v, e)
  {
    match e
    case Sym(s) =>
    case And(l, r) =>
      KnownGrows(c, v, w, l);
      if Val(c, v, l) != 0 {
        KnownGrows(c, v, w, r);
      }
    case Or(l, r) =>
      KnownGrows(c, v, w, l);
      if Val(c, v, l) != 2 {
        KnownGrows(c, v, w, r);
      }
    case Not(x) => KnownGrows(c, v, w, x);
    case Rel(op, a, b) => assert a in Items(e) && b in Items(e);
  }

  ghost function ItemsAll(ps: seq<Expr>): set<Symbol> {
    if ps == [] then {} else ItemsAll(ps[..|ps| - 1]) + Items(ps[|ps| - 1])
  }

  ghost function ItemsDefaults(ds: seq<(Expr, Expr)>): set<Symbol> {
    if ds == [] then {} else Items(ds[0].0) + Items(ds[0].1) + ItemsDefaults(ds[1..])
  }

  /** The symbols in a definition's properties. */
  ghost function Mentions(d: Def): set<Symbol> {
    ItemsAll(d.prompts) + ItemsDefaults(d.defaults) + Items(d.rev) + Items(d.weak) + Items(d.direct)
  }

  /** Everything a symbol's value may depend on: a tristate also depends on MODULES. */
  ghost function DepsOf(d: Def): set<Symbol> {
    Mentions(d) + if d.kind == TristateSym then {MODULES} else {}
  }

  lemma {:induction false} VisGrows(c: Config, v: Values, w: Values, ps: seq<Expr>)
    requires KnownAll(c, v, ps) && Extends(v, w, ItemsAll(ps))
    ensures KnownAll(c, w, ps) && VisMax(c, w, ps) == VisMax(c, v, ps)
  {
    if ps != [] {
      var last, init := ps[|ps| - 1], ps[..|ps| - 1];
      VisGrows(c, v, w, init);
      assert last in ps;
      KnownGrows(c, v, w, last);
      assert ps == init + [last];
    }
  }

  lemma {:induction false} DefaultGrows(c: Config, v: Values, w: Values, ds: seq<(Expr, Expr)>)
    requires KnownDefault(c, v, ds) && Extends(v, w, ItemsDefaults(ds))
    ensures KnownDefault(c, w, ds) && DefaultOf(c, w, ds) == DefaultOf(c, v, ds)
  {
    if ds != [] {
      KnownGrows(c, v, w, ds[0].1);
      if Val(c, v, ds[0].1) != 0 {
        KnownGrows(c, v, w, ds[0].0);
      } else {
        DefaultGrows(c, v, w, ds[1..]);
      }
    }
  }

  lemma BaseGrows(c: Config, v: Values, w: Values, d: Def, user: User, vis: Tri)
    requires KnownBase(c, v, d, user, vis) && Extends(v, w, DepsOf(d))
    ensures KnownBase(c, w, d, user, vis) && BaseOf(c, w, d, user, vis) == BaseOf(c, v, d, user, vis)
  {
    if vis == 0 || user.Unset? {
      DefaultGrows(c, v, w, d.defaults);
      KnownGrows(c, v, w, d.weak);
      if Val(c, v, d.weak) != 0 {
        KnownGrows(c, v, w, d.direct);
      }
    }
  }

  lemma TriGrows(c: Config, v: Values, w: Values, d: Def, user: User, vis: Tri)
    requires KnownTri(c, v, d, user, vis) && Extends(v, w, DepsOf(d))
    ensures KnownTri(c, w, d, user, vis) && TriOf(c, w, d, user, vis) == TriOf(c, v, d, user, vis)
  {
    BaseGrows(c, v, w, d, user, vis);
    KnownGrows(c, v, w, d.rev);
    var rev, base := Val(c, v, d.rev), BaseOf(c, v, d, user, vis);
    if (if rev != 0 then Max(rev, base) else base) == 1 && d.kind == TristateSym {
      KnownGrows(c, v, w, MODULES_VALUE);
      if IsTristate(c, v, d) {
        KnownGrows(c, v, w, d.weak);
      }
    }
  }

  lemma VisGrowsDef(c: Config, v: Values, w: Values, d: Def)
    requires KnownVis(c, v, d) && Extends(v, w, DepsOf(d))
    ensures KnownVis(c, w, d) && VisOf(c, w, d) == VisOf(c, v, d)
  {
    VisGrows(c, v, w, d.prompts);
    if VisMax(c, v, d.prompts) == 1 && d.kind == TristateSym {
      KnownGrows(c, v, w, MODULES_VALUE);
    }
  }

  // ---- Evaluation from scratch --------------------------------------------------------------------------------------

  type Ranks = map<Symbol, nat>

  /** Constants are not defined. */
  ghost predicate Plain(c: Config) {
    forall s :: s in c.defs ==> !s.constant
  }

  /** Dependencies lead to lower ranks. */
  ghost predicate Acyclic(c: Config, rank: Ranks) {
    && rank.Keys == c.defs.Keys
    && Plain(c)
    && forall s, d :: s in c.defs && d in c.defs && d in DepsOf(c.defs[s]) ==> rank[d] < rank[s]
  }

  function UserOf(user: Values, s: Symbol): User {
    if s in user then Set(user[s]) else Unset
  }

  ghost function Compute(c: Config, vals: Values, user: Values, s: Symbol): Tri
    requires s in c.defs
  {
    TriOf(c, vals, c.defs[s], UserOf(user, s), VisOf(c, vals, c.defs[s]))
  }

  /** Every symbol has the value its definition gives it. */
  ghost predicate Solution(c: Config, user: Values, sol: Values) {
    sol.Keys == c.defs.Keys && forall s :: s in sol ==> sol[s] == Compute(c, sol, user, s)
  }

  /** The values of the symbols of rank below `k`, computed from the bottom up. */
  ghost function Solve(c: Config, rank: Ranks, user: Values, k: nat): Values
    requires Acyclic(c, rank)
  {
    if k == 0 then map[]
    else
      var low := Solve(c, rank, user, k - 1);
      map s | s in c.defs.Keys && rank[s] < k :: if s in low then low[s] else Compute(c, low, user, s)
  }

  lemma {:induction false} SolveKeys(c: Config, rank: Ranks, user: Values, k: nat)
    requires Acyclic(c, rank)
    ensures forall s :: s in Solve(c, rank, user, k) <==> s in c.defs && rank[s] < k
  {
    if k > 0 {
      SolveKeys(c, rank, user, k - 1);
    }
  }

  /** With all dependencies present everything is known. */
  lemma {:induction false} KnownWhenPresent(c: Config, vals: Values, e: Expr)
    requires forall d :: d in Items(e) && d in c.defs ==> d in vals
    ensures Known(c, vals, e)
  {
    match e
    case And(l, r) =>
      KnownWhenPresent(c, vals, l);
      KnownWhenPresent(c, vals, r);
    case Or(l, r) =>
      KnownWhenPresent(c, vals, l);
      KnownWhenPresent(c, vals, r);
    case Not(x) => KnownWhenPresent(c, vals, x);
    case _ =>
  }

  lemma {:induction false} AllKnownWhenPresent(c: Config, vals: Values, ps: seq<Expr>)
    requires forall d :: d in ItemsAll(ps) && d in c.defs ==> d in vals
    ensures KnownAll(c, vals, ps)
  {
    if ps != [] {
      var last, init := ps[|ps| - 1], ps[..|ps| - 1];
      AllKnownWhenPresent(c, vals, init);
      KnownWhenPresent(c, vals, last);
      assert ps == init + [last];
    }
  }

  lemma {:induction false} DefaultKnownWhenPresent(c: Config, vals: Values, ds: seq<(Expr, Expr)>)
    requires forall d :: d in ItemsDefaults(ds) && d in c.defs ==> d in vals
    ensures KnownDefault(c, vals, ds)
  {
    if ds != [] {
      KnownWhenPresent(c, vals, ds[0].0);
      KnownWhenPresent(c, vals, ds[0].1);
      DefaultKnownWhenPresent(c, vals, ds[1..]);
    }
  }

  /** The computation depends only on the dependencies' values. */
  lemma ComputeGrows(c: Config, v: Values, w: Values, user: Values, s: Symbol)
    requires s in c.defs && Extends(v, w, DepsOf(c.defs[s]))
    requires forall d :: d in DepsOf(c.defs[s]) && d in c.defs ==> d in v
    ensures Compute(c, v, user, s) == Compute(c, w, user, s)
  {
    hide Known;
    var d := c.defs[s];
    AllKnownWhenPresent(c, v, d.prompts);
    DefaultKnownWhenPresent(c, v, d.defaults);
    KnownWhenPresent(c, v, d.weak);
    KnownWhenPresent(c, v, d.direct);
    KnownWhenPresent(c, v, d.rev);
    if d.kind == TristateSym {
      KnownWhenPresent(c, v, MODULES_VALUE);
    }
    VisGrowsDef(c, v, w, d);
    TriGrows(c, v, w, d, UserOf(user, s), VisOf(c, v, d));
  }

  lemma SolveStep(c: Config, rank: Ranks, user: Values, k: nat, low: Values, m: Values, s: Symbol)
    requires Acyclic(c, rank) && s in c.defs && rank[s] < k
    requires forall t :: t in low <==> t in c.defs && rank[t] < k - 1
    requires forall t :: t in low ==> t in m && m[t] == low[t]
    requires s in m && m[s] == if s in low then low[s] else Compute(c, low, user, s)
    requires s in low ==> low[s] == Compute(c, low, user, s)
    ensures m[s] == Compute(c, m, user, s)
  {
    hide Compute;
    hide DepsOf;
    ComputeGrows(c, low, m, user, s);
  }

  lemma SolveAt(c: Config, rank: Ranks, user: Values, k: nat, s: Symbol)
    requires Acyclic(c, rank) && k > 0 && s in c.defs && rank[s] < k
    ensures var low, m := Solve(c, rank, user, k - 1), Solve(c, rank, user, k);
      s in m && m[s] == if s in low then low[s] else Compute(c, low, user, s)
  {
    hide Compute;
    hide DepsOf;
  }

  lemma {:induction false} SolveSolves(c: Config, rank: Ranks, user: Values, k: nat, s: Symbol)
    requires Acyclic(c, rank) && s in c.defs && rank[s] < k
    ensures var m := Solve(c, rank, user, k); s in m && m[s] == Compute(c, m, user, s)
  {
    hide Compute;
    hide Solve;
    hide DepsOf;
    var low, m := Solve(c, rank, user, k - 1), Solve(c, rank, user, k);
    SolveKeys(c, rank, user, k - 1);
    forall t | t in low ensures t in m && m[t] == low[t] {
      SolveAt(c, rank, user, k, t);
    }
    SolveAt(c, rank, user, k, s);
    if s in low {
      SolveSolves(c, rank, user, k - 1, s);
    }
    SolveStep(c, rank, user, k, low, m, s);
  }

  ghost function Top(ks: set<Symbol>, rank: Ranks): (k: nat)
    requires ks <= rank.Keys
    ensures forall s <- ks :: rank[s] < k
  {
    if ks == {} then 0
    else
      var s :| s in ks;
      var k := Top(ks - {s}, rank);
      assert forall t <- ks :: t == s || t in ks - {s};
      if rank[s] < k then k else rank[s] + 1
  }

  /** The value of every symbol, computed without any cache. */
  ghost function Fresh(c: Config, rank: Ranks, user: Values): Values
    requires Acyclic(c, rank)
  {
    Solve(c, rank, user, Top(c.defs.Keys, rank))
  }

  lemma FreshSolves(c: Config, rank: Ranks, user: Values)
    requires Acyclic(c, rank)
    ensures Solution(c, user, Fresh(c, rank, user))
  {
    hide Compute;
    hide DepsOf;
    var k := Top(c.defs.Keys, rank);
    SolveKeys(c, rank, user, k);
    assert Fresh(c, rank, user).Keys == c.defs.Keys;
    forall s | s in c.defs ensures Fresh(c, rank, user)[s] == Compute(c, Fresh(c, rank, user), user, s) {
      SolveSolves(c, rank, user, k, s);
    }
  }

  // ---- What the values of a solution are ---------------------------------------------------------------------------------

  /** The default that counts is the first one whose condition is met. */
  ghost predicate Counts(c: Config, vals: Values, ds: seq<(Expr, Expr)>, i: int) {
    0 <= i < |ds| && Val(c, vals, ds[i].1) != 0 && forall j :: 0 <= j < i ==> Val(c, vals, ds[j].1) == 0
  }

  /** The symbol can be set, and is: then defaults and implies do not matter. */
  ghost predicate UserDecides(c: Config, vals: Values, user: Values, s: Symbol)
    requires s in c.defs
  {
    s in user && VisOf(c, vals, c.defs[s]) != 0
  }

  /** `m` is a value of this symbol: it is a tristate, and no imply asks for y. */
  ghost predicate TakesM(c: Config, vals: Values, d: Def) {
    IsTristate(c, vals, d) && Val(c, vals, d.weak) != 2
  }

  /** A value that meets all demands on a symbol: its selects; the user's value as far as the symbol is visible, or without
      one the default that counts and, if the dependencies are met, the implies; and `m` only where that is allowed. */
  ghost predicate Meets(c: Config, vals: Values, user: Values, s: Symbol, x: Tri)
    requires s in c.defs
  {
    var d := c.defs[s];
    && Val(c, vals, d.rev) <= x
    && (UserDecides(c, vals, user, s) ==> user[s] <= x || VisOf(c, vals, d) <= x)
    && (!UserDecides(c, vals, user, s) ==>
          && (Val(c, vals, d.direct) != 0 ==> Val(c, vals, d.weak) <= x)
          && forall i :: Counts(c, vals, d.defaults, i) ==> Val(c, vals, d.defaults[i].0) <= x || Val(c, vals, d.defaults[i].1) <= x)
    && (x == 1 ==> TakesM(c, vals, d))
  }

  /** Every symbol has the least value that meets the demands on it. */
  ghost predicate Least(c: Config, user: Values, sol: Values) {
    && sol.Keys == c.defs.Keys
    && forall s :: s in c.defs ==> Meets(c, sol, user, s, sol[s]) && forall x: Tri :: Meets(c, sol, user, s, x) ==> sol[s] <= x
  }

  /** The solutions are exactly the assignments of least values. */
  lemma SolutionIsLeast(c: Config, user: Values, sol: Values)
    ensures Solution(c, user, sol) <==> Least(c, user, sol)
  {
    hide Meets;
    hide Compute;
    forall s | s in c.defs
      ensures Meets(c, sol, user, s, Compute(c, sol, user, s))
      ensures forall x: Tri :: Meets(c, sol, user, s, x) ==> Compute(c, sol, user, s) <= x
    {
      ComputeMeets(c, sol, user, s);
    }
  }

  lemma ComputeMeets(c: Config, vals: Values, user: Values, s: Symbol)
    requires s in c.defs
    ensures Meets(c, vals, user, s, Compute(c, vals, user, s))
    ensures forall x: Tri :: Meets(c, vals, user, s, x) ==> Compute(c, vals, user, s) <= x
  {
    hide Val;
    hide VisOf;
    hide DefaultOf;
    hide Counts;
    DefaultMeets(c, vals, c.defs[s].defaults);
  }

  /** The value of the defaults is that of the one that counts, and n without one. */
  lemma {:induction false} DefaultMeets(c: Config, vals: Values, ds: seq<(Expr, Expr)>)
    ensures forall i :: Counts(c, vals, ds, i) ==> DefaultOf(c, vals, ds) == Min(Val(c, vals, ds[i].0), Val(c, vals, ds[i].1))
    ensures DefaultOf(c, vals, ds) != 0 ==> exists i :: Counts(c, vals, ds, i)
  {
    hide Val;
    if ds != [] {
      if Val(c, vals, ds[0].1) != 0 {
        assert Counts(c, vals, ds, 0);
      } else {
        DefaultMeets(c, vals, ds[1..]);
        forall i | Counts(c, vals, ds, i)
          ensures DefaultOf(c, vals, ds) == Min(Val(c, vals, ds[i].0), Val(c, vals, ds[i].1))
        {
          assert i > 0 && Counts(c, vals, ds[1..], i - 1);
        }
        if DefaultOf(c, vals, ds) != 0 {
          var i :| Counts(c, vals, ds[1..], i);
          assert Counts(c, vals, ds, i + 1);
        }
      }
    }
  }

  /** The visibility is the greatest value of a prompt condition, where `m` becomes y unless the symbol is a tristate. */
  lemma {:induction false} VisibilityIsGreatest(c: Config, vals: Values, d: Def)
    ensures var v := VisOf(c, vals, d);
      && (forall i :: 0 <= i < |d.prompts| ==> Val(c, vals, d.prompts[i]) <= v)
      && (v == 1 ==> IsTristate(c, vals, d))
      && (v != 0 ==> exists i :: 0 <= i < |d.prompts| && 0 < Val(c, vals, d.prompts[i]) && (Val(c, vals, d.prompts[i]) == v || !IsTristate(c, vals, d)))
  {
    hide Val;
    VisMaxIsGreatest(c, vals, d.prompts);
  }

  lemma {:induction false} VisMaxIsGreatest(c: Config, vals: Values, ps: seq<Expr>)
    ensures var v := VisMax(c, vals, ps);
      && (forall i :: 0 <= i < |ps| ==> Val(c, vals, ps[i]) <= v)
      && (v != 0 ==> exists i :: 0 <= i < |ps| && Val(c, vals, ps[i]) == v)
  {
    hide Val;
    if ps != [] {
      var init := ps[..|ps| - 1];
      VisMaxIsGreatest(c, vals, init);
      assert forall i :: 0 <= i < |init| ==> ps[i] == init[i];
      var v := VisMax(c, vals, ps);
      if v != 0 && v != Val(c, vals, ps[|ps| - 1]) {
        var i :| 0 <= i < |init| && Val(c, vals, init[i]) == v;
        assert Val(c, vals, ps[i]) == v;
      }
    }
  }

  /** In every solution: a visible symbol with a user value that nothing selects has that value cut down to its
      visibility, or y where that is an `m` the symbol does not take. */
  lemma UserValueCounts(c: Config, user: Values, sol: Values, s: Symbol)
    requires Solution(c, user, sol) && s in c.defs && s in user
    requires VisOf(c, sol, c.defs[s]) != 0 && Val(c, sol, c.defs[s].rev) == 0
    ensures var x := if user[s] < VisOf(c, sol, c.defs[s]) then user[s] else VisOf(c, sol, c.defs[s]);
      sol[s] == if x == 1 && !TakesM(c, sol, c.defs[s]) then 2 else x
  {
    hide Val;
    hide VisOf;
    hide Counts;
    hide TakesM;
    SolutionIsLeast(c, user, sol);
    hide Solution;
    var v := VisOf(c, sol, c.defs[s]);
    var x: Tri := if user[s] < v then user[s] else v;
    assert Meets(c, sol, user, s, if x == 1 && !TakesM(c, sol, c.defs[s]) then 2 else x);
  }

  /** In every solution a value is not below its selects, a bool is not m, and a symbol that is not visible has the value
      it would have without a user value. */
  lemma ValueBounds(c: Config, user: Values, sol: Values, s: Symbol)
    requires Solution(c, user, sol) && s in c.defs
    ensures Val(c, sol, c.defs[s].rev) <= sol[s]
    ensures c.defs[s].kind == BoolSym ==> sol[s] != 1
    ensures VisOf(c, sol, c.defs[s]) == 0 ==> Solution(c, user - {s}, sol)
  {
    hide Val;
    hide VisOf;
    hide Counts;
    SolutionIsLeast(c, user, sol);
    SolutionIsLeast(c, user - {s}, sol);
    hide Solution;
    if VisOf(c, sol, c.defs[s]) == 0 {
      forall t, x: Tri | t in c.defs ensures Meets(c, sol, user - {s}, t, x) == Meets(c, sol, user, t, x) {
        assert UserDecides(c, sol, user - {s}, t) == UserDecides(c, sol, user, t);
      }
      hide Meets;
      assert Least(c, user - {s}, sol);
    }
  }

  /** What user values were changed to makes no difference to symbols that depend on none of the changed ones. */
  lemma {:induction false} ChangeIsLocal(c: Config, rank: Ranks, user: Values, user': Values, sol: Values, sol': Values,
                                         apart: set<Symbol>, s: Symbol)
    requires Acyclic(c, rank) && Solution(c, user, sol) && Solution(c, user', sol') && s in apart && s in c.defs
    requires forall t :: t in apart ==> UserOf(user, t) == UserOf(user', t)
    requires forall t, d :: t in apart && t in c.defs && d in DepsOf(c.defs[t]) && d in c.defs ==> d in apart
    ensures sol[s] == sol'[s]
    decreases rank[s]
  {
    hide DepsOf;
    forall x | x in DepsOf(c.defs[s]) && x in c.defs ensures sol[x] == sol'[x] {
      ChangeIsLocal(c, rank, user, user', sol, sol', apart, x);
    }
    ComputeGrows(c, sol, sol', user', s);
    hide TriOf;
    hide VisOf;
  }

  /** A new user value of `s` leaves the symbols that `s` depends on, and so its visibility and selects, as they were. */
  lemma SettingKeeps(c: Config, rank: Ranks, user: Values, s: Symbol, n: Tri, sol: Values, sol': Values)
    requires Acyclic(c, rank) && s in c.defs && Solution(c, user, sol) && Solution(c, user[s := n], sol')
    ensures VisOf(c, sol', c.defs[s]) == VisOf(c, sol, c.defs[s]) && Val(c, sol', c.defs[s].rev) == Val(c, sol, c.defs[s].rev)
  {
    hide Compute; hide DepsOf;
    var d, low := c.defs[s], set x | x in c.defs && rank[x] < rank[s];
    forall x | x in DepsOf(d) && x in c.defs ensures sol[x] == sol'[x] {
      ChangeIsLocal(c, rank, user, user[s := n], sol, sol', low, x);
    }
    DefinitionGrows(c, sol, sol', d);
  }

  lemma DefinitionGrows(c: Config, v: Values, w: Values, d: Def)
    requires v.Keys == w.Keys == c.defs.Keys && forall x :: x in DepsOf(d) && x in c.defs ==> v[x] == w[x]
    ensures VisOf(c, w, d) == VisOf(c, v, d) && Val(c, w, d.rev) == Val(c, v, d.rev)
  {
    hide Known; hide Val; hide VisOf;
    AllKnownWhenPresent(c, v, d.prompts);
    KnownWhenPresent(c, v, MODULES_VALUE);
    KnownWhenPresent(c, v, d.rev);
    VisGrowsDef(c, v, w, d);
    KnownGrows(c, v, w, d.rev);
  }

  /** Set, then read: a bool that is visible and that nothing selects has the value it was set to; otherwise the value is
      cut down to the visibility, or raised to the selects. */
  lemma SetIsRead(c: Config, rank: Ranks, user: Values, s: Symbol, n: Tri)
    requires Acyclic(c, rank) && s in c.defs && VisOf(c, Fresh(c, rank, user), c.defs[s]) != 0
    ensures var sol, r := Fresh(c, rank, user), Fresh(c, rank, user[s := n]);
      s in r && ReadsAs(c, sol, c.defs[s], n, r, r[s])
  {
    hide Fresh; hide ReadsAs; hide VisOf;
    FreshSolves(c, rank, user);
    FreshSolves(c, rank, user[s := n]);
    hide Compute;
    SetSolution(c, rank, user, s, n, Fresh(c, rank, user), Fresh(c, rank, user[s := n]));
  }

  /** What a symbol reads as in the values `r` after it was set to `n` in the values `sol`. */
  ghost predicate ReadsAs(c: Config, sol: Values, d: Def, n: Tri, r: Values, x: Tri) {
    && Val(c, sol, d.rev) <= x && (d.kind == BoolSym ==> x != 1)
    && (Val(c, sol, d.rev) == 0 ==>
          x == if Min(n, VisOf(c, sol, d)) == 1 && !TakesM(c, r, d) then 2 else Min(n, VisOf(c, sol, d)))
  }

  lemma SetSolution(c: Config, rank: Ranks, user: Values, s: Symbol, n: Tri, sol: Values, r: Values)
    requires Acyclic(c, rank) && s in c.defs && VisOf(c, sol, c.defs[s]) != 0
    requires Solution(c, user, sol) && Solution(c, user[s := n], r)
    ensures s in r && ReadsAs(c, sol, c.defs[s], n, r, r[s])
  {
    hide Val; hide VisOf; hide TakesM; hide Compute; hide Acyclic;
    SettingKeeps(c, rank, user, s, n, sol, r);
    ValueBounds(c, user[s := n], r, s);
    if Val(c, r, c.defs[s].rev) == 0 {
      UserValueCounts(c, user[s := n], r, s);
    }
  }

  // ---- The caches -------------------------------------------------------------------------------------------------------

  /** What is cached for `s` follows from values cached for what its evaluation reads. A cached value needs a cached
      visibility. */
  ghost predicate Settled(c: Config, user: Values, vis: Values, tri: Values, s: Symbol) {
    && (s in vis ==> s in c.defs && KnownVis(c, tri, c.defs[s]) && vis[s] == VisOf(c, tri, c.defs[s]))
    && (s in tri ==>
          && s in vis && s in c.defs
          && KnownTri(c, tri, c.defs[s], UserOf(user, s), vis[s])
          && tri[s] == TriOf(c, tri, c.defs[s], UserOf(user, s), vis[s]))
  }

  ghost predicate AllSettled(c: Config, user: Values, vis: Values, tri: Values) {
    forall s :: Settled(c, user, vis, tri, s)
  }

  lemma SettledGrows(c: Config, user: Values, vis: Values, tri: Values, tri': Values, s: Symbol)
    requires Settled(c, user, vis, tri, s)
    requires s in c.defs ==> Extends(tri, tri', DepsOf(c.defs[s]))
    requires s in tri' ==> s in tri && tri'[s] == tri[s]
    ensures Settled(c, user, vis, tri', s)
  {
    if s in vis {
      VisGrowsDef(c, tri, tri', c.defs[s]);
    }
    if s in tri {
      TriGrows(c, tri, tri', c.defs[s], UserOf(user, s), vis[s]);
    }
  }

  /** In settled caches every entry is the fresh value, although evaluation skips what it does not need. */
  lemma {:induction false} CachedIsFresh(c: Config, rank: Ranks, user: Values, vis: Values, tri: Values, sol: Values, s: Symbol)
    requires Acyclic(c, rank) && AllSettled(c, user, vis, tri) && Solution(c, user, sol) && s in c.defs
    ensures s in tri ==> tri[s] == sol[s]
    ensures s in vis ==> vis[s] == VisOf(c, sol, c.defs[s])
    decreases rank[s]
  {
    assert Settled(c, user, vis, tri, s);
    var d := c.defs[s];
    if s in vis {
      forall x | x in DepsOf(d) && x in tri ensures x in sol && tri[x] == sol[x] {
        assert Settled(c, user, vis, tri, x);
        CachedIsFresh(c, rank, user, vis, tri, sol, x);
      }
      VisGrowsDef(c, tri, sol, d);
      if s in tri {
        TriGrows(c, tri, sol, d, UserOf(user, s), vis[s]);
      }
    }
  }

  /** There is only one solution. */
  lemma {:induction false} SolutionUnique(c: Config, rank: Ranks, user: Values, sol: Values, sol': Values, s: Symbol)
    requires Acyclic(c, rank) && Solution(c, user, sol) && Solution(c, user, sol') && s in c.defs
    ensures sol[s] == sol'[s]
    decreases rank[s]
  {
    hide Compute;
    hide DepsOf;
    forall x | x in DepsOf(c.defs[s]) && x in c.defs ensures sol[x] == sol'[x] {
      SolutionUnique(c, rank, user, sol, sol', x);
    }
    ComputeGrows(c, sol, sol', user, s);
  }

  // ---- Reading fills the caches -----------------------------------------------------------------------------------------

  /** Entries are only added, and values only for symbols of rank below `k`. */
  ghost predicate Grown(vis0: Values, tri0: Values, vis: Values, tri: Values, rank: Ranks, k: int) {
    && (forall s :: s in vis0 ==> s in vis && vis[s] == vis0[s])
    && (forall s :: s in tri0 ==> s in tri && tri[s] == tri0[s])
    && (forall s :: s in tri && s !in tri0 ==> s in rank && rank[s] < k)
  }

  /** The first `i` defaults do not apply. */
  ghost predicate Skipped(c: Config, vals: Values, ds: seq<(Expr, Expr)>, i: nat)
    requires i <= |ds|
  {
    forall j :: 0 <= j < i ==> Known(c, vals, ds[j].1) && Val(c, vals, ds[j].1) == 0
  }

  lemma SkippedNone(c: Config, vals: Values, ds: seq<(Expr, Expr)>)
    ensures Skipped(c, vals, ds, 0)
  {
  }

  lemma SkippedMore(c: Config, vals: Values, ds: seq<(Expr, Expr)>, i: nat)
    requires i < |ds| && Skipped(c, vals, ds, i) && Known(c, vals, ds[i].1) && Val(c, vals, ds[i].1) == 0
    ensures Skipped(c, vals, ds, i + 1)
  {
  }

  lemma KnownNone(c: Config, vals: Values)
    ensures KnownAll(c, vals, [])
  {
  }

  lemma KnownMore(c: Config, vals: Values, ps: seq<Expr>, i: nat)
    requires i < |ps| && KnownAll(c, vals, ps[..i]) && Known(c, vals, ps[i])
    ensures KnownAll(c, vals, ps[..i + 1])
    ensures VisMax(c, vals, ps[..i + 1]) == Max(VisMax(c, vals, ps[..i]), Val(c, vals, ps[i]))
  {
    assert ps[..i + 1] == ps[..i] + [ps[i]];
  }

  lemma SkippedGrows(c: Config, v: Values, w: Values, ds: seq<(Expr, Expr)>, i: nat)
    requires i <= |ds| && Skipped(c, v, ds, i) && forall s :: s in v ==> s in w && w[s] == v[s]
    ensures Skipped(c, w, ds, i)
  {
    hide Known;
    hide Val;
    forall j | 0 <= j < i ensures Known(c, w, ds[j].1) && Val(c, w, ds[j].1) == 0 {
      KnownGrows(c, v, w, ds[j].1);
    }
  }

  lemma {:induction false} SkippedDefault(c: Config, vals: Values, ds: seq<(Expr, Expr)>, i: nat)
    requires i <= |ds| && Skipped(c, vals, ds, i)
    ensures KnownDefault(c, vals, ds) == KnownDefault(c, vals, ds[i..])
    ensures DefaultOf(c, vals, ds) == DefaultOf(c, vals, ds[i..])
  {
    if i > 0 {
      SkippedDefault(c, vals, ds[1..], i - 1);
      assert ds[1..][i - 1..] == ds[i..];
    } else {
      assert ds[0..] == ds;
    }
  }

  lemma {:induction false} ItemsAllHas(ps: seq<Expr>, i: nat)
    requires i < |ps|
    ensures Items(ps[i]) <= ItemsAll(ps)
  {
    if i < |ps| - 1 {
      ItemsAllHas(ps[..|ps| - 1], i);
    }
  }

  lemma {:induction false} ItemsDefaultsHas(ds: seq<(Expr, Expr)>, i: nat)
    requires i < |ds|
    ensures Items(ds[i].0) + Items(ds[i].1) <= ItemsDefaults(ds)
  {
    if i > 0 {
      ItemsDefaultsHas(ds[1..], i - 1);
    }
  }

  /** All defined symbols of an expression have rank below `k`. */
  ghost predicate Below(c: Config, rank: Ranks, e: Expr, k: int) {
    forall d :: d in Items(e) && d in c.defs ==> d in rank && rank[d] < k
  }

  lemma DepsBelow(c: Config, rank: Ranks, s: Symbol)
    requires Acyclic(c, rank) && s in c.defs
    ensures var d := c.defs[s];
      && Below(c, rank, d.weak, rank[s]) && Below(c, rank, d.rev, rank[s]) && Below(c, rank, d.direct, rank[s])
      && (d.kind == TristateSym ==> Below(c, rank, MODULES_VALUE, rank[s]))
      && (forall x :: x in ItemsAll(d.prompts) && x in c.defs ==> x in rank && rank[x] < rank[s])
      && (forall x :: x in ItemsDefaults(d.defaults) && x in c.defs ==> x in rank && rank[x] < rank[s])
  {
    assert forall x :: x in DepsOf(c.defs[s]) && x in c.defs ==> rank[x] < rank[s];
  }

  /** Storing a computed value. */
  lemma StoreSettles(c: Config, rank: Ranks, user: Values, vis: Values, tri: Values, s: Symbol, r: Tri)
    requires Acyclic(c, rank) && AllSettled(c, user, vis, tri) && s in c.defs && s in vis && s !in tri
    requires KnownTri(c, tri, c.defs[s], UserOf(user, s), vis[s]) && r == TriOf(c, tri, c.defs[s], UserOf(user, s), vis[s])
    ensures AllSettled(c, user, vis, tri[s := r])
  {
    hide KnownTri;
    hide TriOf;
    hide VisOf;
    hide KnownVis;
    hide DepsOf;
    var tri' := tri[s := r];
    forall t ensures Settled(c, user, vis, tri', t) {
      assert Settled(c, user, vis, tri, t);
      if t != s {
        SettledGrows(c, user, vis, tri, tri', t);
      } else {
        VisGrowsDef(c, tri, tri', c.defs[s]);
        TriGrows(c, tri, tri', c.defs[s], UserOf(user, s), vis[s]);
      }
    }
  }

  lemma VisStoreSettles(c: Config, user: Values, vis: Values, tri: Values, s: Symbol, v: Tri)
    requires AllSettled(c, user, vis, tri) && s in c.defs
    requires KnownVis(c, tri, c.defs[s]) && v == VisOf(c, tri, c.defs[s])
    ensures AllSettled(c, user, vis[s := v], tri)
  {
    var vis' := vis[s := v];
    forall t ensures Settled(c, user, vis', tri, t) {
      assert Settled(c, user, vis, tri, t);
    }
  }

  /** The invariant of the caches. */
  ghost predicate Good(c: Config, rank: Ranks, user: Values, vis: Values, tri: Values, text: map<Symbol, string>,
                       dependents: map<Symbol, set<Symbol>>) {
    Acyclic(c, rank) && AllSettled(c, user, vis, tri) && TextOk(text, tri) && DependentsOk(c, dependents)
  }

  ghost predicate DepsLow(c: Config, rank: Ranks, d: Def, k: int) {
    && Below(c, rank, d.weak, k) && Below(c, rank, d.rev, k) && Below(c, rank, d.direct, k)
    && (d.kind == TristateSym ==> Below(c, rank, MODULES_VALUE, k))
    && (forall i :: 0 <= i < |d.prompts| ==> Below(c, rank, d.prompts[i], k))
    && (forall i :: 0 <= i < |d.defaults| ==> Below(c, rank, d.defaults[i].0, k) && Below(c, rank, d.defaults[i].1, k))
  }

  lemma GoodDeps(c: Config, rank: Ranks, user: Values, vis: Values, tri: Values, text: map<Symbol, string>,
                 dependents: map<Symbol, set<Symbol>>, s: Symbol)
    requires Good(c, rank, user, vis, tri, text, dependents) && s in c.defs
    ensures s in rank && DepsLow(c, rank, c.defs[s], rank[s])
  {
    var d := c.defs[s];
    DepsBelow(c, rank, s);
    forall i | 0 <= i < |d.prompts| ensures Below(c, rank, d.prompts[i], rank[s]) {
      ItemsAllHas(d.prompts, i);
    }
    forall i | 0 <= i < |d.defaults|
      ensures Below(c, rank, d.defaults[i].0, rank[s]) && Below(c, rank, d.defaults[i].1, rank[s])
    {
      ItemsDefaultsHas(d.defaults, i);
    }
  }

  /** Two evaluations in a row. */
  lemma GrownTwice(vis0: Values, tri0: Values, vis1: Values, tri1: Values, vis2: Values, tri2: Values, rank: Ranks, k: int)
    requires Grown(vis0, tri0, vis1, tri1, rank, k) && Grown(vis1, tri1, vis2, tri2, rank, k)
    ensures Grown(vis0, tri0, vis2, tri2, rank, k)
    ensures forall items: set<Symbol> :: Extends(tri1, tri2, items)
  {
  }

  lemma GoodText(c: Config, rank: Ranks, user: Values, vis: Values, tri: Values, text: map<Symbol, string>,
                 dependents: map<Symbol, set<Symbol>>, s: Symbol)
    requires Good(c, rank, user, vis, tri, text, dependents)
    ensures s in text ==> s in tri && text[s] == TriText(tri[s])
    ensures s in tri ==> Good(c, rank, user, vis, tri, text[s := TriText(tri[s])], dependents)
  {
  }

  lemma GoodStore(c: Config, rank: Ranks, user: Values, vis: Values, tri: Values, text: map<Symbol, string>,
                  dependents: map<Symbol, set<Symbol>>, s: Symbol, r: Tri)
    requires Good(c, rank, user, vis, tri, text, dependents) && s in c.defs && s in vis && s !in tri
    requires KnownTri(c, tri, c.defs[s], UserOf(user, s), vis[s]) && r == TriOf(c, tri, c.defs[s], UserOf(user, s), vis[s])
    ensures Good(c, rank, user, vis, tri[s := r], text, dependents)
  {
    hide AllSettled;
    StoreSettles(c, rank, user, vis, tri, s, r);
  }

  lemma GoodVisStore(c: Config, rank: Ranks, user: Values, vis: Values, tri: Values, text: map<Symbol, string>,
                     dependents: map<Symbol, set<Symbol>>, s: Symbol, v: Tri)
    requires Good(c, rank, user, vis, tri, text, dependents) && s in c.defs
    requires KnownVis(c, tri, c.defs[s]) && v == VisOf(c, tri, c.defs[s])
    ensures Good(c, rank, user, vis[s := v], tri, text, dependents)
  {
    VisStoreSettles(c, user, vis, tri, s, v);
  }

  class Evaluator {
    const c: Config
    ghost const rank: Ranks
    var user: Values
    var vis: Values
    var tri: Values
    var text: map<Symbol, string>
    var dependents: map<Symbol, set<Symbol>>

    ghost predicate Valid()
      reads this
    {
      rank.Keys == c.defs.Keys && Good(c, rank, user, vis, tri, text, dependents) && Typed(c, user)
    }

    /** Any cached value is what an evaluation without caches gives. */
    lemma Coherent(s: Symbol)
      requires Valid() && s in c.defs
      ensures s in tri ==> tri[s] == Fresh(c, rank, user)[s]
      ensures s in vis ==> vis[s] == VisOf(c, Fresh(c, rank, user), c.defs[s])
      ensures s in text ==> text[s] == TriText(Fresh(c, rank, user)[s])
    {
      FreshSolves(c, rank, user);
      CachedIsFresh(c, rank, user, vis, tri, Fresh(c, rank, user), s);
    }

    /** Nothing cached and no user values, with the dependents worked out from the properties. */
    constructor (c: Config, ghost rank: Ranks)
      requires Acyclic(c, rank)
      ensures Valid() && this.c == c && this.rank == rank && user == map[] && vis == map[] && tri == map[]
    {
      this.c, this.rank := c, rank;
      user, vis, tri, text, dependents := map[], map[], map[], map[], map[];
      new;
      BuildDep();
    }

    method MakeDependOn(s: Symbol, e: Expr)
      modifies `dependents
      ensures Added(old(dependents), dependents, s, Items(e))
      decreases e
    {
      match e {
        case Sym(x) => Mention(s, x);
        case And(x, y) =>
          MakeDependOn(s, x);
          MakeDependOn(s, y);
        case Or(x, y) =>
          MakeDependOn(s, x);
          MakeDependOn(s, y);
        case Not(x) => MakeDependOn(s, x);
        case Rel(op, x, y) =>
          Mention(s, x);
          Mention(s, y);
      }
    }

    method Mention(s: Symbol, x: Symbol)
      modifies `dependents
      ensures Added(old(dependents), dependents, s, {x})
    {
      if !x.constant {
        dependents := dependents[x := DependentsIn(dependents, x) + {s}];
      }
    }

    method BuildSymbol(s: Symbol)
      requires s in c.defs
      modifies `dependents
      ensures Added(old(dependents), dependents, s, Mentions(c.defs[s]))
    {
      var d := c.defs[s];
      ghost var start := dependents;
      var i := 0;
      while i < |d.prompts|
        invariant 0 <= i <= |d.prompts|
        invariant Added(start, dependents, s, ItemsAll(d.prompts[..i]))
      {
        MakeDependOn(s, d.prompts[i]);
        i := i + 1;
        assert d.prompts[..i][..i - 1] == d.prompts[..i - 1];
      }
      assert d.prompts[..i] == d.prompts;
      i := 0;
      while i < |d.defaults|
        invariant 0 <= i <= |d.defaults|
        invariant Added(start, dependents, s, ItemsAll(d.prompts) + ItemsDefaults(d.defaults[..i]))
      {
        MakeDependOn(s, d.defaults[i].0);
        MakeDependOn(s, d.defaults[i].1);
        ItemsDefaultsMore(d.defaults, i);
        i := i + 1;
      }
      assert d.defaults[..i] == d.defaults;
      MakeDependOn(s, d.rev);
      MakeDependOn(s, d.weak);
      MakeDependOn(s, d.direct);
    }

    method BuildDep()
      requires dependents == map[]
      modifies `dependents
      ensures DependentsOk(c, dependents)
    {
      hide Mentions;
      hide Added;
      hide Built;
      hide DependentsOk;
      BuiltNone(c);
      var rest := c.defs.Keys;
      while rest != {}
        invariant rest <= c.defs.Keys && Built(c, dependents, rest)
      {
        var s :| s in rest;
        ghost var before := dependents;
        BuildSymbol(s);
        BuiltMore(c, before, dependents, rest, s);
        rest := rest - {s};
      }
      BuiltAll(c, dependents);
    }

    method ExprValue(e: Expr, ghost k: nat) returns (r: Tri)
      requires Valid() && Below(c, rank, e, k)
      modifies `vis, `tri, `text
      ensures Valid() && Grown(old(vis), old(tri), vis, tri, rank, k)
      ensures Known(c, tri, e) && r == Val(c, tri, e)
      decreases k, 1, e
    {
      hide Good;
      match e
      case Sym(s) =>
        r := SymValue(s, k);
      case And(x, y) =>
        var v := ExprValue(x, k);
        if v == 0 {
          return 0;
        }
        ghost var tri0 := tri;
        var w := ExprValue(y, k);
        KnownGrows(c, tri0, tri, x);
        r := Min(v, w);
      case Or(x, y) =>
        var v := ExprValue(x, k);
        if v == 2 {
          return 2;
        }
        ghost var tri0 := tri;
        var w := ExprValue(y, k);
        KnownGrows(c, tri0, tri, x);
        r := Max(v, w);
      case Not(x) =>
        var v := ExprValue(x, k);
        r := 2 - v;
      case Rel(op, a, b) =>
        var comp := CompareSymbols(a, b, k);
        r := match op
          case Equal => if comp == 0 then 2 else 0
          case Unequal => if comp != 0 then 2 else 0
          case Less => if comp < 0 then 2 else 0
          case LessEqual => if comp <= 0 then 2 else 0
          case Greater => if comp > 0 then 2 else 0
          case GreaterEqual => if comp >= 0 then 2 else 0;
    }

    method SymValue(s: Symbol, ghost k: nat) returns (r: Tri)
      requires Valid() && (s in c.defs ==> rank[s] < k)
      modifies `vis, `tri, `text
      ensures Valid() && Grown(old(vis), old(tri), vis, tri, rank, k)
      ensures (s in c.defs ==> s in tri) && r == TriIn(c, tri, s)
      decreases k, 0
    {
      hide Good;
      if s in c.defs {
        r := TriValue(s);
      } else {
        r := FixedTri(s);
      }
    }

    method TriValue(s: Symbol) returns (r: Tri)
      requires Valid() && s in c.defs
      modifies `vis, `tri, `text
      ensures Valid() && Grown(old(vis), old(tri), vis, tri, rank, rank[s] + 1)
      ensures s in tri && r == tri[s]
      decreases rank[s], 3
    {
      hide Good;
      hide KnownTri;
      hide TriOf;
      if s in tri {
        return tri[s];
      }
      var v := Visibility(s);
      r := ValueFor(s, v);
      GoodStore(c, rank, user, vis, tri, text, dependents, s, r);
      tri := tri[s := r];
    }

    /** The value of a symbol with visibility `v`. */
    method ValueFor(s: Symbol, v: Tri) returns (r: Tri)
      requires Valid() && s in c.defs
      modifies `vis, `tri, `text
      ensures Valid() && Grown(old(vis), old(tri), vis, tri, rank, rank[s])
      ensures KnownTri(c, tri, c.defs[s], UserOf(user, s), v) && r == TriOf(c, tri, c.defs[s], UserOf(user, s), v)
      decreases rank[s], 2, 2
    {
      hide Good;
      hide Grown;
      hide Extends;
      hide Known;
      hide Val;
      hide KnownBase;
      hide BaseOf;
      hide UserOf;
      GoodDeps(c, rank, user, vis, tri, text, dependents, s);
      var d := c.defs[s];
      ghost var k, u := rank[s], UserOf(user, s);
      ghost var vis0, tri0 := vis, tri;
      var base := BaseValue(s, v);
      ghost var vis1, tri1 := vis, tri;
      var rev := ExprValue(d.rev, k);
      GrownTwice(vis0, tri0, vis1, tri1, vis, tri, rank, k);
      BaseGrows(c, tri1, tri, d, u, v);
      r := base;
      if rev != 0 {
        vis1, tri1 := vis, tri;
        var met := ExprValue(d.direct, k); // compared with `rev` for a warning
        GrownTwice(vis0, tri0, vis1, tri1, vis, tri, rank, k);
        BaseGrows(c, tri1, tri, d, u, v);
        KnownGrows(c, tri1, tri, d.rev);
        r := Max(rev, base);
      }
      if r == 1 {
        var modules := 0;
        if d.kind == TristateSym {
          vis1, tri1 := vis, tri;
          modules := ExprValue(MODULES_VALUE, k);
          GrownTwice(vis0, tri0, vis1, tri1, vis, tri, rank, k);
          BaseGrows(c, tri1, tri, d, u, v);
          KnownGrows(c, tri1, tri, d.rev);
        }
        if modules == 0 {
          r := 2;
        } else {
          vis1, tri1 := vis, tri;
          var weak := ExprValue(d.weak, k);
          GrownTwice(vis0, tri0, vis1, tri1, vis, tri, rank, k);
          BaseGrows(c, tri1, tri, d, u, v);
          KnownGrows(c, tri1, tri, d.rev);
          KnownGrows(c, tri1, tri, MODULES_VALUE);
          if weak == 2 {
            r := 2;
          }
        }
      }
    }

    /** The part of the value that comes from the user, the defaults and the implies. */
    method BaseValue(s: Symbol, v: Tri) returns (r: Tri)
      requires Valid() && s in c.defs
      modifies `vis, `tri, `text
      ensures Valid() && Grown(old(vis), old(tri), vis, tri, rank, rank[s])
      ensures KnownBase(c, tri, c.defs[s], UserOf(user, s), v)
      ensures r == BaseOf(c, tri, c.defs[s], UserOf(user, s), v)
      decreases rank[s], 2, 1
    {
      hide Good;
      hide Extends;
      hide Known;
      hide Val;
      hide KnownDefault;
      hide DefaultOf;
      if v != 0 && s in user {
        return Min(user[s], v);
      }
      hide Grown;
      GoodDeps(c, rank, user, vis, tri, text, dependents, s);
      var d := c.defs[s];
      ghost var k, vis0, tri0 := rank[s], vis, tri;
      r := DefaultValue(s);
      ghost var vis1, tri1 := vis, tri;
      var weak := ExprValue(d.weak, k);
      GrownTwice(vis0, tri0, vis1, tri1, vis, tri, rank, k);
      DefaultGrows(c, tri1, tri, d.defaults);
      if weak != 0 {
        vis1, tri1 := vis, tri;
        var direct := ExprValue(d.direct, k);
        GrownTwice(vis0, tri0, vis1, tri1, vis, tri, rank, k);
        DefaultGrows(c, tri1, tri, d.defaults);
        KnownGrows(c, tri1, tri, d.weak);
        if direct != 0 {
          r := Max(weak, r);
        }
      }
    }

    method DefaultValue(s: Symbol) returns (r: Tri)
      requires Valid() && s in c.defs
      modifies `vis, `tri, `text
      ensures Valid() && Grown(old(vis), old(tri), vis, tri, rank, rank[s])
      ensures KnownDefault(c, tri, c.defs[s].defaults) && r == DefaultOf(c, tri, c.defs[s].defaults)
      decreases rank[s], 2, 0
    {
      hide Good;
      hide Known;
      hide Val;
      hide Skipped;
      hide Extends;
      GoodDeps(c, rank, user, vis, tri, text, dependents, s);
      var ds, i := c.defs[s].defaults, 0;
      ghost var k, vis0, tri0 := rank[s], vis, tri;
      assert Grown(vis0, tri0, vis, tri, rank, k);
      hide Grown;
      SkippedNone(c, tri, ds);
      while i < |ds|
        invariant 0 <= i <= |ds|
        invariant Valid() && Grown(vis0, tri0, vis, tri, rank, k)
        invariant Skipped(c, tri, ds, i)
      {
        ghost var vis1, tri1 := vis, tri;
        var cond := ExprValue(ds[i].1, k);
        GrownTwice(vis0, tri0, vis1, tri1, vis, tri, rank, k);
        SkippedGrows(c, tri1, tri, ds, i);
        if cond != 0 {
          vis1, tri1 := vis, tri;
          var x := ExprValue(ds[i].0, k);
          GrownTwice(vis0, tri0, vis1, tri1, vis, tri, rank, k);
          SkippedGrows(c, tri1, tri, ds, i);
          KnownGrows(c, tri1, tri, ds[i].1);
          SkippedDefault(c, tri, ds, i);
          return Min(x, cond);
        }
        SkippedMore(c, tri, ds, i);
        i := i + 1;
      }
      SkippedDefault(c, tri, ds, i);
      return 0;
    }

    method Visibility(s: Symbol) returns (v: Tri)
      requires Valid() && s in c.defs
      modifies `vis, `tri, `text
      ensures Valid() && Grown(old(vis), old(tri), vis, tri, rank, rank[s])
      ensures s in vis && v == vis[s]
      decreases rank[s], 2
    {
      hide Good;
      hide KnownVis;
      if s in vis {
        return vis[s];
      }
      v := VisibilityFor(s);
      GoodVisStore(c, rank, user, vis, tri, text, dependents, s, v);
      vis := vis[s := v];
    }

    method VisibilityFor(s: Symbol) returns (v: Tri)
      requires Valid() && s in c.defs
      modifies `vis, `tri, `text
      ensures Valid() && Grown(old(vis), old(tri), vis, tri, rank, rank[s])
      ensures KnownVis(c, tri, c.defs[s]) && v == VisOf(c, tri, c.defs[s])
      decreases rank[s], 2, 0
    {
      hide Good;
      hide Known;
      hide Val;
      hide KnownAll;
      hide Extends;
      GoodDeps(c, rank, user, vis, tri, text, dependents, s);
      var ps, i := c.defs[s].prompts, 0;
      ghost var k, vis0, tri0 := rank[s], vis, tri;
      assert Grown(vis0, tri0, vis, tri, rank, k);
      hide Grown;
      v := 0;
      KnownNone(c, tri);
      while i < |ps|
        invariant 0 <= i <= |ps|
        invariant Valid() && Grown(vis0, tri0, vis, tri, rank, k)
        invariant KnownAll(c, tri, ps[..i]) && v == VisMax(c, tri, ps[..i])
      {
        ghost var vis1, tri1 := vis, tri;
        var x := ExprValue(ps[i], k);
        GrownTwice(vis0, tri0, vis1, tri1, vis, tri, rank, k);
        VisGrows(c, tri1, tri, ps[..i]);
        KnownMore(c, tri, ps, i);
        v := Max(v, x);
        i := i + 1;
      }
      assert ps[..i] == ps;
      if v == 1 {
        var modules := 0;
        if c.defs[s].kind == TristateSym {
          ghost var vis1, tri1 := vis, tri;
          modules := ExprValue(MODULES_VALUE, k);
          GrownTwice(vis0, tri0, vis1, tri1, vis, tri, rank, k);
          VisGrows(c, tri1, tri, ps);
        }
        if modules == 0 {
          v := 2;
        }
      }
    }

    method CompareSymbols(a: Symbol, b: Symbol, ghost k: nat) returns (comp: int)
      requires Valid() && (a in c.defs ==> rank[a] < k) && (b in c.defs ==> rank[b] < k)
      modifies `vis, `tri, `text
      ensures Valid() && Grown(old(vis), old(tri), vis, tri, rank, k)
      ensures (a in c.defs ==> a in tri) && (b in c.defs ==> b in tri) && comp == Compare(c, tri, a, b)
      decreases k, 0, 2
    {
      hide Good;
      var m := NumberValue(a, k);
      if m.Num? {
        var n := NumberValue(b, k);
        if n.Num? {
          return m.n - n.n;
        }
      }
      var x := TextValue(a, k);
      var y := TextValue(b, k);
      comp := Strcmp(x, y);
    }

    method NumberValue(s: Symbol, ghost k: nat) returns (r: Number)
      requires Valid() && (s in c.defs ==> rank[s] < k)
      modifies `vis, `tri, `text
      ensures Valid() && Grown(old(vis), old(tri), vis, tri, rank, k)
      ensures (s in c.defs ==> s in tri) && r == NumberOf(c, tri, s)
      decreases k, 0, 1
    {
      hide Good;
      if s in c.defs {
        var v := TriValue(s);
        return Num(v);
      }
      return if Tristate(s) then Num(FixedTri(s)) else c.number(s.name);
    }

    method TextValue(s: Symbol, ghost k: nat) returns (r: string)
      requires Valid() && (s in c.defs ==> rank[s] < k)
      modifies `vis, `tri, `text
      ensures Valid() && Grown(old(vis), old(tri), vis, tri, rank, k)
      ensures (s in c.defs ==> s in tri) && r == Text(c, tri, s)
      decreases k, 0, 1
    {
      hide Good;
      if s !in c.defs {
        return s.name;
      }
      if s in text {
        GoodText(c, rank, user, vis, tri, text, dependents, s);
        return text[s];
      }
      var v := TriValue(s);
      GoodText(c, rank, user, vis, tri, text, dependents, s);
      text := text[s := TriText(v)];
      return text[s];
    }

    /** Reading a symbol gives what an evaluation without caches gives. */
    method Read(s: Symbol) returns (r: Tri)
      requires Valid()
      modifies `vis, `tri, `text
      ensures Valid()
      ensures r == TriIn(c, Fresh(c, rank, user), s)
    {
      if s in c.defs {
        r := TriValue(s);
        Coherent(s);
        FreshSolves(c, rank, user);
      } else {
        r := FixedTri(s);
      }
    }

    /** An assignment and a read: what SetIsRead says of the values holds of the cached ones. */
    method SetThenRead(s: Symbol, value: Entry) returns (ok: bool, r: Tri)
      requires Valid() && s in c.defs
      modifies `user, `vis, `tri, `text
      ensures Valid()
      ensures r == TriIn(c, Fresh(c, rank, user), s)
      ensures ok && c.defs[s].kind == BoolSym && Unforced(c, Fresh(c, rank, old(user)), c.defs[s]) ==> r == Meant(value)
    {
      hide Unforced; hide Fresh;
      ok := SetValue(s, value);
      r := Read(s);
    }

    /** Drops what is cached for `s` and, where something is cached, for what depends on it. Ends on any graph. */
    method RecInvalidate(s: Symbol)
      requires Plain(c) && !s.constant && s in c.defs
      requires DependentsOk(c, dependents) && TextOk(text, tri) && tri.Keys <= vis.Keys
      modifies `vis, `tri, `text
      ensures TextOk(text, tri) && s !in vis && vis.Keys <= old(vis).Keys
      ensures Kept(c, user, old(vis), old(tri), vis, tri, {})
      decreases |vis.Keys - {s}|
    {
      hide Kept;
      hide DependentsOk;
      ghost var vis0, tri0 := vis, tri;
      if s == MODULES {
        InvalidateAll();
        return;
      }
      vis, tri, text := vis - {s}, tri - {s}, text - {s};
      var rest := DependentsIn(dependents, s);
      ClearKept(c, user, vis0, tri0, dependents, s);
      while rest != {}
        invariant TextOk(text, tri) && s !in vis && vis.Keys <= vis0.Keys
        invariant Kept(c, user, vis0, tri0, vis, tri, rest) && rest <= DependentsIn(dependents, s)
        decreases rest
      {
        var item :| item in rest;
        ghost var vis1, tri1 := vis, tri;
        if item in vis {
          Fewer(vis0.Keys, vis.Keys, s, item);
          KeptKeys(c, user, vis0, tri0, vis, tri, rest);
          DependentDefined(c, dependents, s, item);
          RecInvalidate(item);
          KeptStep(c, user, vis0, tri0, vis1, tri1, vis, tri, rest, item);
        } else {
          KeptSkip(c, user, vis0, tri0, vis, tri, rest, item);
        }
        rest := rest - {item};
      }
    }

    /** `_invalidate_all`: MODULES decides the type of every tristate, without being mentioned anywhere. */
    method InvalidateAll()
      requires TextOk(text, tri) && tri.Keys <= vis.Keys
      modifies `vis, `tri, `text
      ensures TextOk(text, tri) && vis == old(vis) - c.defs.Keys && vis.Keys <= old(vis).Keys
      ensures Kept(c, user, old(vis), old(tri), vis, tri, {})
    {
      var rest := c.defs.Keys;
      while rest != {}
        invariant rest <= c.defs.Keys && vis == old(vis) - (c.defs.Keys - rest) && tri == old(tri) - (c.defs.Keys - rest)
        invariant TextOk(text, tri)
        decreases rest
      {
        var s :| s in rest;
        vis, tri, text := vis - {s}, tri - {s}, text - {s};
        rest := rest - {s};
      }
      AllKept(c, user, old(vis), old(tri));
    }

    /** Only a symbol with a prompt has to be invalidated when its user value changes. */
    method InvalidateIfPrompt(s: Symbol)
      requires rank.Keys == c.defs.Keys && Typed(c, user) && Acyclic(c, rank) && TextOk(text, tri) && DependentsOk(c, dependents) && tri.Keys <= vis.Keys
      requires forall t :: t != s ==> Settled(c, user, vis, tri, t)
      requires s !in c.defs ==> s !in vis
      requires s in c.defs && c.defs[s].prompts == [] ==> Settled(c, user, vis, tri, s)
      modifies `vis, `tri, `text
      ensures Valid()
    {
      hide Settled;
      hide DependentsOk;
      if s in c.defs && |c.defs[s].prompts| > 0 {
        ghost var vis0, tri0 := vis, tri;
        RecInvalidate(s);
        KeptAll(c, user, vis0, tri0, vis, tri, s);
      } else if s !in c.defs {
        NotCachedSettled(c, user, vis, tri, s);
      }
    }

    /** Stores a user value of the right form and drops what it may change. */
    method SetValue(s: Symbol, value: Entry) returns (ok: bool)
      requires Valid()
      modifies `user, `vis, `tri, `text
      ensures Valid()
      ensures ok <==> (value.Count? && s in old(user) && old(user)[s] == value.n) || Accepts(c, s, value)
      ensures s in c.defs ==> (ok <==> 0 <= Meant(value) <= 2 && (c.defs[s].kind == BoolSym ==> Meant(value) != 1))
      ensures ok ==> 0 <= Meant(value) <= 2 && user == old(user)[s := Meant(value)]
      ensures !ok ==> user == old(user)
      ensures ok && s in c.defs && c.defs[s].kind == BoolSym && Unforced(c, Fresh(c, rank, old(user)), c.defs[s]) ==>
        TriIn(c, Fresh(c, rank, user), s) == Meant(value)
    {
      hide Unforced; hide Fresh; hide Settled; hide DependentsOk; hide Acyclic; hide AllSettled; hide TextOk;
      if s in c.defs && c.defs[s].kind == BoolSym && Unforced(c, Fresh(c, rank, user), c.defs[s]) && (Meant(value) == 0 || Meant(value) == 2) {
        SetBoolReads(s, Meant(value));
      }
      if value.Count? && s in user && user[s] == value.n {
        assert user == user[s := value.n];
        return true;
      }
      if !Accepts(c, s, value) {
        return false;
      }
      var v := Meant(value);
      UserChange(c, rank, user, user[s := v], vis, tri, text, dependents, s);
      user := user[s := v];
      InvalidateIfPrompt(s);
      return true;
    }

    lemma SetBoolReads(s: Symbol, n: int)
      requires Valid() && s in c.defs && c.defs[s].kind == BoolSym && Unforced(c, Fresh(c, rank, user), c.defs[s]) && (n == 0 || n == 2)
      ensures TriIn(c, Fresh(c, rank, user[s := n]), s) == n
    {
      hide Fresh; hide Val; hide VisOf;
      SetIsRead(c, rank, user, s, n);
    }

    method UnsetValue(s: Symbol)
      requires Valid()
      modifies `user, `vis, `tri, `text
      ensures Valid()
      ensures user == old(user) - {s}
    {
      if s in user {
        UserChange(c, rank, user, user - {s}, vis, tri, text, dependents, s);
        user := user - {s};
        InvalidateIfPrompt(s);
      }
    }
  }

  /** A symbol that is fully visible and that nothing selects: whoever configures decides. */
  ghost predicate Unforced(c: Config, vals: Values, d: Def) {
    VisOf(c, vals, d) == 2 && Val(c, vals, d.rev) == 0
  }

  /** No bool is set to m. */
  predicate Typed(c: Config, user: Values) {
    forall s :: s in user && s in c.defs && c.defs[s].kind == BoolSym ==> user[s] != 1
  }

  /** A user value is given as a number or as a word. */
  datatype Entry = Count(n: int) | Word(w: string)

  /** STR_TO_TRI; -1 for other words. */
  function Meant(value: Entry): int {
    match value
    case Count(n) => n
    case Word(w) => if w == "n" then 0 else if w == "m" then 1 else if w == "y" then 2 else -1
  }

  /** Values, their words and the constants named by these agree. */
  lemma WordsAgree(t: Tri)
    ensures Meant(Word(TriText(t))) == t == Meant(Count(t))
    ensures var s := Symbol(TriText(t), true); Tristate(s) && FixedTri(s) == t
    ensures forall w :: 0 <= Meant(Word(w)) ==> Meant(Word(w)) <= 2 && TriText(Meant(Word(w))) == w
  {
  }

  /** The values a symbol takes: a bool not m, and other symbols only the constants n, m and y themselves. */
  predicate Accepts(c: Config, s: Symbol, value: Entry) {
    if s in c.defs && c.defs[s].kind == BoolSym then Meant(value) == 0 || Meant(value) == 2
    else (s in c.defs || Tristate(s)) && 0 <= Meant(value) <= 2
  }

  // ---- Invalidation ---------------------------------------------------------------------------------------------------------

  /** Caches only lost entries, and whatever was settled still is, except for what is still to be visited. */
  ghost predicate Kept(c: Config, user: Values, vis0: Values, tri0: Values, vis: Values, tri: Values, rest: set<Symbol>) {
    && tri.Keys <= vis.Keys
    && forall t :: Settled(c, user, vis0, tri0, t) ==> Settled(c, user, vis, tri, t) || (t in rest && t in vis)
  }

  lemma AllKept(c: Config, user: Values, vis: Values, tri: Values)
    requires tri.Keys <= vis.Keys
    ensures Kept(c, user, vis, tri, vis - c.defs.Keys, tri - c.defs.Keys, {})
  {
    var vis', tri' := vis - c.defs.Keys, tri - c.defs.Keys;
    forall t | Settled(c, user, vis, tri, t)
      ensures Settled(c, user, vis', tri', t)
    {
      NotCachedSettled(c, user, vis', tri', t);
    }
  }

  lemma NotCachedSettled(c: Config, user: Values, vis: Values, tri: Values, t: Symbol)
    requires t !in vis && tri.Keys <= vis.Keys
    ensures Settled(c, user, vis, tri, t)
  {
  }

  lemma DependentDefined(c: Config, dependents: map<Symbol, set<Symbol>>, s: Symbol, item: Symbol)
    requires DependentsOk(c, dependents) && item in DependentsIn(dependents, s)
    ensures item in c.defs
  {
  }

  lemma KeptKeys(c: Config, user: Values, vis0: Values, tri0: Values, vis: Values, tri: Values, rest: set<Symbol>)
    requires Kept(c, user, vis0, tri0, vis, tri, rest)
    ensures tri.Keys <= vis.Keys
  {
  }

  /** Dropping `s` unsettles at most its dependents with cached values. */
  lemma ClearKept(c: Config, user: Values, vis: Values, tri: Values, dependents: map<Symbol, set<Symbol>>, s: Symbol)
    requires !s.constant && s != MODULES && DependentsOk(c, dependents) && tri.Keys <= vis.Keys
    ensures Kept(c, user, vis, tri, vis - {s}, tri - {s}, DependentsIn(dependents, s))
  {
    hide Mentions;
    hide VisOf;
    hide TriOf;
    hide KnownTri;
    hide KnownVis;
    var vis', tri', rest := vis - {s}, tri - {s}, DependentsIn(dependents, s);
    forall t | Settled(c, user, vis, tri, t)
      ensures Settled(c, user, vis', tri', t) || (t in rest && t in vis')
    {
      if t in vis' && t !in rest {
        DropSettled(c, user, vis, tri, s, t);
      } else if t !in vis' {
        NotCachedSettled(c, user, vis', tri', t);
      }
    }
  }

  lemma DropSettled(c: Config, user: Values, vis: Values, tri: Values, s: Symbol, t: Symbol)
    requires Settled(c, user, vis, tri, t) && t in vis && t != s && s !in DepsOf(c.defs[t])
    ensures Settled(c, user, vis - {s}, tri - {s}, t)
  {
    SettledGrows(c, user, vis, tri, tri - {s}, t);
  }

  lemma Fewer(a: set<Symbol>, b: set<Symbol>, s: Symbol, item: Symbol)
    requires b <= a && s !in b && item in b
    ensures |b - {item}| < |a - {s}|
  {
    assert b - {item} < b <= a - {s};
    Smaller(b - {item}, a - {s});
  }

  lemma Smaller(x: set<Symbol>, y: set<Symbol>)
    requires x < y
    ensures |x| < |y|
  {
    assert |y| == |x| + |y - x| by {
      assert y == x + (y - x);
    }
    assert y - x != {};
  }

  lemma KeptStep(c: Config, user: Values, vis0: Values, tri0: Values, vis1: Values, tri1: Values, vis2: Values, tri2: Values,
                 rest: set<Symbol>, item: Symbol)
    requires Kept(c, user, vis0, tri0, vis1, tri1, rest) && Kept(c, user, vis1, tri1, vis2, tri2, {}) && item !in vis2
    ensures Kept(c, user, vis0, tri0, vis2, tri2, rest - {item})
  {
    hide Settled;
    forall t | Settled(c, user, vis0, tri0, t)
      ensures Settled(c, user, vis2, tri2, t) || (t in rest - {item} && t in vis2)
    {
      if t !in vis2 {
        NotCachedSettled(c, user, vis2, tri2, t);
      }
    }
  }

  lemma KeptSkip(c: Config, user: Values, vis0: Values, tri0: Values, vis: Values, tri: Values, rest: set<Symbol>, item: Symbol)
    requires Kept(c, user, vis0, tri0, vis, tri, rest) && item !in vis
    ensures Kept(c, user, vis0, tri0, vis, tri, rest - {item})
  {
    hide Settled;
  }

  lemma KeptAll(c: Config, user: Values, vis0: Values, tri0: Values, vis: Values, tri: Values, s: Symbol)
    requires Kept(c, user, vis0, tri0, vis, tri, {}) && s !in vis
    requires forall t :: t != s ==> Settled(c, user, vis0, tri0, t)
    ensures AllSettled(c, user, vis, tri)
  {
    hide Settled;
    forall t ensures Settled(c, user, vis, tri, t) {
      if t == s {
        NotCachedSettled(c, user, vis, tri, t);
      }
    }
  }

  /** A user value matters only for its own symbol, and not at all where nothing makes it visible. */
  lemma UserChange(c: Config, rank: Ranks, user: Values, user': Values, vis: Values, tri: Values, text: map<Symbol, string>,
                   dependents: map<Symbol, set<Symbol>>, s: Symbol)
    requires Good(c, rank, user, vis, tri, text, dependents)
    requires forall t :: t != s ==> UserOf(user, t) == UserOf(user', t)
    ensures tri.Keys <= vis.Keys
    ensures forall t :: t != s ==> Settled(c, user', vis, tri, t)
    ensures s !in c.defs ==> s !in vis
    ensures s in c.defs && c.defs[s].prompts == [] ==> Settled(c, user', vis, tri, s)
  {
    hide Settled;
    hide DependentsOk;
    forall t ensures t in tri ==> t in vis && t in c.defs {
      SettledCached(c, user, vis, tri, t);
    }
    forall t | t != s || (s in c.defs && c.defs[s].prompts == [])
      ensures Settled(c, user', vis, tri, t)
    {
      OtherUser(c, user, user', vis, tri, t);
    }
    SettledCached(c, user, vis, tri, s);
  }

  lemma SettledCached(c: Config, user: Values, vis: Values, tri: Values, t: Symbol)
    requires Settled(c, user, vis, tri, t)
    ensures (t in tri ==> t in vis) && (t in vis ==> t in c.defs)
  {
  }

  lemma OtherUser(c: Config, user: Values, user': Values, vis: Values, tri: Values, t: Symbol)
    requires Settled(c, user, vis, tri, t)
    requires UserOf(user, t) == UserOf(user', t) || (t in c.defs && c.defs[t].prompts == [])
    ensures Settled(c, user', vis, tri, t)
  {
    hide Val;
    hide Known;
    hide KnownDefault;
    hide DefaultOf;
  }

  /** `s` is entered as a dependent of the non-constant symbols in `items`. */
  ghost predicate Added(deps: map<Symbol, set<Symbol>>, deps': map<Symbol, set<Symbol>>, s: Symbol, items: set<Symbol>) {
    forall d, t :: HasDependent(deps', d, t) <==> HasDependent(deps, d, t) || (t == s && d in items && !d.constant)
  }

  /** The dependents, except for the symbols still to be gone through. */
  ghost predicate Built(c: Config, deps: map<Symbol, set<Symbol>>, rest: set<Symbol>) {
    forall d, s :: HasDependent(deps, d, s) <==> s in c.defs && s !in rest && d in Mentions(c.defs[s]) && !d.constant
  }

  lemma BuiltMore(c: Config, deps: map<Symbol, set<Symbol>>, deps': map<Symbol, set<Symbol>>, rest: set<Symbol>, s: Symbol)
    requires Built(c, deps, rest) && s in rest && s in c.defs && Added(deps, deps', s, Mentions(c.defs[s]))
    ensures Built(c, deps', rest - {s})
  {
    hide Mentions;
    hide HasDependent;
    forall d, t
      ensures HasDependent(deps', d, t) <==> t in c.defs && t !in rest - {s} && d in Mentions(c.defs[t]) && !d.constant
    {
      assert HasDependent(deps, d, t) <==> t in c.defs && t !in rest && d in Mentions(c.defs[t]) && !d.constant;
    }
  }

  lemma BuiltNone(c: Config)
    ensures Built(c, map[], c.defs.Keys)
  {
  }

  lemma BuiltAll(c: Config, deps: map<Symbol, set<Symbol>>)
    requires Built(c, deps, {})
    ensures DependentsOk(c, deps)
  {
    hide Mentions;
    hide HasDependent;
    forall d, t
      ensures HasDependent(deps, d, t) <==> t in c.defs && d in Mentions(c.defs[t]) && !d.constant
    {
      assert HasDependent(deps, d, t) <==> t in c.defs && t !in {} && d in Mentions(c.defs[t]) && !d.constant;
    }
  }

  lemma {:induction false} ItemsDefaultsMore(ds: seq<(Expr, Expr)>, i: nat)
    requires i < |ds|
    ensures ItemsDefaults(ds[..i + 1]) == ItemsDefaults(ds[..i]) + Items(ds[i].0) + Items(ds[i].1)
  {
    if i == 0 {
      assert ds[..1][1..] == [];
    } else {
      ItemsDefaultsMore(ds[1..], i - 1);
      assert ds[..i + 1][1..] == ds[1..][..i] && ds[..i][1..] == ds[1..][..i - 1];
    }
  }

  ghost predicate TextOk(text: map<Symbol, string>, tri: Values) {
    forall s :: s in text ==> s in tri && text[s] == TriText(tri[s])
  }

  function DependentsIn(dependents: map<Symbol, set<Symbol>>, d: Symbol): set<Symbol> {
    if d in dependents then dependents[d] else {}
  }

  ghost predicate HasDependent(dependents: map<Symbol, set<Symbol>>, d: Symbol, s: Symbol) {
    s in DependentsIn(dependents, d)
  }

  /** `_dependents` of a symbol: the defined symbols whose properties mention it. */
  ghost predicate DependentsOk(c: Config, dependents: map<Symbol, set<Symbol>>) {
    forall d, s :: HasDependent(dependents, d, s) <==> s in c.defs && d in Mentions(c.defs[s]) && !d.constant
  }
}

/** The filter-expression builder (`utils/expr/`): an `Expression` tree of
    conjunctions, disjunctions, negations and comparisons is turned into
    GORM `Where` clauses, pushing a `negate` flag down to the comparisons.

    The GORM query is the sequence of clauses the builder appends; each
    `Where` adds one condition that must hold along with all earlier ones.
    To say what a clause list MEANS, comparisons are read against an
    interpretation of the three base relations (`=`, `<`, `>`, `IN`), with
    `!=`, `>=`, `<=` and `NOT IN` their complements (two-valued: SQL NULLs
    are not modelled). The model states what the builder emits, what an
    expression means, where the two agree, and where they do not. */
module Expr {
  import opened Wrappers

  /** `CompareExpression`: `Left` and `Right` are pointers. */
  datatype CompareExpression = CompareExpression(left: Option<string>, operator: string, right: Option<string>)

  /** The slice a `*[]Expression` points at. */
  datatype Expressions = Expressions(items: seq<Expression>)

  /** `Expression`: four optional parts, of which the first present one is
      the expression. */
  datatype Expression = Expression(
    and: Option<Expressions>,
    or: Option<Expressions>,
    not: Option<Expression>,
    compare: Option<CompareExpression>)

  /** The operators `ComparisonOperator` declares. */
  predicate KnownOperator(op: string) {
    op == "=" || op == "!=" || op == ">" || op == "<" || op == ">=" || op == "<=" || op == "in"
  }

  // ---------------------------------------------------------------------------
  // Constructors

  /** `IsEmpty`: no part present. */
  predicate IsEmpty(e: Expression) {
    e.and.None? && e.or.None? && e.not.None? && e.compare.None?
  }

  function NewEmptyExpression(): (e: Expression)
    ensures IsEmpty(e)
  {
    Expression(None, None, None, None)
  }

  function NewAndExpression(es: seq<Expression>): (e: Expression)
    ensures !IsEmpty(e) && e.and == Some(Expressions(es)) && e.or.None? && e.not.None? && e.compare.None?
  {
    Expression(Some(Expressions(es)), None, None, None)
  }

  function NewOrExpression(es: seq<Expression>): (e: Expression)
    ensures !IsEmpty(e) && e.or == Some(Expressions(es)) && e.and.None? && e.not.None? && e.compare.None?
  {
    Expression(None, Some(Expressions(es)), None, None)
  }

  function NewNotExpression(x: Expression): (e: Expression)
    ensures !IsEmpty(e) && e.not == Some(x) && e.and.None? && e.or.None? && e.compare.None?
  {
    Expression(None, None, Some(x), None)
  }

  /** An expression whose only part is the comparison `left operator
      right`, as a composite literal would build it. */
  function ComparisonOf(left: string, operator: string, right: string): (e: Expression)
    ensures !IsEmpty(e) && e.compare == Some(CompareExpression(Some(left), operator, Some(right)))
    ensures e.and.None? && e.or.None? && e.not.None?
  {
    Expression(None, None, None, Some(CompareExpression(Some(left), operator, Some(right))))
  }

  /** An empty conjunction is still not an empty expression: its slice
      pointer is set. */
  lemma EmptyConjunctionIsNotEmpty()
    ensures !IsEmpty(NewAndExpression([])) && IsEmpty(NewEmptyExpression())
  {
  }

  // ---------------------------------------------------------------------------
  // Clauses

  /** The SQL operator of a `Where` clause. */
  datatype SqlOp = Eq | Ne | Gt | Le | Lt | Ge | In | NotIn

  /** One `db.Where(condition, arg)`, or one `db.Or(group)`. */
  datatype Clause = Where(column: string, op: SqlOp, arg: string) | OrGroup(group: seq<Clause>)

  /** The text after the column in a `Where` condition. */
  function SqlText(op: SqlOp): string {
    match op
    case Eq => " = ?"
    case Ne => " != ?"
    case Gt => " > ?"
    case Le => " <= ?"
    case Lt => " < ?"
    case Ge => " >= ?"
    case In => " IN (?)"
    case NotIn => " NOT IN (?)"
  }

  /** The condition string GORM receives. */
  function Condition(c: Clause): string
    requires c.Where?
  {
    c.column + SqlText(c.op)
  }

  /** The complement of each SQL operator. */
  function NegateOp(op: SqlOp): (r: SqlOp)
    ensures r != op
  {
    match op
    case Eq => Ne
    case Ne => Eq
    case Gt => Le
    case Le => Gt
    case Lt => Ge
    case Ge => Lt
    case In => NotIn
    case NotIn => In
  }

  /** Negating twice gives the operator back. */
  lemma NegateInvolution(op: SqlOp)
    ensures NegateOp(NegateOp(op)) == op
  {
  }

  /** The SQL operator a comparison operator stands for, un-negated. */
  function PositiveOp(op: string): (r: SqlOp)
    requires KnownOperator(op)
  {
    if op == "=" then Eq
    else if op == "!=" then Ne
    else if op == ">" then Gt
    else if op == "<" then Lt
    else if op == ">=" then Ge
    else if op == "<=" then Le
    else In
  }

  /** `CompareExpression.ToGorm`: one clause for a known operator, on the
      negated operator when `negate` is set; nothing for an unknown one. */
  function CompareToGorm(c: CompareExpression, negate: bool): (r: seq<Clause>)
    requires c.left.Some? && c.right.Some?
    ensures |r| == (if KnownOperator(c.operator) then 1 else 0)
    ensures KnownOperator(c.operator) ==>
              r[0] == Where(c.left.value, if negate then NegateOp(PositiveOp(c.operator)) else PositiveOp(c.operator), c.right.value)
  {
    var l, v := c.left.value, c.right.value;
    match c.operator
    case "=" => [if negate then Where(l, Ne, v) else Where(l, Eq, v)]
    case "!=" => [if negate then Where(l, Eq, v) else Where(l, Ne, v)]
    case ">" => [if negate then Where(l, Le, v) else Where(l, Gt, v)]
    case "<" => [if negate then Where(l, Ge, v) else Where(l, Lt, v)]
    case ">=" => [if negate then Where(l, Lt, v) else Where(l, Ge, v)]
    case "<=" => [if negate then Where(l, Gt, v) else Where(l, Le, v)]
    case "in" => [if negate then Where(l, NotIn, v) else Where(l, In, v)]
    case _ => []
  }

  // ---------------------------------------------------------------------------
  // The builder as written

  /** The children of the part that is compiled: the conjunction's if
      present, else the disjunction's, else none. */
  function Children(e: Expression): (r: seq<Expression>)
    ensures e.and.Some? ==> r == e.and.value.items
    ensures e.and.None? && e.or.Some? ==> r == e.or.value.items
  {
    if e.and.Some? then e.and.value.items
    else if e.or.Some? then e.or.value.items
    else []
  }

  lemma ChildSmaller(e: Expression, i: nat)
    requires i < |Children(e)|
    ensures Children(e)[i] < e
  {
    if e.and.Some? {
      assert Children(e)[i] < e.and.value;
    } else {
      assert Children(e)[i] < e.or.value;
    }
  }

  /** Every comparison the builder reaches has both operands; a missing one
      is a nil dereference. */
  predicate WellFormed(e: Expression)
    decreases e, 1
  {
    if e.and.Some? || e.or.Some? then ChildrenWellFormed(e, |Children(e)|)
    else if e.not.Some? then WellFormed(e.not.value)
    else if e.compare.Some? then e.compare.value.left.Some? && e.compare.value.right.Some?
    else true
  }

  predicate ChildrenWellFormed(e: Expression, n: nat)
    requires n <= |Children(e)|
    decreases e, 0, n
  {
    n == 0 || (ChildSmaller(e, n - 1); ChildrenWellFormed(e, n - 1) && WellFormed(Children(e)[n - 1]))
  }

  /** `Expression.ToGorm`: the clauses appended to the query. */
  function ToGorm(e: Expression, negate: bool): (r: seq<Clause>)
    requires WellFormed(e)
    ensures IsEmpty(e) ==> r == []
    ensures e.and.None? && e.or.Some? ==> |r| == 1 && r[0].OrGroup?
    decreases e, 1
  {
    if e.and.Some? then ToGormChildren(e, |Children(e)|, negate)
    else if e.or.Some? then [OrGroup(ToGormChildren(e, |Children(e)|, negate))]
    else if e.not.Some? then ToGorm(e.not.value, !negate)
    else if e.compare.Some? then CompareToGorm(e.compare.value, negate)
    else []
  }

  /** The clauses of the first `n` children, each compiled with the same
      `negate`, in order. */
  function ToGormChildren(e: Expression, n: nat, negate: bool): (r: seq<Clause>)
    requires n <= |Children(e)| && (e.and.Some? || e.or.Some?) && WellFormed(e)
    decreases e, 0, n
  {
    if n == 0 then []
    else
      ChildSmaller(e, n - 1);
      ChildrenWellFormedPrefix(e, |Children(e)|, n);
      ToGormChildren(e, n - 1, negate) + ToGorm(Children(e)[n - 1], negate)
  }

  lemma {:induction false} ChildrenWellFormedPrefix(e: Expression, m: nat, n: nat)
    requires n <= m <= |Children(e)| && ChildrenWellFormed(e, m) && n > 0
    ensures ChildrenWellFormed(e, n - 1) && WellFormed(Children(e)[n - 1])
    decreases m
  {
    if m > n {
      ChildrenWellFormedPrefix(e, m - 1, n);
    }
  }

  /** Only the first present part is compiled: the rest of the struct is
      ignored. */
  lemma FirstPartDecides(e: Expression, negate: bool)
    requires WellFormed(e)
    ensures e.and.Some? ==>
              WellFormed(NewAndExpression(e.and.value.items)) && ToGorm(e, negate) == ToGorm(NewAndExpression(e.and.value.items), negate)
    ensures e.and.None? && e.or.Some? ==>
              WellFormed(NewOrExpression(e.or.value.items)) && ToGorm(e, negate) == ToGorm(NewOrExpression(e.or.value.items), negate)
    ensures e.and.None? && e.or.None? && e.not.Some? ==> ToGorm(e, negate) == ToGorm(e.not.value, !negate)
  {
    if e.and.Some? || e.or.Some? {
      var f := if e.and.Some? then NewAndExpression(e.and.value.items) else NewOrExpression(e.or.value.items);
      ChildrenWellFormedAll(e, |Children(e)|);
      ChildrenWellFormedAll(f, |Children(f)|);
      ChildrenSameClauses(e, f, |Children(e)|, negate);
    }
  }

  lemma {:induction false} ChildrenSameClauses(e: Expression, f: Expression, n: nat, negate: bool)
    requires WellFormed(e) && WellFormed(f) && (e.and.Some? || e.or.Some?) && (f.and.Some? || f.or.Some?)
    requires Children(e) == Children(f) && n <= |Children(e)|
    ensures ToGormChildren(e, n, negate) == ToGormChildren(f, n, negate)
    decreases n
  {
    if n > 0 {
      ChildrenSameClauses(e, f, n - 1, negate);
    }
  }

  /** An empty expression adds nothing, whatever the negation, and a
      double negation is no negation. */
  lemma ToGormBasics(x: Expression, negate: bool)
    requires WellFormed(x)
    ensures ToGorm(NewEmptyExpression(), negate) == []
    ensures ToGorm(NewNotExpression(NewNotExpression(x)), negate) == ToGorm(x, negate)
  {
  }

  /** A negated comparison compiles to the complement of its clause, and an
      unknown operator to nothing. */
  lemma NegatedComparison(c: CompareExpression)
    requires c.left.Some? && c.right.Some?
    ensures var e := Expression(None, None, None, Some(c));
            var pos, neg := ToGorm(e, false), ToGorm(e, true);
            && (KnownOperator(c.operator) ==> |pos| == 1 && |neg| == 1 && neg[0] == pos[0].(op := NegateOp(pos[0].op)))
            && (!KnownOperator(c.operator) ==> pos == [] && neg == [])
  {
    var e := Expression(None, None, None, Some(c));
    assert ToGorm(e, false) == CompareToGorm(c, false);
    assert ToGorm(e, true) == CompareToGorm(c, true);
  }

  /** A clause with the operator of every comparison in it negated; the
      grouping is kept. */
  function Flip(c: Clause): (r: Clause)
    decreases c
  {
    match c
    case Where(col, op, v) => Where(col, NegateOp(op), v)
    case OrGroup(g) => OrGroup(FlipAll(g))
  }

  function FlipAll(cs: seq<Clause>): (r: seq<Clause>)
    ensures |r| == |cs|
    decreases cs
  {
    seq(|cs|, i requires 0 <= i < |cs| => Flip(cs[i]))
  }

  lemma FlipAllAppend(xs: seq<Clause>, ys: seq<Clause>)
    ensures FlipAll(xs + ys) == FlipAll(xs) + FlipAll(ys)
  {
    assert forall i :: 0 <= i < |xs + ys| ==> FlipAll(xs + ys)[i] == (FlipAll(xs) + FlipAll(ys))[i];
  }

  /** The negation flag reaches the comparisons only: compiling with the
      flag flipped negates the operator of every emitted comparison and
      keeps every conjunction a chain of `Where`s and every disjunction an
      `Or` group. Hence the connectives are never swapped. */
  lemma {:induction false} NegationFlipsLeaves(e: Expression, negate: bool)
    requires WellFormed(e)
    ensures ToGorm(e, !negate) == FlipAll(ToGorm(e, negate))
    decreases e, 1
  {
    if e.and.Some? || e.or.Some? {
      NegationFlipsChildren(e, |Children(e)|, negate);
    } else if e.not.Some? {
      NegationFlipsLeaves(e.not.value, !negate);
      FlipAllInvolution(ToGorm(e.not.value, !negate));
    } else if e.compare.Some? {
      var c := e.compare.value;
      if KnownOperator(c.operator) {
        NegateInvolution(PositiveOp(c.operator));
        assert FlipAll(CompareToGorm(c, negate))[0] == Flip(CompareToGorm(c, negate)[0]);
      }
    }
  }

  lemma {:induction false} NegationFlipsChildren(e: Expression, n: nat, negate: bool)
    requires n <= |Children(e)| && (e.and.Some? || e.or.Some?) && WellFormed(e)
    ensures ToGormChildren(e, n, !negate) == FlipAll(ToGormChildren(e, n, negate))
    decreases e, 0, n
  {
    if n > 0 {
      ChildSmaller(e, n - 1);
      ChildrenWellFormedPrefix(e, |Children(e)|, n);
      NegationFlipsChildren(e, n - 1, negate);
      NegationFlipsLeaves(Children(e)[n - 1], negate);
      FlipAllAppend(ToGormChildren(e, n - 1, negate), ToGorm(Children(e)[n - 1], negate));
    }
  }

  lemma {:induction false} FlipInvolution(c: Clause)
    ensures Flip(Flip(c)) == c
    decreases c
  {
    match c
    case Where(_, op, _) => NegateInvolution(op);
    case OrGroup(g) => FlipAllInvolution(g);
  }

  lemma {:induction false} FlipAllInvolution(cs: seq<Clause>)
    ensures FlipAll(FlipAll(cs)) == cs
    decreases cs
  {
    forall i | 0 <= i < |cs|
      ensures FlipAll(FlipAll(cs))[i] == cs[i]
    {
      FlipInvolution(cs[i]);
    }
  }

  /** A conjunction of two lists compiles to the first list's clauses
      followed by the second's. */
  lemma {:induction false} AndConcatenates(xs: seq<Expression>, ys: seq<Expression>, negate: bool)
    requires WellFormed(NewAndExpression(xs)) && WellFormed(NewAndExpression(ys))
    ensures WellFormed(NewAndExpression(xs + ys))
    ensures ToGorm(NewAndExpression(xs + ys), negate) == ToGorm(NewAndExpression(xs), negate) + ToGorm(NewAndExpression(ys), negate)
    decreases |ys|
  {
    var exy := NewAndExpression(xs + ys);
    AndWellFormedAppend(xs, ys);
    if |ys| == 0 {
      assert xs + ys == xs;
    } else {
      var ys' := ys[..|ys| - 1];
      var y := ys[|ys| - 1];
      AndWellFormedInit(ys);
      AndConcatenates(xs, ys', negate);
      assert ys' + [y] == ys;
      assert xs + ys == (xs + ys') + [y];
      AndSnoc(xs + ys', y, negate);
      AndSnoc(ys', y, negate);
    }
  }

  /** Appending a child appends its clauses. */
  lemma AndSnoc(xs: seq<Expression>, y: Expression, negate: bool)
    requires WellFormed(NewAndExpression(xs + [y]))
    ensures WellFormed(NewAndExpression(xs)) && WellFormed(y)
    ensures ToGorm(NewAndExpression(xs + [y]), negate) == ToGorm(NewAndExpression(xs), negate) + ToGorm(y, negate)
  {
    var e, f := NewAndExpression(xs + [y]), NewAndExpression(xs);
    AndWellFormedInit(xs + [y]);
    assert (xs + [y])[..|xs|] == xs;
    ChildrenPrefixClauses(e, f, |xs|, negate);
  }

  lemma {:induction false} ChildrenPrefixClauses(e: Expression, f: Expression, n: nat, negate: bool)
    requires WellFormed(e) && WellFormed(f) && e.and.Some? && f.and.Some?
    requires n <= |Children(e)| && n <= |Children(f)| && Children(e)[..n] == Children(f)[..n]
    ensures ToGormChildren(e, n, negate) == ToGormChildren(f, n, negate)
    decreases n
  {
    if n > 0 {
      assert Children(e)[..n - 1] == Children(e)[..n][..n - 1];
      assert Children(f)[..n - 1] == Children(f)[..n][..n - 1];
      assert Children(e)[n - 1] == Children(e)[..n][n - 1];
      assert Children(f)[n - 1] == Children(f)[..n][n - 1];
      ChildrenPrefixClauses(e, f, n - 1, negate);
    }
  }

  /** A conjunction is well formed exactly when each child is. */
  lemma {:induction false} ChildrenWellFormedAll(e: Expression, n: nat)
    requires n <= |Children(e)|
    ensures ChildrenWellFormed(e, n) <==> forall i :: 0 <= i < n ==> WellFormed(Children(e)[i])
    decreases n
  {
    if n > 0 {
      ChildrenWellFormedAll(e, n - 1);
    }
  }

  lemma AndWellFormedInit(xs: seq<Expression>)
    requires |xs| > 0 && WellFormed(NewAndExpression(xs))
    ensures WellFormed(NewAndExpression(xs[..|xs| - 1])) && WellFormed(xs[|xs| - 1])
  {
    ChildrenWellFormedAll(NewAndExpression(xs), |xs|);
    ChildrenWellFormedAll(NewAndExpression(xs[..|xs| - 1]), |xs| - 1);
  }

  lemma AndWellFormedAppend(xs: seq<Expression>, ys: seq<Expression>)
    requires WellFormed(NewAndExpression(xs)) && WellFormed(NewAndExpression(ys))
    ensures WellFormed(NewAndExpression(xs + ys))
  {
    ChildrenWellFormedAll(NewAndExpression(xs), |xs|);
    ChildrenWellFormedAll(NewAndExpression(ys), |ys|);
    ChildrenWellFormedAll(NewAndExpression(xs + ys), |xs + ys|);
    assert forall i :: 0 <= i < |xs + ys| ==> (xs + ys)[i] == if i < |xs| then xs[i] else ys[i - |xs|];
  }

  // ---------------------------------------------------------------------------
  // Meaning

  /** An interpretation of the base relations: whether `column op value`
      holds for `Eq`, `Gt`, `Lt` and `In`. */
  type Interp = (string, SqlOp, string) -> bool

  /** Whether a `Where` clause holds; the complements negate their base. */
  predicate HoldsWhere(c: Clause, I: Interp)
    requires c.Where?
  {
    match c.op
    case Eq => I(c.column, Eq, c.arg)
    case Ne => !I(c.column, Eq, c.arg)
    case Gt => I(c.column, Gt, c.arg)
    case Le => !I(c.column, Gt, c.arg)
    case Lt => I(c.column, Lt, c.arg)
    case Ge => !I(c.column, Lt, c.arg)
    case In => I(c.column, In, c.arg)
    case NotIn => !I(c.column, In, c.arg)
  }

  /** A negated clause holds exactly when the clause does not. */
  lemma NegatedClauseComplements(c: Clause, I: Interp)
    requires c.Where?
    ensures HoldsWhere(c.(op := NegateOp(c.op)), I) == !HoldsWhere(c, I)
  {
  }

  /** A chain of `Where` clauses holds when each one does. */
  predicate HoldsAll(cs: seq<Clause>, I: Interp)
    requires forall i :: 0 <= i < |cs| ==> cs[i].Where?
  {
    forall i :: 0 <= i < |cs| ==> HoldsWhere(cs[i], I)
  }

  /** What an expression means: a conjunction needs every child, a
      disjunction some child, a negation the opposite; a comparison with an
      unknown operator, like an empty expression, is no condition. */
  predicate Eval(e: Expression, I: Interp)
    requires WellFormed(e)
    decreases e, 1
  {
    if e.and.Some? then EvalChildren(e, I, true)
    else if e.or.Some? then !EvalChildren(e, I, false)
    else if e.not.Some? then !Eval(e.not.value, I)
    else if e.compare.Some? then
      var c := e.compare.value;
      !KnownOperator(c.operator) || HoldsWhere(Where(c.left.value, PositiveOp(c.operator), c.right.value), I)
    else true
  }

  /** With `want` true: every child holds. With `want` false: no child
      holds. */
  predicate EvalChildren(e: Expression, I: Interp, want: bool)
    requires WellFormed(e) && (e.and.Some? || e.or.Some?)
    decreases e, 0
  {
    ChildrenWellFormedAll(e, |Children(e)|);
    forall i :: 0 <= i < |Children(e)| ==> (ChildSmaller(e, i); Eval(Children(e)[i], I) == want)
  }

  /** The fragment where the builder's output means what the expression
      means: negation reaches only comparisons with known operators (no
      conjunction and no empty expression under a negation), and there is
      no disjunction. */
  predicate Safe(e: Expression, negate: bool)
    decreases e, 1
  {
    if e.and.Some? then !negate && SafeChildren(e, |Children(e)|)
    else if e.or.Some? then false
    else if e.not.Some? then Safe(e.not.value, !negate)
    else if e.compare.Some? then !negate || KnownOperator(e.compare.value.operator)
    else !negate
  }

  predicate SafeChildren(e: Expression, n: nat)
    requires n <= |Children(e)|
    decreases e, 0, n
  {
    n == 0 || (ChildSmaller(e, n - 1); SafeChildren(e, n - 1) && Safe(Children(e)[n - 1], false))
  }

  /** On the safe fragment the builder emits only `Where` clauses, and they
      hold together exactly when the expression (negated, if asked) holds. */
  lemma {:induction false} AsWrittenSoundOnSafe(e: Expression, negate: bool, I: Interp)
    requires WellFormed(e) && Safe(e, negate)
    ensures forall i :: 0 <= i < |ToGorm(e, negate)| ==> ToGorm(e, negate)[i].Where?
    ensures HoldsAll(ToGorm(e, negate), I) == (Eval(e, I) != negate)
    decreases e, 1
  {
    if e.and.Some? {
      ChildrenWellFormedAll(e, |Children(e)|);
      SafeChildrenSound(e, |Children(e)|, I);
    } else if e.or.Some? {
    } else if e.not.Some? {
      AsWrittenSoundOnSafe(e.not.value, !negate, I);
    }
  }

  lemma {:induction false} SafeChildrenSound(e: Expression, n: nat, I: Interp)
    requires WellFormed(e) && e.and.Some? && n <= |Children(e)| && SafeChildren(e, n)
    requires forall i :: 0 <= i < |Children(e)| ==> WellFormed(Children(e)[i])
    ensures forall i :: 0 <= i < |ToGormChildren(e, n, false)| ==> ToGormChildren(e, n, false)[i].Where?
    ensures HoldsAll(ToGormChildren(e, n, false), I) <==> forall i :: 0 <= i < n ==> Eval(Children(e)[i], I)
    decreases e, 0, n
  {
    if n > 0 {
      ChildSmaller(e, n - 1);
      SafeChildrenSound(e, n - 1, I);
      AsWrittenSoundOnSafe(Children(e)[n - 1], false, I);
      var prev, last := ToGormChildren(e, n - 1, false), ToGorm(Children(e)[n - 1], false);
      assert ToGormChildren(e, n, false) == prev + last;
      HoldsAllAppend(prev, last, I);
    }
  }

  lemma HoldsAllAppend(xs: seq<Clause>, ys: seq<Clause>, I: Interp)
    requires forall i :: 0 <= i < |xs| ==> xs[i].Where?
    requires forall i :: 0 <= i < |ys| ==> ys[i].Where?
    ensures forall i :: 0 <= i < |xs + ys| ==> (xs + ys)[i].Where?
    ensures HoldsAll(xs + ys, I) == (HoldsAll(xs, I) && HoldsAll(ys, I))
  {
    assert forall i :: 0 <= i < |xs + ys| ==> (xs + ys)[i] == if i < |xs| then xs[i] else ys[i - |xs|];
    if HoldsAll(xs, I) && HoldsAll(ys, I) {
      forall i | 0 <= i < |xs + ys|
        ensures HoldsWhere((xs + ys)[i], I)
      {
        if i >= |xs| {
          assert (xs + ys)[i] == ys[i - |xs|];
        }
      }
    }
    if HoldsAll(xs + ys, I) {
      forall i | 0 <= i < |ys|
        ensures HoldsWhere(ys[i], I)
      {
        assert (xs + ys)[|xs| + i] == ys[i];
      }
    }
  }

  /** The builder does not apply De Morgan's law: a negated conjunction is
      compiled as the conjunction of the negated parts. `NOT (x = 1 AND
      y = 2)` becomes `x != 1 AND y != 2`, which rejects the row with
      x = 1 and y = 3 that the expression accepts. */
  lemma NegatedConjunctionCounterexample()
    ensures var e := NewNotExpression(NewAndExpression([ComparisonOf("x", "=", "1"), ComparisonOf("y", "=", "2")]));
            var I: Interp := OnlyXIsOne;
            && WellFormed(e)
            && ToGorm(e, false) == [Where("x", Ne, "1"), Where("y", Ne, "2")]
            && Eval(e, I)
            && !HoldsAll(ToGorm(e, false), I)
  {
    var a, b := ComparisonOf("x", "=", "1"), ComparisonOf("y", "=", "2");
    var conj := NewAndExpression([a, b]);
    var e := NewNotExpression(conj);
    var I: Interp := OnlyXIsOne;
    ChildrenWellFormedAll(conj, 2);
    assert ToGorm(a, true) == CompareToGorm(a.compare.value, true) == [Where("x", Ne, "1")];
    assert ToGorm(b, true) == CompareToGorm(b.compare.value, true) == [Where("y", Ne, "2")];
    assert ToGormChildren(conj, 0, true) == [];
    assert ToGormChildren(conj, 1, true) == [Where("x", Ne, "1")];
    assert ToGormChildren(conj, 2, true) == [Where("x", Ne, "1"), Where("y", Ne, "2")];
    assert ToGorm(e, false) == [Where("x", Ne, "1"), Where("y", Ne, "2")];
    assert !Eval(b, I);
    assert Children(conj)[1] == b;
    assert !EvalChildren(conj, I, true);
    assert Eval(e, I);
    var cs := [Where("x", Ne, "1"), Where("y", Ne, "2")];
    assert !HoldsWhere(cs[0], I);
    assert !HoldsAll(cs, I);
  }

  /** The row of the counterexample: x = 1, and nothing else holds. */
  predicate OnlyXIsOne(col: string, op: SqlOp, v: string) {
    col == "x" && op == Eq && v == "1"
  }

  // ---------------------------------------------------------------------------
  // The builder with negation pushed through correctly

  /** A condition tree: GORM can express grouped AND and OR conditions. */
  datatype Query = Cond(clause: Clause) | All(parts: seq<Query>) | Any(parts: seq<Query>)

  /** A query holds per its tree; its leaves are `Where` clauses. */
  predicate HoldsQ(q: Query, I: Interp)
    decreases q
  {
    match q
    case Cond(c) => c.Where? && HoldsWhere(c, I)
    case All(ps) => forall i :: 0 <= i < |ps| ==> HoldsQ(ps[i], I)
    case Any(ps) => exists i :: 0 <= i < |ps| && HoldsQ(ps[i], I)
  }

  /** The builder with De Morgan's law: under negation a conjunction becomes
      a disjunction of negated parts and a disjunction a conjunction of
      them; an empty expression or unknown operator is "true", so under
      negation it is "false". Comparisons compile as before. */
  function ToQuery(e: Expression, negate: bool): (q: Query)
    requires WellFormed(e)
    ensures e.and.Some? || e.or.Some? ==>
              (q.All? || q.Any?) && |q.parts| == |Children(e)| && (q.All? <==> e.and.Some? != negate)
    decreases e, 1
  {
    if e.and.Some? || e.or.Some? then
      var parts := ToQueryChildren(e, negate);
      if e.and.Some? != negate then All(parts) else Any(parts)
    else if e.not.Some? then ToQuery(e.not.value, !negate)
    else if e.compare.Some? && KnownOperator(e.compare.value.operator) then Cond(CompareToGorm(e.compare.value, negate)[0])
    else if negate then Any([]) else All([])
  }

  function ToQueryChildren(e: Expression, negate: bool): (r: seq<Query>)
    requires WellFormed(e) && (e.and.Some? || e.or.Some?)
    ensures |r| == |Children(e)|
    decreases e, 0
  {
    ChildrenWellFormedAll(e, |Children(e)|);
    seq(|Children(e)|, i requires 0 <= i < |Children(e)| => (ChildSmaller(e, i); ToQuery(Children(e)[i], negate)))
  }

  /** For every well-formed expression, including disjunctions and
      negations of any depth, the corrected query holds exactly when the
      expression (negated, if asked) holds. */
  lemma {:induction false} ToQuerySound(e: Expression, negate: bool, I: Interp)
    requires WellFormed(e)
    ensures HoldsQ(ToQuery(e, negate), I) == (Eval(e, I) != negate)
    decreases e
  {
    if e.and.Some? || e.or.Some? {
      ChildrenWellFormedAll(e, |Children(e)|);
      var parts := ToQueryChildren(e, negate);
      forall i | 0 <= i < |Children(e)|
        ensures HoldsQ(parts[i], I) == (Eval(Children(e)[i], I) != negate)
      {
        ChildSmaller(e, i);
        ToQuerySound(Children(e)[i], negate, I);
      }
    } else if e.not.Some? {
      ToQuerySound(e.not.value, !negate, I);
    }
  }

  /** The corrected builder agrees with the one as written wherever the
      latter is right: on the safe fragment both accept the same rows. */
  lemma CorrectedAgreesOnSafe(e: Expression, negate: bool, I: Interp)
    requires WellFormed(e) && Safe(e, negate)
    ensures forall i :: 0 <= i < |ToGorm(e, negate)| ==> ToGorm(e, negate)[i].Where?
    ensures HoldsQ(ToQuery(e, negate), I) == HoldsAll(ToGorm(e, negate), I)
  {
    AsWrittenSoundOnSafe(e, negate, I);
    ToQuerySound(e, negate, I);
  }
}

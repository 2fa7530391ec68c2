/** Late name resolution: `a.b` where `a` turns out not to be a source becomes `a -> b`. */
module Desugar {
  import opened Tokens
  import opened ExprTrees
  import opened ExprGrammar

  function Validate(e: Expr, s: seq<string>): (r: Expr)
    decreases e
  {
    match e
    case Paren(x) => Paren(Validate(x, s))
    case Binary(op, l, r) => Binary(Canonical(op), Validate(l, s), Validate(r, s))
    case FieldRef(stream, name) =>
      if stream != DefaultStream && stream !in s
      then Binary(ARROW, FieldRef(DefaultStream, stream), JsonFieldRef(name))
      else e
    case MetaRef(stream, name) =>
      if stream != DefaultStream && stream !in s
      then Binary(ARROW, MetaRef(DefaultStream, stream), JsonFieldRef(name))
      else e
    case Case(value, whens, els) => Case(ValidateOption(value, s), ValidateWhens(whens, s), ValidateOption(els, s))
    case ValueSet(elems) => ValueSet(ValidateAll(elems, s))
    case Between(lo, hi) => Between(Validate(lo, s), Validate(hi, s))
    case Like(x) => Like(Validate(x, s))
    case Index(x) => Index(Validate(x, s))
    case Colon(x, y) => Colon(Validate(x, s), Validate(y, s))
    case _ => e
  }

  function ValidateOption(e: Option<Expr>, s: seq<string>): Option<Expr>
    decreases e
  {
    if e.None? then None else Some(Validate(e.value, s))
  }

  function ValidateAll(es: seq<Expr>, s: seq<string>): (r: seq<Expr>)
    ensures |r| == |es|
    decreases es
  {
    if es == [] then [] else ValidateAll(es[..|es| - 1], s) + [Validate(es[|es| - 1], s)]
  }

  function ValidateWhens(ws: seq<When>, s: seq<string>): (r: seq<When>)
    ensures |r| == |ws|
    decreases ws
  {
    if ws == [] then []
    else ValidateWhens(ws[..|ws| - 1], s) + [ValidateWhen(ws[|ws| - 1], s)]
  }

  function ValidateWhen(w: When, s: seq<string>): When
    decreases w
  {
    When(Validate(w.cond, s), Validate(w.result, s))
  }

  lemma SamePrecedence(op: Token)
    ensures Precedence(Canonical(op)) == Precedence(op)
  {
  }

  /** Growing the operator tree and resolving names commute. */
  lemma {:induction false} InsertThenValidate(t: Expr, op: Token, operand: Expr, s: seq<string>)
    ensures Validate(Insert(t, op, operand), s) == Insert(Validate(t, s), Canonical(op), Validate(operand, s))
  {
    SamePrecedence(op);
    if t.Binary? { SamePrecedence(t.op); }
    hide Precedence, Canonical;
    if t.Binary? && Precedence(t.op) < Precedence(op) {
      InsertThenValidate(t.rhs, op, operand, s);
    }
  }

  /** Resolving twice is resolving once. */
  lemma {:induction false} ValidateTwice(e: Expr, s: seq<string>)
    ensures Validate(Validate(e, s), s) == Validate(e, s)
    decreases e
  {
    match e
    case Paren(x) => ValidateTwice(x, s);
    case Binary(op, l, r) => ValidateTwice(l, s); ValidateTwice(r, s);
    case Case(value, whens, els) =>
      if value.Some? { ValidateTwice(value.value, s); }
      if els.Some? { ValidateTwice(els.value, s); }
      ValidateWhensTwice(whens, s);
    case ValueSet(elems) => ValidateAllTwice(elems, s);
    case Between(lo, hi) => ValidateTwice(lo, s); ValidateTwice(hi, s);
    case Like(x) => ValidateTwice(x, s);
    case Index(x) => ValidateTwice(x, s);
    case Colon(x, y) => ValidateTwice(x, s); ValidateTwice(y, s);
    case _ =>
  }

  lemma {:induction false} ValidateAllTwice(es: seq<Expr>, s: seq<string>)
    ensures ValidateAll(ValidateAll(es, s), s) == ValidateAll(es, s)
    decreases es
  {
    if es != [] {
      ValidateAllTwice(es[..|es| - 1], s);
      ValidateTwice(es[|es| - 1], s);
      assert ValidateAll(es, s)[..|es| - 1] == ValidateAll(es[..|es| - 1], s);
    }
  }

  lemma {:induction false} ValidateWhensTwice(ws: seq<When>, s: seq<string>)
    ensures ValidateWhens(ValidateWhens(ws, s), s) == ValidateWhens(ws, s)
    decreases ws
  {
    if ws != [] {
      ValidateWhensTwice(ws[..|ws| - 1], s);
      ValidateWhenTwice(ws[|ws| - 1], s);
      assert ValidateWhens(ws, s)[..|ws| - 1] == ValidateWhens(ws[..|ws| - 1], s);
    }
  }

  lemma {:induction false} ValidateWhenTwice(w: When, s: seq<string>)
    ensures ValidateWhen(ValidateWhen(w, s), s) == ValidateWhen(w, s)
    decreases w
  {
    ValidateTwice(w.cond, s);
    ValidateTwice(w.result, s);
  }

  /** Every reference in the tree is unqualified or qualified by one of the sources. */
  predicate Resolved(e: Expr, s: seq<string>)
    decreases e
  {
    match e
    case Paren(x) => Resolved(x, s)
    case Binary(op, l, r) => Resolved(l, s) && Resolved(r, s)
    case FieldRef(stream, _) => stream == DefaultStream || stream in s
    case MetaRef(stream, _) => stream == DefaultStream || stream in s
    case Case(value, whens, els) =>
      && (value.Some? ==> Resolved(value.value, s))
      && (els.Some? ==> Resolved(els.value, s))
      && (forall w | w in whens :: Resolved(w.cond, s) && Resolved(w.result, s))
    case ValueSet(elems) => forall x | x in elems :: Resolved(x, s)
    case Between(lo, hi) => Resolved(lo, s) && Resolved(hi, s)
    case Like(x) => Resolved(x, s)
    case Index(x) => Resolved(x, s)
    case Colon(x, y) => Resolved(x, s) && Resolved(y, s)
    case _ => true
  }

  lemma {:induction false} ValidateResolves(e: Expr, s: seq<string>)
    ensures Resolved(Validate(e, s), s)
    decreases e
  {
    match e
    case Paren(x) => ValidateResolves(x, s);
    case Binary(op, l, r) => ValidateResolves(l, s); ValidateResolves(r, s);
    case Case(value, whens, els) =>
      if value.Some? { ValidateResolves(value.value, s); }
      if els.Some? { ValidateResolves(els.value, s); }
      ValidateWhensResolves(whens, s);
    case ValueSet(elems) => ValidateAllResolves(elems, s);
    case Between(lo, hi) => ValidateResolves(lo, s); ValidateResolves(hi, s);
    case Like(x) => ValidateResolves(x, s);
    case Index(x) => ValidateResolves(x, s);
    case Colon(x, y) => ValidateResolves(x, s); ValidateResolves(y, s);
    case _ =>
  }

  lemma {:induction false} ValidateAllResolves(es: seq<Expr>, s: seq<string>)
    ensures forall x | x in ValidateAll(es, s) :: Resolved(x, s)
    decreases es
  {
    if es != [] {
      ValidateAllResolves(es[..|es| - 1], s);
      ValidateResolves(es[|es| - 1], s);
    }
  }

  lemma {:induction false} ValidateWhensResolves(ws: seq<When>, s: seq<string>)
    ensures forall w | w in ValidateWhens(ws, s) :: Resolved(w.cond, s) && Resolved(w.result, s)
    decreases ws
  {
    if ws != [] {
      ValidateWhensResolves(ws[..|ws| - 1], s);
      ValidateWhenResolves(ws[|ws| - 1], s);
    }
  }

  lemma {:induction false} ValidateWhenResolves(w: When, s: seq<string>)
    ensures Resolved(ValidateWhen(w, s).cond, s) && Resolved(ValidateWhen(w, s).result, s)
    decreases w
  {
    ValidateResolves(w.cond, s);
    ValidateResolves(w.result, s);
  }
}

/** The expression parser as it runs: it reads through the ring buffer, and grows the operator
    tree by replacing a right operand in place. */
module ExprParser {
  import opened Tokens
  import opened ExprTrees
  import opened ExprGrammar
  import opened TokenBuffers

  /** A right operand: a finished expression or a node that may still be grown. */
  datatype Operand = Leaf(e: Expr) | Sub(node: SpineNode)

  class SpineNode {
    const op: Token
    const lhs: Expr
    var rhs: Operand

    constructor (op: Token, lhs: Expr, rhs: Operand)
      ensures this.op == op && this.lhs == lhs && this.rhs == rhs
    {
      this.op, this.lhs, this.rhs := op, lhs, rhs;
    }
  }

  datatype Link = Link(op: Token, lhs: Expr)

  /** The tree a right spine stands for: its links from the top, ending in a leaf. */
  function Chain(links: seq<Link>, leaf: Expr): Expr {
    if links == [] then leaf else Binary(links[0].op, links[0].lhs, Chain(links[1..], leaf))
  }

  ghost function Links(nodes: seq<SpineNode>): (links: seq<Link>)
    ensures |links| == |nodes|
    ensures forall k :: 0 <= k < |nodes| ==> links[k] == Link(nodes[k].op, nodes[k].lhs)
  {
    seq(|nodes|, k requires 0 <= k < |nodes| => Link(nodes[k].op, nodes[k].lhs))
  }

  /** The tree under construction: a root whose right operand is everything read so far. */
  class Spine {
    const root: SpineNode
    ghost var nodes: seq<SpineNode>  // the right spine, from the root down
    ghost var leaf: Expr             // what the spine ends in
    ghost var repr: set<SpineNode>

    ghost predicate Valid()
      reads this, repr
      ensures Valid() ==> |nodes| > 0 && nodes[0] == root
    {
      && Tight(leaf)
      && |nodes| > 0 && nodes[0] == root
      && (forall k :: 0 <= k < |nodes| ==> nodes[k] in repr)
      && (forall j, k :: 0 <= j < k < |nodes| ==> nodes[j] != nodes[k])
      && (forall k {:trigger nodes[k].rhs} :: 0 <= k < |nodes| - 1 ==> nodes[k].rhs == Sub(nodes[k + 1]))
      && nodes[|nodes| - 1].rhs == Leaf(leaf)
    }

    ghost function Tree(): Expr
      requires |nodes| > 0
      reads this
    {
      Chain(Links(nodes[1..]), leaf)
    }

    constructor (e: Expr)
      requires Tight(e)
      ensures Valid() && Tree() == e && fresh(repr)
    {
      root := new SpineNode(ILLEGAL, e, Leaf(e));
      nodes, leaf, repr := [root], e, {root};
    }

    /** `k` is the place for `op`: everything above binds less tightly, what is below does not. */
    ghost predicate Place(k: nat, op: Token)
      reads this
      ensures Place(k, op) ==> k < |nodes|
    {
      && k < |nodes|
      && (forall j :: 0 < j <= k ==> Precedence(nodes[j].op) < Precedence(op))
      && (k + 1 < |nodes| ==> Precedence(nodes[k + 1].op) >= Precedence(op))
    }

    /** Walks down past the operators that bind less tightly than `op`. */
    method Descend(op: Token) returns (node: SpineNode, ghost k: nat)
      requires Valid()
      ensures Place(k, op) && node == nodes[k] && node in repr
    {
      hide Precedence;
      node, k := root, 0;
      while node.rhs.Sub? && Precedence(node.rhs.node.op) < Precedence(op)
        invariant k < |nodes| && node == nodes[k]
        invariant forall j :: 0 < j <= k ==> Precedence(nodes[j].op) < Precedence(op)
        decreases |nodes| - k
      {
        assert nodes[k].rhs == Sub(nodes[k + 1]);
        node, k := node.rhs.node, k + 1;
      }
      assert k + 1 < |nodes| ==> nodes[k].rhs == Sub(nodes[k + 1]);
    }

    /** The value of the operand below `node`, which is about to become a left operand. */
    method Collapse(node: SpineNode, ghost k: nat) returns (e: Expr)
      requires Valid() && k < |nodes| && node == nodes[k]
      ensures e == Chain(Links(nodes[k + 1..]), leaf)
      decreases |nodes| - k
    {
      if node.rhs.Leaf? {
        assert nodes[k].rhs.Leaf? && nodes[k + 1..] == [];
        e := node.rhs.e;
      } else {
        assert nodes[k].rhs == Sub(nodes[k + 1]);
        var next := node.rhs.node;
        var r := Collapse(next, k + 1);
        e := Binary(next.op, next.lhs, r);
        assert Links(nodes[k + 1..])[1..] == Links(nodes[k + 2..]);
      }
    }

    /** Replaces the right operand of `node` by `op` applied to it and to `operand`. */
    method Attach(node: SpineNode, ghost k: nat, op: Token, operand: Expr)
      requires Valid() && Tight(operand) && Place(k, op) && node == nodes[k]
      modifies this, node
      ensures Valid() && Tree() == Insert(old(Tree()), op, operand)
      ensures fresh(repr - old(repr))
    {
      hide Precedence, Insert, Chain, Links, Place, Tight;
      Inserted(k, op, operand);
      ghost var was, links := nodes, Links(nodes[1..]);
      var lhs := Collapse(node, k);
      var grown := new SpineNode(op, lhs, Leaf(operand));
      node.rhs := Sub(grown);
      nodes, leaf, repr := nodes[..k + 1] + [grown], operand, repr + {grown};
      assert Links(nodes[1..]) == links[..k] + [Link(op, lhs)];
      assert |nodes| == k + 2 && nodes[k + 1] == grown && nodes[k].rhs == Sub(grown);
      forall j {:trigger nodes[j].rhs} | 0 <= j < |nodes| - 1
        ensures nodes[j].rhs == Sub(nodes[j + 1])
      {
        if j < k {
          assert was[j] != node && was[j].rhs == Sub(was[j + 1]);
        }
      }
    }

    /** What the tree becomes when `op operand` is put at its place. */
    lemma Inserted(k: nat, op: Token, operand: Expr)
      requires Valid() && Place(k, op)
      ensures k < |nodes| && Links(nodes[1..])[k..] == Links(nodes[k + 1..])
      ensures Insert(Tree(), op, operand) == Chain(Links(nodes[1..])[..k] + [Link(op, Chain(Links(nodes[k + 1..]), leaf))], operand)
    {
      hide Precedence, Insert, Chain;
      var links := Links(nodes[1..]);
      InsertIntoChain(links, leaf, k, op, operand);
      assert links[k..] == Links(nodes[k + 1..]);
    }

    /** One turn of the loop: find the place and put `op operand` there. */
    method Grow(op: Token, operand: Expr)
      requires Valid() && Tight(operand)
      modifies this, repr
      ensures Valid() && Tree() == Insert(old(Tree()), op, operand)
      ensures fresh(repr - old(repr))
    {
      var node, k := Descend(op);
      Attach(node, k, op, operand);
    }

    method Result() returns (e: Expr)
      requires Valid()
      ensures e == Tree()
    {
      e := Collapse(root, 0);
    }
  }

  lemma {:induction false} InsertIntoChain(links: seq<Link>, leaf: Expr, k: nat, op: Token, operand: Expr)
    requires k <= |links| && Tight(leaf)
    requires forall j :: 0 <= j < k ==> Precedence(links[j].op) < Precedence(op)
    requires k < |links| ==> Precedence(links[k].op) >= Precedence(op)
    ensures Insert(Chain(links, leaf), op, operand) == Chain(links[..k] + [Link(op, Chain(links[k..], leaf))], operand)
  {
    var t, below := Chain(links, leaf), [Link(op, Chain(links[k..], leaf))];
    InsertStep(t, op, operand);
    ChainStep(links[..k] + below, operand);
    if k == 0 {
      assert !Below(t, op);
      assert links[0..] == links && links[..0] + below == below;
      assert below[1..] == [];
    } else {
      ChainStep(links, leaf);
      assert Below(t, op);
      hide Chain, Insert, Precedence, Below;
      InsertIntoChain(links[1..], leaf, k - 1, op, operand);
      Slices(links, k, below);
    }
  }

  lemma ChainStep(links: seq<Link>, leaf: Expr)
    requires links != []
    ensures Chain(links, leaf) == Binary(links[0].op, links[0].lhs, Chain(links[1..], leaf))
  {
  }

  lemma Slices(links: seq<Link>, k: nat, below: seq<Link>)
    requires 0 < k <= |links|
    ensures links[1..][k - 1..] == links[k..]
    ensures (links[..k] + below)[1..] == links[1..][..k - 1] + below && (links[..k] + below)[0] == links[0]
  {
  }

  /** A routine ended as the grammar says it should, with at most one lexeme looked at beyond
      where it stands (`before` is how many had been fetched when it began). */
  ghost predicate Ended(b: TokenBuffer, before: nat, r: Option<Expr>, s: Result<Expr>)
    reads b, b.buf
  {
    && b.Valid()
    && (s.Ok? ==> r == Some(s.value) && b.Cursor() == s.next && (b.fetched == before || b.fetched <= b.Cursor() + 1))
    && (s.Err? ==> r.None?)
  }

  /** What the loop finds at the cursor: no operator, one that takes an operand or a range,
      or a NOT that stands before neither IN, BETWEEN nor LIKE. */
  datatype Turn = Stop | Single(op: Token) | Bounds(op: Token) | Reject

  /** `turn` is the reading of the operator at `p`, with its operand starting at `start`. */
  predicate Reads(turn: Turn, tape: seq<Lexeme>, p: nat, start: nat)
    ensures Reads(turn, tape, p, start) && !turn.Stop? ==> p < |tape| && (turn.Reject? || p <= start)
  {
    if !IsOperator(At(tape, p).tok) then turn.Stop? && start == p
    else
      match OperatorStep(tape, p)
      case Bad => turn.Reject?
      case Rhs(op, q) => turn == Single(op) && start == q
      case Range(op, q) => turn == Bounds(op) && start == q
  }

  /** Reads the operator at the cursor, and stops where its operand starts. */
  method ReadOperator(b: TokenBuffer) returns (turn: Turn)
    requires b.Valid()
    modifies b, b.buf
    ensures b.Valid() && Reads(turn, b.Tape(), old(b.Cursor()), b.Cursor())
    ensures turn.Stop? ==> b.n >= 1
    ensures b.fetched == old(b.fetched) || b.fetched <= b.Cursor() + 1
  {
    hide TokenBuffer.Valid, Significant, IsOperator;
    var x := b.ScanIgnoreWhitespace();
    if !IsOperator(x.tok) {
      b.Unscan();
      return Stop;
    } else if x.tok.ASTERISK? {
      return Single(MUL);
    } else if x.tok.LBRACKET? {
      b.Unscan();
      return Single(SUBSET);
    } else if x.tok.IN? {
      b.Unscan();
      return Single(IN);
    } else if x.tok.NOT? {
      var after := b.ScanIgnoreWhitespace();
      if after.tok.IN? {
        b.Unscan();
        return Single(NOTIN);
      } else if after.tok.BETWEEN? {
        return Bounds(NOTBETWEEN);
      } else {
        return if after.tok.LIKE? then Single(NOTLIKE) else Reject;
      }
    }
    return if x.tok.BETWEEN? then Bounds(BETWEEN) else Single(x.tok);
  }

  method ParseExpression(b: TokenBuffer, g: Env) returns (r: Option<Expr>)
    requires b.Valid()
    modifies b, b.buf
    ensures Ended(b, old(b.fetched), r, ParseExpr(g, b.Tape(), old(b.Cursor())))
    ensures r.Some? ==> b.n >= 1
    decreases Left(b.Tape(), b.Cursor()), 4
  {
    hide TokenBuffer.Valid, Significant, Spine.Valid, Spine.Tree, Spine.Place, OperatorStep, IsOperator, ParseUnary,
         ParseRange, Insert;
    ghost var t := b.Tape();
    ghost var goal := ParseExpr(g, t, b.Cursor());
    var first := ParseUnaryExpr(b, g, false);
    if first.None? {
      return None;
    }
    var tree := new Spine(first.value);
    while true
      invariant b.Valid() && tree.Valid() && fresh(tree) && fresh(tree.repr)
      invariant old(b.Cursor()) < b.Cursor() <= |t|
      invariant goal == ParseOperators(g, t, b.Cursor(), tree.Tree())
      invariant b.fetched == old(b.fetched) || b.fetched <= b.Cursor() + 1
      decreases Left(t, b.Cursor())
    {
      ghost var p := b.Cursor();
      var turn := ReadOperator(b);
      if turn.Stop? {
        var e := tree.Result();
        return Some(e);
      }
      var ok := TakeTurn(b, g, tree, turn, p);
      if !ok {
        return None;
      }
    }
  }

  /** One turn of the loop after its operator is read: the place for BETWEEN is found before
      its bounds are read, for the other operators after their operand. */
  method TakeTurn(b: TokenBuffer, g: Env, tree: Spine, turn: Turn, ghost p: nat) returns (ok: bool)
    requires b.Valid() && tree.Valid() && !turn.Stop?
    requires Reads(turn, b.Tape(), p, b.Cursor())
    modifies b, b.buf, tree, tree.repr
    ensures b.Valid() && tree.Valid() && fresh(tree.repr - old(tree.repr))
    ensures ok ==> p <= old(b.Cursor()) < b.Cursor() <= |b.Tape()| && (b.fetched == old(b.fetched) || b.fetched <= b.Cursor() + 1)
    ensures ParseOperators(g, b.Tape(), p, old(tree.Tree()))
         == if ok then ParseOperators(g, b.Tape(), b.Cursor(), tree.Tree()) else Err
    decreases Left(b.Tape(), p), 3
  {
    hide TokenBuffer.Valid, Significant, Spine.Valid, Spine.Tree, Spine.Place, OperatorStep, IsOperator, ParseUnary,
         ParseRange, Insert;
    match turn
    case Reject =>
      return false;
    case Bounds(op) =>
      var node, k := tree.Descend(op);
      var range := ParseBetween(b, g);
      if range.None? {
        return false;
      }
      tree.Attach(node, k, op, range.value);
      return true;
    case Single(op) =>
      var operand := ParseUnaryExpr(b, g, op.ARROW? || op.DOT?);
      if operand.None? {
        return false;
      }
      var rhs := OperandFor(g, op, operand.value);
      if rhs.None? {
        return false;
      }
      tree.Grow(Canonical(op), rhs.value);
      return true;
  }

  method ParseBetween(b: TokenBuffer, g: Env) returns (r: Option<Expr>)
    requires b.Valid()
    modifies b, b.buf
    ensures Ended(b, old(b.fetched), r, ParseRange(g, b.Tape(), old(b.Cursor())))
    decreases Left(b.Tape(), b.Cursor()), 3
  {
    hide TokenBuffer.Valid, Significant, ParseUnary;
    var lo := ParseUnaryExpr(b, g, false);
    if lo.None? {
      return None;
    }
    var x := b.ScanIgnoreWhitespace();
    if !x.tok.AND? {
      return None;
    }
    var hi := ParseUnaryExpr(b, g, false);
    return if hi.None? then None else Some(Between(lo.value, hi.value));
  }

  method ParseUnaryExpr(b: TokenBuffer, g: Env, sub: bool) returns (r: Option<Expr>)
    requires b.Valid()
    modifies b, b.buf
    ensures Ended(b, old(b.fetched), r, ParseUnary(g, b.Tape(), old(b.Cursor()), sub))
    decreases Left(b.Tape(), b.Cursor()), 2
  {
    hide TokenBuffer.Valid, Significant, ParseUnary, ParseValueSet, ParseBracket;
    UnaryCases(g, b.Tape(), b.Cursor(), sub);
    var x := b.ScanIgnoreWhitespace();
    if x.tok.LPAREN? {
      r := ParseParenExpr(b, g);
      return;
    } else if x.tok.LBRACKET? {
      r := ParseBracketExpr(b, g);
      return;
    } else if x.tok.IN? {
      r := ParseValueSetExpr(b, g);
      return;
    }
    b.Unscan();
    r := ParsePlainUnary(b, g, sub);
  }

  predicate PlainStart(tok: Token) {
    !tok.LPAREN? && !tok.LBRACKET? && !tok.IN?
  }

  /** An operand that opens with none of these: it is read again from its first lexeme. */
  method ParsePlainUnary(b: TokenBuffer, g: Env, sub: bool) returns (r: Option<Expr>)
    requires b.Valid()
    requires PlainStart(At(b.Tape(), b.Cursor()).tok)
    modifies b, b.buf
    ensures Ended(b, old(b.fetched), r, ParseUnary(g, b.Tape(), old(b.Cursor()), sub))
    decreases Left(b.Tape(), b.Cursor()), 1
  {
    hide TokenBuffer.Valid, Significant, ParseUnary, ParseAsterisk, ParseCase, LiteralOf;
    UnaryCases(g, b.Tape(), b.Cursor(), sub);
    var x := b.ScanIgnoreWhitespace();
    if x.tok.CASE? {
      r := ParseCaseExpr(b, g);
    } else if x.tok.IDENT? {
      r := ParseReference(b, g, sub);
    } else if x.tok.ASTERISK? {
      r := ParseWildcard(b, g);
    } else {
      r := LiteralOf(g, x);
    }
  }

  /** An opening parenthesis has just been read. */
  method ParseParenExpr(b: TokenBuffer, g: Env) returns (r: Option<Expr>)
    requires b.Valid() && b.Cursor() > 0 && At(b.Tape(), b.Cursor() - 1).tok.LPAREN?
    modifies b, b.buf
    ensures Ended(b, old(b.fetched), r, ParseUnary(g, b.Tape(), old(b.Cursor()) - 1, false))
    ensures Ended(b, old(b.fetched), r, ParseUnary(g, b.Tape(), old(b.Cursor()) - 1, true))
    decreases Left(b.Tape(), b.Cursor()), 5
  {
    hide TokenBuffer.Valid, Significant, ParseExpr, ParseAsterisk, ParseValueSet, ParseBracket, ParseCase, LiteralOf,
         Sections;
    var e := ParseExpression(b, g);
    if e.None? {
      return None;
    }
    var close := b.ScanIgnoreWhitespace();
    return if close.tok.RPAREN? then Some(Paren(e.value)) else None;
  }

  /** An identifier has just been read: a call is not part of this model, anything else is a
      reference, read again from its first section. */
  method ParseReference(b: TokenBuffer, g: Env, sub: bool) returns (r: Option<Expr>)
    requires b.Valid() && b.Cursor() > 0 && b.n < 3 && At(b.Tape(), b.Cursor() - 1).tok.IDENT?
    modifies b, b.buf
    ensures Ended(b, old(b.fetched), r, ParseUnary(g, b.Tape(), old(b.Cursor()) - 1, sub))
  {
    hide TokenBuffer.Valid, Significant, ParseExpr, ParseAsterisk, ParseValueSet, ParseBracket, ParseCase, LiteralOf,
         Sections, Reference;
    var y := b.ScanIgnoreWhitespace();
    if y.tok.LPAREN? {
      return None;
    }
    b.Unscan();
    b.Unscan();
    var n := ParseFieldNameSections(b, sub);
    r := if n.None? then None else Some(Reference(g, n.value, sub));
  }

  method ParseFieldNameSections(b: TokenBuffer, sub: bool) returns (r: Option<seq<string>>)
    requires b.Valid()
    modifies b, b.buf
    ensures b.Valid()
    ensures match Sections(b.Tape(), old(b.Cursor()), sub)
            case Ok(n, q) => r == Some(n) && b.Cursor() == q
            case Err => r.None?
    ensures r.Some? ==> (b.fetched == old(b.fetched) || b.fetched <= b.Cursor() + 1)
    ensures r.Some? ==> b.n < 3
    ensures r.Some? && |r.value| == 2 ==> b.n == 0
  {
    hide TokenBuffer.Valid, Significant;
    var names: seq<string> := [];
    ghost var p := b.Cursor();
    while true
      invariant b.Valid() && |names| <= 1
      invariant |names| == 0 ==> b.Cursor() == p && b.n == old(b.n)
      invariant b.fetched == old(b.fetched) || b.fetched == b.Cursor()
      invariant |names| == 1 ==> !sub && b.Cursor() == p + 2 && (At(b.Tape(), p).tok.IDENT? || At(b.Tape(), p).tok.ASTERISK?)
      invariant |names| == 1 ==> names == [At(b.Tape(), p).lit] && At(b.Tape(), p + 1).tok.DOT?
      invariant |names| == 1 ==> b.n <= if old(b.n) == 3 then 1 else 0
      decreases 2 - |names|
    {
      var x := b.ScanIgnoreWhitespace();
      if x.tok.IDENT? || x.tok.ASTERISK? {
        names := names + [x.lit];
        if |names| > 1 {
          assert names == [At(b.Tape(), p).lit, At(b.Tape(), p + 2).lit];
          break;
        }
        var y := b.ScanIgnoreWhitespace();
        if sub || !y.tok.DOT? {
          b.Unscan();
          assert names == [x.lit];
          break;
        }
      } else {
        b.Unscan();
        break;
      }
    }
    return if names == [] then None else Some(names);
  }

  method ParseWildcard(b: TokenBuffer, g: Env) returns (r: Option<Expr>)
    requires b.Valid() && b.Cursor() <= |b.Tape()|
    modifies b, b.buf
    ensures Ended(b, old(b.fetched), r, ParseAsterisk(g, b.Tape(), old(b.Cursor()), []))
  {
    hide TokenBuffer.Valid, Significant, ParseNames;
    if g.inMeta {
      var x := b.ScanIgnoreWhitespace();
      if x.tok.EXCEPT? || x.tok.REPLACE? {
        return None;
      }
      b.Unscan();
      return Some(MetaRef(DefaultStream, "*"));
    }
    r := ParseExceptClauses(b, g);
  }

  method ParseExceptClauses(b: TokenBuffer, g: Env) returns (r: Option<Expr>)
    requires b.Valid() && b.Cursor() <= |b.Tape()| && !g.inMeta
    modifies b, b.buf
    ensures Ended(b, old(b.fetched), r, ParseAsterisk(g, b.Tape(), old(b.Cursor()), []))
  {
    hide TokenBuffer.Valid, Significant, ParseNames, ParseAsterisk;
    ghost var t := b.Tape();
    ghost var goal := ParseAsterisk(g, t, b.Cursor(), []);
    var except: seq<string> := [];
    while true
      invariant b.Valid() && b.Cursor() <= |t|
      invariant goal == ParseAsterisk(g, t, b.Cursor(), except)
      invariant b.fetched == old(b.fetched) || b.fetched <= b.Cursor() + 1
      decreases Left(t, b.Cursor())
    {
      AsteriskStep(g, t, b.Cursor(), except);
      var x := b.ScanIgnoreWhitespace();
      if x.tok.EXCEPT? {
        var open := b.ScanIgnoreWhitespace();
        if !open.tok.LPAREN? {
          return None;
        }
        var names := ParseExcept(b);
        if names.None? {
          return None;
        }
        except := names.value;
      } else if x.tok.REPLACE? {
        return None;
      } else {
        b.Unscan();
        return Some(Wildcard(except));
      }
    }
  }

  method ParseExcept(b: TokenBuffer) returns (r: Option<seq<string>>)
    requires b.Valid()
    modifies b, b.buf
    ensures b.Valid()
    ensures match ParseNames(b.Tape(), old(b.Cursor()), [])
            case Ok(n, q) => r == Some(n) && b.Cursor() == q
            case Err => r.None?
    ensures r.Some? ==> b.fetched == old(b.fetched) || b.fetched <= b.Cursor() + 1
  {
    hide TokenBuffer.Valid, Significant, ParseExpr, ParseOperators, ParseRange, ParseUnary, ParseAsterisk,
         ParseValueSet, ParseElements, ParseBracket, ParseColon, ParseCase, ParseWhens, OperatorStep, Reference,
         Sections, LiteralOf, IsOperator, Precedence, Insert;
    ghost var goal := ParseNames(b.Tape(), b.Cursor(), []);
    var names: seq<string> := [];
    while true
      invariant b.Valid()
      invariant goal == ParseNames(b.Tape(), b.Cursor(), names)
      invariant b.fetched == old(b.fetched) || b.fetched <= b.Cursor() + 1
      decreases Left(b.Tape(), b.Cursor())
    {
      var x := b.ScanIgnoreWhitespace();
      if x.tok.IDENT? {
        names := names + [x.lit];
      } else if x.tok.RPAREN? {
        return Some(names);
      } else if !x.tok.COMMA? {
        return None;
      }
    }
  }

  method ParseValueSetExpr(b: TokenBuffer, g: Env) returns (r: Option<Expr>)
    requires b.Valid()
    modifies b, b.buf
    ensures Ended(b, old(b.fetched), r, ParseValueSet(g, b.Tape(), old(b.Cursor())))
    decreases Left(b.Tape(), b.Cursor()), 3
  {
    hide TokenBuffer.Valid, Significant, ParseUnary, ParseElements;
    var x := b.ScanIgnoreWhitespace();
    if !x.tok.LPAREN? {
      b.Unscan();
      r := ParseUnaryExpr(b, g, false);
      return;
    }
    r := ParseElementList(b, g);
  }

  method ParseElementList(b: TokenBuffer, g: Env) returns (r: Option<Expr>)
    requires b.Valid()
    modifies b, b.buf
    ensures Ended(b, old(b.fetched), r, ParseElements(g, b.Tape(), old(b.Cursor()), []))
    decreases Left(b.Tape(), b.Cursor()), 5
  {
    hide TokenBuffer.Valid, Significant, ParseExpr;
    ghost var t := b.Tape();
    ghost var goal := ParseElements(g, t, b.Cursor(), []);
    var elems: seq<Expr> := [];
    while true
      invariant b.Valid() && old(b.Cursor()) <= b.Cursor()
      invariant goal == ParseElements(g, t, b.Cursor(), elems)
      invariant b.fetched == old(b.fetched) || b.fetched <= b.Cursor() + 1
      decreases Left(t, b.Cursor())
    {
      var e := ParseExpression(b, g);
      if e.None? {
        return None;
      }
      elems := elems + [e.value];
      var y := b.ScanIgnoreWhitespace();
      if !y.tok.COMMA? {
        b.Unscan();
        assert goal == if At(t, b.Cursor()).tok.RPAREN? then Ok(ValueSet(elems), b.Cursor() + 1) else Err;
        break;
      }
    }
    var close := b.ScanIgnoreWhitespace();
    return if close.tok.RPAREN? then Some(ValueSet(elems)) else None;
  }

  method ParseBracketExpr(b: TokenBuffer, g: Env) returns (r: Option<Expr>)
    requires b.Valid()
    modifies b, b.buf
    ensures Ended(b, old(b.fetched), r, ParseBracket(g, b.Tape(), old(b.Cursor())))
    decreases Left(b.Tape(), b.Cursor()), 5
  {
    hide TokenBuffer.Valid, Significant, ParseExpr, ParseBracketEnd, ParseColon;
    var x := b.ScanIgnoreWhitespace();
    if x.tok.RBRACKET? {
      return Some(Colon(IntegerLiteral("0"), IntegerLiteral(MinInt32)));
    } else if x.tok.INTEGER? {
      if !g.intOk(x.lit) {
        return None;
      }
      r := ParseBracketEndExpr(b, g, IntegerLiteral(x.lit));
    } else if x.tok.COLON? {
      r := ParseColonExpr(b, g, IntegerLiteral("0"));
    } else {
      b.Unscan();
      var e := ParseExpression(b, g);
      if e.None? {
        return None;
      }
      r := ParseBracketEndExpr(b, g, e.value);
    }
  }

  method ParseBracketEndExpr(b: TokenBuffer, g: Env, start: Expr) returns (r: Option<Expr>)
    requires b.Valid()
    modifies b, b.buf
    ensures Ended(b, old(b.fetched), r, ParseBracketEnd(g, b.Tape(), old(b.Cursor()), start))
    decreases Left(b.Tape(), b.Cursor()), 6
  {
    hide TokenBuffer.Valid, Significant, ParseColon;
    var x := b.ScanIgnoreWhitespace();
    if x.tok.RBRACKET? {
      return Some(Index(start));
    } else if x.tok.COLON? {
      r := ParseColonExpr(b, g, start);
    } else {
      return None;
    }
  }

  method ParseColonExpr(b: TokenBuffer, g: Env, start: Expr) returns (r: Option<Expr>)
    requires b.Valid()
    modifies b, b.buf
    ensures Ended(b, old(b.fetched), r, ParseColon(g, b.Tape(), old(b.Cursor()), start))
    decreases Left(b.Tape(), b.Cursor()), 5
  {
    hide TokenBuffer.Valid, Significant, ParseExpr;
    var x := b.ScanIgnoreWhitespace();
    if x.tok.INTEGER? {
      if !g.intOk(x.lit) {
        return None;
      }
      var y := b.ScanIgnoreWhitespace();
      return if y.tok.RBRACKET? then Some(Colon(start, IntegerLiteral(x.lit))) else None;
    } else if x.tok.RBRACKET? {
      return Some(Colon(start, IntegerLiteral(MinInt32)));
    }
    b.Unscan();
    var e := ParseExpression(b, g);
    if e.None? {
      return None;
    }
    var y := b.ScanIgnoreWhitespace();
    return if y.tok.RBRACKET? then Some(Colon(start, e.value)) else None;
  }

  method ParseCaseExpr(b: TokenBuffer, g: Env) returns (r: Option<Expr>)
    requires b.Valid()
    modifies b, b.buf
    ensures Ended(b, old(b.fetched), r, ParseCase(g, b.Tape(), old(b.Cursor())))
    decreases Left(b.Tape(), b.Cursor()), 7
  {
    hide TokenBuffer.Valid, Significant, ParseExpr, ParseWhens;
    var x := b.ScanIgnoreWhitespace();
    b.Unscan();
    var value: Option<Expr> := None;
    if !x.tok.WHEN? {
      value := ParseExpression(b, g);
      if value.None? {
        return None;
      }
    }
    r := ParseWhenClauses(b, g, value);
  }

  method ParseWhenClauses(b: TokenBuffer, g: Env, value: Option<Expr>) returns (r: Option<Expr>)
    requires b.Valid()
    modifies b, b.buf
    ensures Ended(b, old(b.fetched), r, ParseWhens(g, b.Tape(), old(b.Cursor()), value, [], None))
    decreases Left(b.Tape(), b.Cursor()), 6
  {
    hide TokenBuffer.Valid, Significant, ParseExpr, ParseWhen, At;
    ghost var goal := ParseWhens(g, b.Tape(), b.Cursor(), value, [], None);
    var whens: seq<When> := [];
    var els: Option<Expr> := None;
    while true
      invariant b.Valid() && old(b.Cursor()) <= b.Cursor()
      invariant goal == ParseWhens(g, b.Tape(), b.Cursor(), value, whens, els)
      invariant b.fetched == old(b.fetched) || b.fetched <= b.Cursor() + 1
      decreases Left(b.Tape(), b.Cursor())
    {
      var x := b.ScanIgnoreWhitespace();
      if x.tok.WHEN? {
        var w := ParseWhenClause(b, g, value);
        if w.None? {
          return None;
        }
        whens := whens + [w.value];
      } else if x.tok.ELSE? {
        if whens == [] {
          return None;
        }
        var e := ParseExpression(b, g);
        if e.None? {
          return None;
        }
        els := e;
      } else if x.tok.END? {
        return if whens == [] then None else Some(Case(value, whens, els));
      } else {
        return None;
      }
    }
  }

  method ParseWhenClause(b: TokenBuffer, g: Env, value: Option<Expr>) returns (r: Option<When>)
    requires b.Valid()
    modifies b, b.buf
    ensures b.Valid()
    ensures match ParseWhen(g, b.Tape(), old(b.Cursor()), value)
            case Ok(w, q) => r == Some(w) && b.Cursor() == q
            case Err => r.None?
    ensures r.Some? ==> (b.fetched == old(b.fetched) || b.fetched <= b.Cursor() + 1)
    decreases Left(b.Tape(), b.Cursor()), 5
  {
    hide TokenBuffer.Valid, Significant, ParseExpr;
    var cond := ParseExpression(b, g);
    if cond.None? || (value.None? && !IsBooleanArg(cond.value)) {
      return None;
    }
    var y := b.ScanIgnoreWhitespace();
    if !y.tok.THEN? {
      return None;
    }
    var result := ParseExpression(b, g);
    return if result.None? then None else Some(When(cond.value, result.value));
  }

  method ParseSortFields(b: TokenBuffer, g: Env) returns (r: Option<seq<SortField>>)
    requires b.Valid()
    modifies b, b.buf
    ensures b.Valid()
    ensures match ParseSorts(g, b.Tape(), old(b.Cursor()))
            case Ok(fields, q) => r == Some(fields) && b.Cursor() == q
            case Err => r.None?
  {
    hide TokenBuffer.Valid, Significant, ParseSortField, ParseExpr, Sections;
    var x := b.ScanIgnoreWhitespace();
    if !x.tok.ORDER? {
      b.Unscan();
      return Some([]);
    }
    x := b.ScanIgnoreWhitespace();
    if !x.tok.BY? {
      return None;
    }
    r := ParseSortListFields(b, g);
  }

  method ParseSortListFields(b: TokenBuffer, g: Env) returns (r: Option<seq<SortField>>)
    requires b.Valid()
    modifies b, b.buf
    ensures b.Valid()
    ensures match ParseSortList(g, b.Tape(), old(b.Cursor()), [])
            case Ok(fields, q) => r == Some(fields) && b.Cursor() == q
            case Err => r.None?
  {
    hide TokenBuffer.Valid, Significant, ParseSortField, ParseExpr, Sections;
    ghost var t := b.Tape();
    ghost var goal := ParseSortList(g, t, b.Cursor(), []);
    var fields: seq<SortField> := [];
    while true
      invariant b.Valid()
      invariant goal == ParseSortList(g, t, b.Cursor(), fields)
      decreases Left(t, b.Cursor())
    {
      var x := b.ScanIgnoreWhitespace();
      if x.tok.IDENT? {
        b.Unscan();
        var f := ParseOneSort(b, g);
        if f.None? {
          return None;
        }
        fields := fields + [f.value];
      } else if !x.tok.COMMA? {
        b.Unscan();
        return Some(fields);
      }
    }
  }

  method ParseOneSort(b: TokenBuffer, g: Env) returns (r: Option<SortField>)
    requires b.Valid() && At(b.Tape(), b.Cursor()).tok.IDENT?
    modifies b, b.buf
    ensures b.Valid()
    ensures match ParseSortField(g, b.Tape(), old(b.Cursor()))
            case Ok(f, q) => r == Some(f) && b.Cursor() == q
            case Err => r.None?
  {
    hide TokenBuffer.Valid, Significant, ParseExpr;
    var name := ReadSortName(b);
    var e := ParseExpression(b, g);
    if e.None? {
      return None;
    }
    var x := b.ScanIgnoreWhitespace();
    if !x.tok.DESC? && !x.tok.ASC? {
      b.Unscan();
    }
    return Some(SortField(name, !x.tok.DESC?, e.value));
  }

  /** Reads a sort name and steps back over it. A two-part name fills the ring. */
  method ReadSortName(b: TokenBuffer) returns (name: seq<string>)
    requires b.Valid() && At(b.Tape(), b.Cursor()).tok.IDENT?
    modifies b, b.buf
    ensures b.Valid()
    ensures match Sections(b.Tape(), old(b.Cursor()), false)
            case Ok(n, q) => name == n && b.Cursor() == if |n| == 2 then old(b.Cursor()) else q - 1
            case Err => false
    ensures |name| == 2 ==> b.n == 3
  {
    hide TokenBuffer.Valid, Significant;
    var n := ParseFieldNameSections(b, false);
    name := n.value;
    if |name| == 2 {
      b.Unscan();
      b.Unscan();
    }
    b.Unscan();
  }
}

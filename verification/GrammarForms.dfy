/** Small forms of the grammar: short slices, literals, lists of excepted names. */
module GrammarForms {
  import opened Tokens
  import opened ExprTrees
  import opened ExprGrammar

  const Whole := Colon(IntegerLiteral("0"), IntegerLiteral(MinInt32))

  /** An empty bracket and a lone colon are slices from the start to the end, as `[0:]` is. */
  lemma ShortSlices(g: Env, tape: seq<Lexeme>, p: nat)
    requires g.intOk("0") && At(tape, p).tok.LBRACKET?
    ensures At(tape, p + 1).tok.RBRACKET? ==> ParseUnary(g, tape, p, false) == Ok(Whole, p + 2)
    ensures At(tape, p + 1).tok.COLON? && At(tape, p + 2).tok.RBRACKET? ==> ParseUnary(g, tape, p, false) == Ok(Whole, p + 3)
    ensures At(tape, p + 1) == Lexeme(INTEGER, "0") && At(tape, p + 2).tok.COLON? && At(tape, p + 3).tok.RBRACKET? ==>
              ParseUnary(g, tape, p, false) == Ok(Whole, p + 4)
  {
    UnaryCases(g, tape, p, false);
    var zero := IntegerLiteral("0");
    assert At(tape, p + 2).tok.RBRACKET? ==> ParseColon(g, tape, p + 2, zero) == Ok(Whole, p + 3);
    assert At(tape, p + 3).tok.RBRACKET? ==> ParseColon(g, tape, p + 3, zero) == Ok(Whole, p + 4);
    assert At(tape, p + 2).tok.COLON? ==> ParseBracketEnd(g, tape, p + 2, zero) == ParseColon(g, tape, p + 3, zero);
    hide ParseUnary, ParseExpr, ReadReference, ReadLiteral;
  }

  /** The literals: strings in either quotes, integers, numbers that the converter accepts, the
      truth values and the five units of time. Nothing else is a literal. */
  lemma LiteralsExactly(g: Env, x: Lexeme)
    ensures x.tok in {STRING, SINGLEQUOTE} ==> LiteralOf(g, x) == Some(StringLiteral(x.lit))
    ensures x.tok.INTEGER? ==> LiteralOf(g, x) == Some(IntegerLiteral(x.lit))
    ensures x.tok.NUMBER? ==> (LiteralOf(g, x) == Some(NumberLiteral(x.lit)) <==> g.floatOk(x.lit))
    ensures LiteralOf(g, x) == Some(BooleanLiteral(true)) <==> x.tok.TRUE?
    ensures LiteralOf(g, x) == Some(BooleanLiteral(false)) <==> x.tok.FALSE?
    ensures x.tok in {DD, HH, MI, SS, MS} <==> LiteralOf(g, x) == Some(TimeLiteral(x.tok))
    ensures LiteralOf(g, x).Some? ==> x.tok in {STRING, SINGLEQUOTE, INTEGER, NUMBER, TRUE, FALSE, DD, HH, MI, SS, MS}
  {
  }

  /** `a.b` is the field `b` of the source `a`; once the sources are known and `a` is none of them, it
      is the field `b` of the document in the column `a`. */
  lemma QualifiedName(g: Env, tape: seq<Lexeme>, p: nat)
    requires At(tape, p).tok.IDENT? && At(tape, p + 1).tok.DOT? && At(tape, p + 2).tok.IDENT?
    ensures var (a, b) := (At(tape, p).lit, At(tape, p + 2).lit);
            var column := if g.inMeta then MetaRef("$$default", a) else FieldRef("$$default", a);
            var e := if g.sources != [] && a !in g.sources then Binary(ARROW, column, JsonFieldRef(b))
                     else if g.inMeta then MetaRef(a, b) else FieldRef(a, b);
            ParseUnary(g, tape, p, false) == Ok(e, p + 3)
  {
    UnaryCases(g, tape, p, false);
    hide ParseUnary;
  }

  /** A name alone is a column, and behind an arrow or a dot it is a field. */
  lemma PlainName(g: Env, tape: seq<Lexeme>, p: nat, sub: bool)
    requires At(tape, p).tok.IDENT? && !At(tape, p + 1).tok.LPAREN? && (At(tape, p + 1).tok.DOT? ==> sub)
    ensures var a := At(tape, p).lit;
            var e := if sub then JsonFieldRef(a) else if g.inMeta then MetaRef("$$default", a) else FieldRef("$$default", a);
            ParseUnary(g, tape, p, sub) == Ok(e, p + 1)
  {
    UnaryCases(g, tape, p, sub);
    hide ParseUnary;
  }

  /** The names in a list, in order; commas may be missing or repeated. */
  function NamesIn(s: seq<Lexeme>): seq<string> {
    if s == [] then [] else (if s[0].tok.IDENT? then [s[0].lit] else []) + NamesIn(s[1..])
  }

  ghost predicate IsNameList(tape: seq<Lexeme>, p: nat, q: nat) {
    && p < q <= |tape| && tape[q - 1].tok.RPAREN?
    && (forall i | p <= i < q - 1 :: tape[i].tok.IDENT? || tape[i].tok.COMMA?)
  }

  /** A list of names ends at the first parenthesis after nothing but names and commas, and gives
      exactly its names. */
  lemma {:induction false} NamesExactly(tape: seq<Lexeme>, p: nat, q: nat, names: seq<string>)
    ensures (ParseNames(tape, p, names).Ok? && ParseNames(tape, p, names).next == q) <==> IsNameList(tape, p, q)
    ensures IsNameList(tape, p, q) ==> ParseNames(tape, p, names) == Ok(names + NamesIn(tape[p..q - 1]), q)
    decreases Left(tape, p)
  {
    var x := At(tape, p);
    if x.tok.IDENT? || x.tok.COMMA? {
      var more := if x.tok.IDENT? then names + [x.lit] else names;
      NamesExactly(tape, p + 1, q, more);
      if IsNameList(tape, p, q) {
        assert tape[p..q - 1][1..] == tape[p + 1..q - 1];
        assert more + NamesIn(tape[p + 1..q - 1]) == names + NamesIn(tape[p..q - 1]);
      }
    } else if IsNameList(tape, p, q) {
      assert q == p + 1 && tape[p..q - 1] == [] && names + [] == names;
    }
  }
}

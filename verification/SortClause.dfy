/** ORDER BY: a printed list of sort fields reads back, each with its names and its direction. */
module SortClauses {
  import opened Tokens
  import opened ExprTrees
  import opened ExprGrammar
  import opened ExprPrinter

  predicate IsRef(e: Expr) {
    e.FieldRef? || e.MetaRef?
  }

  /** The names a field is known by: those of the reference its expression starts with. */
  function NamesOf(e: Expr): (n: seq<string>)
    requires IsRef(e)
    ensures 1 <= |n| <= 2
  {
    if e.stream == DefaultStream then [e.name] else [e.stream, e.name]
  }

  predicate ReadableSort(g: Env, f: SortField) {
    Readable(g, f.e) && IsRef(First(f.e)) && f.names == NamesOf(First(f.e))
  }

  /** Descending is always written, ascending only if it is wanted. */
  function PrintDirection(ascending: bool, written: bool): seq<Lexeme> {
    if !ascending then Key(DESC) else if written then Key(ASC) else []
  }

  function PrintSort(f: SortField, written: bool): seq<Lexeme> {
    PrintExpr(f.e) + PrintDirection(f.ascending, written)
  }

  function PrintSortList(fs: seq<SortField>, written: bool): seq<Lexeme> {
    if fs == [] then [] else PrintSort(fs[0], written) + PrintMore(fs[1..], written)
  }

  function PrintMore(fs: seq<SortField>, written: bool): seq<Lexeme> {
    if fs == [] then [] else Key(COMMA) + (PrintSort(fs[0], written) + PrintMore(fs[1..], written))
  }

  function PrintSorts(fs: seq<SortField>, written: bool): seq<Lexeme> {
    Key(ORDER) + (Key(BY) + PrintSortList(fs, written))
  }

  /** What may follow the fields. */
  predicate EndsSorts(tok: Token) {
    Stops(tok) && !tok.COMMA? && !tok.IDENT? && !tok.DESC? && !tok.ASC?
  }

  /** What may follow one field: a comma, too. */
  predicate EndsField(tok: Token) {
    Stops(tok) && !tok.IDENT? && !tok.DESC? && !tok.ASC?
  }

  /** A list of sort fields reads back as itself, and what follows it stays unread. */
  lemma {:induction false} SortsRoundTrip(g: Env, tape: seq<Lexeme>, p: nat, fs: seq<SortField>, written: bool)
    requires (forall f | f in fs :: ReadableSort(g, f)) && HasAt(tape, p, PrintSorts(fs, written))
    requires EndsSorts(At(tape, p + |PrintSorts(fs, written)|).tok)
    ensures ParseSorts(g, tape, p) == Ok(fs, p + |PrintSorts(fs, written)|)
  {
    hide ParseSortList, ReadableSort, PrintMore, PrintSort, HasAt, EndsSorts, Mark;
    var list := PrintSortList(fs, written);
    LexemeThen(tape, p, Mark(ORDER), Key(BY) + list);
    LexemeThen(tape, p + 1, Mark(BY), list);
    if fs == [] {
      ListEnds(g, tape, p + 2, fs);
    } else {
      SplitAt(tape, p + 2, PrintSort(fs[0], written), PrintMore(fs[1..], written));
      MoreFollows(tape, p + 2 + |PrintSort(fs[0], written)|, fs[1..], written);
      FieldRoundTrip(g, tape, p + 2, [], fs[0], written);
      MoreRoundTrip(g, tape, p + 2 + |PrintSort(fs[0], written)|, [fs[0]], fs[1..], written);
      assert [fs[0]] + fs[1..] == fs && [] + [fs[0]] == [fs[0]];
    }
  }

  lemma ListEnds(g: Env, tape: seq<Lexeme>, p: nat, acc: seq<SortField>)
    requires EndsSorts(At(tape, p).tok)
    ensures ParseSortList(g, tape, p, acc) == Ok(acc, p)
  {
  }

  /** After one field comes a comma or the end. */
  lemma MoreFollows(tape: seq<Lexeme>, p: nat, fs: seq<SortField>, written: bool)
    requires HasAt(tape, p, PrintMore(fs, written)) && EndsSorts(At(tape, p + |PrintMore(fs, written)|).tok)
    ensures EndsField(At(tape, p).tok)
  {
    if fs != [] {
      LexemeThen(tape, p, Mark(COMMA), PrintSort(fs[0], written) + PrintMore(fs[1..], written));
    }
  }

  lemma {:induction false} MoreRoundTrip(g: Env, tape: seq<Lexeme>, p: nat, acc: seq<SortField>, fs: seq<SortField>,
      written: bool)
    requires (forall f | f in fs :: ReadableSort(g, f)) && HasAt(tape, p, PrintMore(fs, written))
    requires EndsSorts(At(tape, p + |PrintMore(fs, written)|).tok)
    ensures ParseSortList(g, tape, p, acc) == Ok(acc + fs, p + |PrintMore(fs, written)|)
    decreases |fs|
  {
    hide ParseSortList, ReadableSort, PrintSort, HasAt, EndsSorts, Mark;
    if fs == [] {
      ListEnds(g, tape, p, acc);
      assert acc + fs == acc;
    } else {
      var one, rest := PrintSort(fs[0], written), PrintMore(fs[1..], written);
      assert PrintMore(fs, written) == Key(COMMA) + (one + rest);
      hide PrintMore;
      LexemeThen(tape, p, Mark(COMMA), one + rest);
      SplitAt(tape, p + 1, one, rest);
      MoreFollows(tape, p + 1 + |one|, fs[1..], written);
      CommaSkipped(g, tape, p, acc);
      FieldRoundTrip(g, tape, p + 1, acc, fs[0], written);
      MoreRoundTrip(g, tape, p + 1 + |one|, acc + [fs[0]], fs[1..], written);
      assert acc + [fs[0]] + fs[1..] == acc + fs;
    }
  }

  lemma CommaSkipped(g: Env, tape: seq<Lexeme>, p: nat, acc: seq<SortField>)
    requires At(tape, p).tok.COMMA?
    ensures ParseSortList(g, tape, p, acc) == ParseSortList(g, tape, p + 1, acc)
  {
  }

  lemma DirectionsStop()
    ensures Stops(DESC) && Stops(ASC)
  {
  }

  /** One field, with or without its direction. */
  lemma {:induction false} FieldRoundTrip(g: Env, tape: seq<Lexeme>, p: nat, acc: seq<SortField>, f: SortField,
      written: bool)
    requires ReadableSort(g, f) && HasAt(tape, p, PrintSort(f, written))
    requires EndsField(At(tape, p + |PrintSort(f, written)|).tok)
    ensures At(tape, p).tok.IDENT?
    ensures ParseSortList(g, tape, p, acc) == ParseSortList(g, tape, p + |PrintSort(f, written)|, acc + [f])
  {
    DirectionsStop();
    hide ParseExpr, PrintExpr, Readable, HasAt, First, Mark, Stops, Sections, NamesOf, ParseSortList;
    var text, direction := PrintExpr(f.e), PrintDirection(f.ascending, written);
    SplitAt(tape, p, text, direction);
    if direction != [] {
      LexemeAt(tape, p + |text|, direction[0]);
    }
    assert Stops(At(tape, p + |text|).tok);
    NamesRead(g, tape, p, f.e);
    ExprRoundTrip(g, tape, p, f.e);
    FieldStep(g, tape, p, acc, f.names, f.e, p + |text|);
    assert SortField(f.names, f.ascending, f.e) == f;
  }

  lemma FieldStep(g: Env, tape: seq<Lexeme>, p: nat, acc: seq<SortField>, n: seq<string>, e: Expr, q: nat)
    requires At(tape, p).tok.IDENT? && 1 <= |n| <= 2 && Sections(tape, p, false) == Ok(n, p + if |n| == 2 then 3 else 1)
    requires ParseExpr(g, tape, p) == Ok(e, q)
    ensures var dir := At(tape, q).tok;
            var q2 := if dir.DESC? || dir.ASC? then q + 1 else q;
            ParseSortList(g, tape, p, acc) == ParseSortList(g, tape, q2, acc + [SortField(n, !dir.DESC?, e)])
  {
    hide ParseExpr, Sections;
  }

  /** The names at the start of a readable expression. */
  lemma {:induction false} NamesRead(g: Env, tape: seq<Lexeme>, p: nat, e: Expr)
    requires Readable(g, e) && IsRef(First(e)) && HasAt(tape, p, PrintExpr(e))
    requires Stops(At(tape, p + |PrintExpr(e)|).tok)
    ensures At(tape, p).tok.IDENT?
    ensures var n := NamesOf(First(e)); Sections(tape, p, false) == Ok(n, p + if |n| == 2 then 3 else 1)
  {
    hide Readable, ReadableTree, PrintTree, HasAt, IsOperator, Mark;
    ReadableParts(g, e);
    RefStarts(g, tape, p, e);
  }

  lemma {:induction false} RefStarts(g: Env, tape: seq<Lexeme>, p: nat, e: Expr)
    requires ReadableTree(g, e, None) && IsRef(First(e)) && HasAt(tape, p, PrintTree(e, None))
    requires Ends(At(tape, p + |PrintTree(e, None)|).tok)
    ensures At(tape, p).tok.IDENT?
    ensures var n := NamesOf(First(e)); Sections(tape, p, false) == Ok(n, p + if |n| == 2 then 3 else 1)
    decreases e
  {
    hide Mark;
    if e.Binary? {
      var l, r := PrintTree(e.lhs, None), PrintTree(e.rhs, Some(e.op));
      SplitAt(tape, p, l, r);
      TailStarts(g, e.rhs, e.op);
      assert At(tape, p + |l|) == r[0] by { assert tape[p + |l|..p + |l| + |r|][0] == tape[p + |l|]; }
      RefStarts(g, tape, p, e.lhs);
    } else {
      RefRead(tape, p, e);
    }
  }

  lemma RefRead(tape: seq<Lexeme>, p: nat, e: Expr)
    requires IsRef(e) && HasAt(tape, p, PrintRef(e.stream, e.name))
    requires Ends(At(tape, p + |PrintRef(e.stream, e.name)|).tok)
    ensures At(tape, p).tok.IDENT?
    ensures var n := NamesOf(e); Sections(tape, p, false) == Ok(n, p + if |n| == 2 then 3 else 1)
  {
    hide HasAt, Mark;
    if e.stream == DefaultStream {
      LexemeAt(tape, p, Lexeme(IDENT, e.name));
    } else {
      LexemeThen(tape, p, Lexeme(IDENT, e.stream), Key(DOT) + Ident(e.name));
      LexemeThen(tape, p + 1, Mark(DOT), Ident(e.name));
      LexemeAt(tape, p + 2, Lexeme(IDENT, e.name));
    }
  }
}

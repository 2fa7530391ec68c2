# eKuiper: the SQL front end, shared sub-topologies, schema installation, evaluation, rows and sorting

A Dafny model of five parts of eKuiper, a streaming SQL engine, with proofs about them.

- **Expressions.** `TokenBuffer` is the parser's three-slot ring; `ExprGrammar` says what the parser
  reads on a tape of lexemes; `ExprParser` reads through the ring and grows the operator tree in place
  on the heap, and is proved equal to the grammar. `ExprTree` and `ParsedTree` show which tree that is,
  `ExprPrinter` that printed trees parse back, `Reparse` that whatever is accepted can be written out and
  parses to the same tree, `Brackets` that only well-bracketed text is accepted, `Desugar` and `EarlyLate`
  when resolving `a.b` while parsing or afterwards gives the same tree; `GrammarForms`, `Conditions` and
  `SortClause` cover single forms. `Lexer` and `Scanner` are the scanner, `KeywordTable`, `StringTexts`,
  `LexerForms` and `LexerPrinter` say what it reads, and `TextRoundTrip` goes from tree to text and back.
  `TypeGrammar` and `TypeParser` cover the types of stream fields.
- **Shared sub-topologies.** `PoolMachine` is the pool as a state machine over its locked sections,
  `PoolTheorems` which references are held, `PoolLife` what becomes of one sub-topology, `PoolSafety` who keeps its source and `PoolRuns` who can
  lose it, `PoolCancel` what many callers cancelling at once leave, `SubTopo` the same sections on heap
  objects, `Topo` the life of one rule run.
- **Schema installation.** `SchemaInstall`: commit and rollback over a file system whose operations fail.
- **Evaluation.** `Values`, `Evaluation`, `Evaluator`: expressions on a row with remembered aliases;
  `ExpressionLaws`: what each form of expression gives; `AliasMemo`: remembering does not show;
  `CompoundForms`: IN, BETWEEN and CASE against their expansions.
- **Rows and sorting.** `Rows`: lookup, export and projection; `Sorter`: the multi-key order and the sort.

Functions state what the program computes; methods in the form of the source are proved equal to
them; the theorems are about the functions.

## What the proofs turned up

- Early and late resolution of `a.b` differ for a qualifier written as the reserved name for "no
  source", in back quotes, if the expression keeps it. `EarlyLate.EarlyIsLateExactly` gives the exact
  condition for every expression.
- The chained close runs after the locks are released, and the reference it releases carries only the
  name of the destroyed sub-topology. If a rule has planned one of the same name on the same source in
  between, opened or not, the close takes its reference, and destroys the source if that was the last
  one: `PoolSafety.ChainedCloseIsSafe` gives the exact condition, `PoolRuns.ReplacedBeforeOpening` such
  a run. If the second rule has taken the reference and not yet published the sub-topology, nothing in
  the pool tells, and it publishes one on a source that is closed: `PoolRuns.PublishedTooLate`. With
  this, `PoolSafety.StepFed` lists exactly the steps after which somebody is in use without a source.
- One of them needs no race: a rule whose planning fails after it took the connection's reference gives
  it back, although the running stream of another rule reads through the same reference.
  `PoolRuns.FailedPlanRobs`.
- Of several callers that cancel one run, one can be through while another still owes a chained close;
  the pool is then not yet what a cancel leaves. `PoolCancel.ConcurrentCancels` gives the exact
  condition, `PoolRuns.ThroughTooEarly` such a run.
- A graceful stop whose save request is refused has already closed the run and returns without ever
  cleaning up; no later call does (`Topos.LifeExactly`). A request is refused only while another
  one is under way (`internal/topo/checkpoint/coordinator.go:284-287`); no path outside the tests was
  found on which that is so when the one winning stop asks.
- Boolean sort fields never decide: comparing two booleans with `<` is an error, which counts as
  "not less" (`Sorter.BooleansSettleNothing`). Two missing values end the comparison, and later fields
  are not looked at.
- `x BETWEEN 1 AND 2 + 3` parses with `+ 3` applied to the range, since the bounds are operands only
  (`ParsedTree.SumAfterBetween`).
- A minus followed by blanks and a dot that starts no number drops the dot (`Lexer.MinusDotText`); `!`
  without `=` scans as `=` (`Lexer.BangText`).
- In a single-quoted literal the scanner takes the character behind an escaped quote as it is, too. A literal
  that ends in an escaped quote, or has another quote behind one, is not closed where it should be or is no
  literal: `StringTexts.SingleRun` gives the exact condition, `StringTexts.EscapedQuoteAtEnd` the shortest one.
- IN is accepted before any operand. Behind an arrow it makes a tree that no other text gives:
  `Reparse.ArrowBeforeIn`. Apart from such forms, what is accepted reads back (`Reparse.ParsedReadsBack`).
- An alias that has the name of a column hides the column once it is computed, so the order of
  evaluation shows. `AliasMemo.TransparentExactly` gives the exact condition.
- IN, BETWEEN and CASE differ from their expansions in a few cases with missing or failing operands,
  which `CompoundForms` lists exactly.
- An empty struct type can be printed but not read back inside another type.

## Model

| member | source | states |
|---|---|---|
| TokenBuffers.TokenBuffer.constructor | internal/xsql/parser.go:117-123 | a new buffer stands at the start of the tape of significant lexemes, with nothing pending |
| TokenBuffers.TokenBuffer.Curr | internal/xsql/parser.go:96-100 | the slot arithmetic finds the lexeme as many places behind the newest as are pending |
| TokenBuffers.TokenBuffer.Fetch | internal/xsql/parser.go:79-94 | one lexeme of the scanner, blanks included; a significant one is the next of the tape |
| TokenBuffers.TokenBuffer.Store | internal/xsql/parser.go:83-90 | the newest lexeme goes into the next slot, the two before it stay |
| TokenBuffers.TokenBuffer.Scan | internal/xsql/parser.go:79-94 | the ring refines a tape with a cursor: a pending lexeme again or the next of the scanner, in either case the lexeme at the cursor |
| TokenBuffers.TokenBuffer.ScanIgnoreWhitespace | internal/xsql/parser.go:102-113 | always the lexeme at the cursor of the tape without blanks and comments, and the cursor one on, at the end of input too |
| TokenBuffers.TokenBuffer.Unscan | internal/xsql/parser.go:115 | the cursor goes back by one; every caller proves that fewer than three lexemes are pending |
| TokenBuffers.TapeStep | internal/xsql/parser.go:102-113 | what the scanner yields next, seen on the tape |
| TokenBuffers.TapeIsSignificant | internal/xsql/parser.go:102-113 | no blank or comment is ever on the tape |
| Tokens.Precedence | pkg/ast/token.go:311-325 | no operator binds more tightly than the arrow |
| Tokens.SignificantKeeps | internal/xsql/parser.go:102-113 | what the parser sees has no blank and no comment in it, and all else is kept |
| Tokens.SignificantJoins | internal/xsql/parser.go:102-113 | piece by piece |
| ExprTrees.InsertReads | internal/xsql/parser.go:531-628 | one insertion on the right spine appends exactly the operator and its operand to the in-order reading and keeps the precedence order |
| ExprTrees.InsertAllReads | internal/xsql/parser.go:531-628 | the whole loop: the tree reads, in order, as exactly the operands and operators put in, and is ordered |
| ExprTrees.RootIsLastLowest | internal/xsql/parser.go:531-628 | the root of an ordered tree is the last operator of lowest precedence of its reading |
| ExprTrees.LastLowestIsUnique | internal/xsql/parser.go:531-628 | that operator is unique |
| ExprTrees.OrderedIsUnique | internal/xsql/parser.go:531-628 | two ordered trees with one reading are equal |
| ExprTrees.FindLastLowest | internal/xsql/parser.go:531-628 | finds that operator |
| ExprTrees.JoinReads | internal/xsql/parser.go:531-628 | joining two ordered trees at the last lowest operator gives an ordered tree with the joined reading |
| ExprTrees.SplitParseReads | internal/xsql/parser.go:531-628 | the reference parse, which splits at the last lowest operator, is ordered and has the given reading |
| ExprTrees.InsertionIsSplitParse | internal/xsql/parser.go:531-628 | for every sequence of operands and operators, insertion on the right spine gives the tree of the reference parse |
| ExprTrees.RebuildOrdered | internal/xsql/parser.go:531-628 | inserting the reading of an ordered tree rebuilds the tree |
| ParsedTree.LoopInsertsItems | internal/xsql/parser.go:541-626 | the operator loop inserts exactly the operators and operands that stand on the tape, in order |
| ParsedTree.TopAtLeast | internal/xsql/parser.go:619-626 | no operator on top binds less tightly than all that were put in |
| ParsedTree.InsertBelow | internal/xsql/parser.go:619-626 | operators that bind more tightly than the root go below it |
| ParsedTree.TightIsSplitParse | internal/xsql/parser.go:619-626 | insertion is the reference parse for all operands the parser can read, references already rewritten to an arrow included |
| ParsedTree.ParsedIsSplitParse | internal/xsql/parser.go:531-628 | for every tape, with the source names known or not: the parser returns the reference parse of the first operand and the items on the tape, ends after them, and fails if they cannot be read |
| ParsedTree.UnaryIsOperand | internal/xsql/parser.go:653-743 | while no source names are known, an operand is never an operator node |
| ParsedTree.ParsedReadsTape | internal/xsql/parser.go:531-628 | then the tree is ordered and reads, in order, as exactly what stands on the tape |
| ParsedTree.SumAfterBetween | internal/xsql/parser.go:582-599 | the tokens of x BETWEEN 1 AND 2 + 3 parse with the sum on top of the bounds |
| ParsedTree.OperatorsOnRungs | pkg/ast/token.go:302-325 | the five classes of operators from OR to the products are the precedences, and which tokens are read as operators |
| ParsedTree.Grouping | internal/xsql/parser.go:619-626 | of two operators in a row the tighter one takes the operand between them, the first one if they are of one class |
| ParsedTree.ThreeOperandsGroup | internal/xsql/parser.go:531-628 | so do the tokens of x op y op z parse, for any two operators that are one token |
| ExprGrammar.ParseExpr | internal/xsql/parser.go:531-628 | progress: reading an expression fails or ends further on (at the same place if nothing was read), within the tape |
| ExprGrammar.ParseOperators | internal/xsql/parser.go:531-628 | progress: reading operators with their operands (perhaps none) fails or ends further on (at the same place if nothing was read), within the tape |
| ExprGrammar.ParseRange | internal/xsql/parser.go:630-651 | progress: reading the two bounds of BETWEEN fails or ends further on (at the same place if nothing was read), within the tape |
| ExprGrammar.ParseUnary | internal/xsql/parser.go:653-743 | progress: reading an operand (an operator node only as an arrow) fails or ends further on (at the same place if nothing was read), within the tape |
| ExprGrammar.ParseAsterisk | internal/xsql/parser.go:1699-1765 | progress: reading what follows an asterisk (perhaps nothing) fails or ends further on (at the same place if nothing was read), within the tape |
| ExprGrammar.ParseNames | internal/xsql/parser.go:1699-1765 | progress: reading a list of names in parentheses fails or ends further on (at the same place if nothing was read), within the tape |
| ExprGrammar.ParseValueSet | internal/xsql/parser.go:745-781 | progress: reading what follows IN fails or ends further on (at the same place if nothing was read), within the tape |
| ExprGrammar.ParseElements | internal/xsql/parser.go:745-781 | progress: reading the elements of a written-out set fails or ends further on (at the same place if nothing was read), within the tape |
| ExprGrammar.ParseBracket | internal/xsql/parser.go:783-819 | progress: reading an index or a slice fails or ends further on (at the same place if nothing was read), within the tape |
| ExprGrammar.ParseBracketEnd | internal/xsql/parser.go:783-819 | progress: reading what follows its start fails or ends further on (at the same place if nothing was read), within the tape |
| ExprGrammar.ParseColon | internal/xsql/parser.go:821-848 | progress: reading the end of a slice fails or ends further on (at the same place if nothing was read), within the tape |
| ExprGrammar.ParseCase | internal/xsql/parser.go:983-1044 | progress: reading a CASE fails or ends further on (at the same place if nothing was read), within the tape |
| ExprGrammar.ParseWhens | internal/xsql/parser.go:983-1044 | progress: reading its clauses fails or ends further on (at the same place if nothing was read), within the tape |
| ExprGrammar.ParseWhen | internal/xsql/parser.go:983-1044 | progress: reading one clause fails or ends further on (at the same place if nothing was read), within the tape |
| ExprGrammar.ParseSortField | internal/xsql/parser.go:397-452 | progress: reading one sort field fails or ends further on (at the same place if nothing was read), within the tape |
| ExprGrammar.Sections | internal/xsql/parser.go:275-297 | one or two name sections, read within the tape |
| ExprGrammar.OperatorStep | internal/xsql/parser.go:531-628 | an operator is one lexeme or NOT with its operator, and its operand starts after it, or at it for IN and brackets |
| ExprGrammar.UnaryCases | internal/xsql/parser.go:653-743 | which routine reads an operand is settled by its first lexeme |
| ExprGrammar.ParseSorts | internal/xsql/parser.go:397-402 | ORDER must come before BY; without ORDER nothing is read |
| GrammarForms.ShortSlices | internal/xsql/parser.go:783-848 | an empty bracket and a lone colon are the slice from the start to the end |
| GrammarForms.LiteralsExactly | internal/xsql/parser.go:724-742 | which tokens are literals, and of which kind |
| GrammarForms.QualifiedName | internal/xsql/parser.go:676-723 | a.b is a field of the source a, or of the document in the column a if the sources are known and a is none of them |
| GrammarForms.PlainName | internal/xsql/parser.go:676-723 | a name alone is a column, behind an arrow or a dot it is a field |
| GrammarForms.NamesExactly | internal/xsql/parser.go:1699-1765 | a list of names ends at the first parenthesis after nothing but names and commas, and gives exactly its names |
| Brackets.ExprMatches | internal/xsql/parser.go:531-628 | the parser accepts only text whose brackets match: round and square ones, CASE with END, WHEN with THEN, BETWEEN with its AND, nested in each other |
| Brackets.OperatorsMatch | internal/xsql/parser.go:541-626 | the same for operators with their operands |
| Brackets.RangeMatches | internal/xsql/parser.go:630-651 | the AND of a BETWEEN closes it |
| Brackets.UnaryMatches | internal/xsql/parser.go:653-743 | the same for an operand |
| Brackets.NamesMatch | internal/xsql/parser.go:1699-1765 | for a list of excepted names |
| Brackets.ElementsMatch | internal/xsql/parser.go:745-781 | for the elements of a set |
| Brackets.BracketMatches | internal/xsql/parser.go:783-819 | for an index or a slice |
| Brackets.ColonMatches | internal/xsql/parser.go:821-848 | for the end of a slice |
| Brackets.WhensMatch | internal/xsql/parser.go:983-1044 | for the clauses of CASE |
| Brackets.WhenMatches | internal/xsql/parser.go:983-1044 | each WHEN has its THEN |
| Reparse.ParsedReadsBack | internal/xsql/parser.go:531-628 | whatever the parser accepts on a tape without the odd forms named there can be written out, and its text parses to the same tree |
| Reparse.ExprIsReadable | internal/xsql/parser.go:531-628 | the tree it returns is one of those that read back: operands fit their operators, patterns, numbers and conditions have been checked |
| Reparse.OperandIsReadable | internal/xsql/parser.go:552-618 | every operator has an operand of its kind |
| Reparse.UnaryKinds | internal/xsql/parser.go:653-743 | what an operand can be, from its first lexeme |
| Reparse.UnaryIsReadable | internal/xsql/parser.go:653-743 | every operand that is read can be read back |
| Reparse.BracketIsReadable | internal/xsql/parser.go:783-848 | integers in brackets stand alone and are in range |
| Reparse.WhensAreReadable | internal/xsql/parser.go:983-1044 | without a compared value every condition is a boolean one |
| Reparse.ArrowBeforeIn | internal/xsql/parser.go:745-781 | an odd form: the tree of a -> IN x is written as a -> x, which is another tree |
| ExprParser.InsertIntoChain | internal/xsql/parser.go:619-626 | insertion cuts the right spine at the first operator that does not bind less tightly and makes what is below it the left operand |
| ExprParser.Spine.constructor | internal/xsql/parser.go:533-538 | the tree under construction starts as the first operand alone |
| ExprParser.Spine.Descend | internal/xsql/parser.go:583-592 | walking the heap nodes down stops at the place for the operator: all above bind less tightly, the next one does not |
| ExprParser.Spine.Collapse | internal/xsql/parser.go:619-626 | the value of what becomes a left operand |
| ExprParser.Spine.Attach | internal/xsql/parser.go:619-626 | replacing one right operand in place turns the tree into its insertion |
| ExprParser.Spine.Grow | internal/xsql/parser.go:619-626 | one turn of the loop on the heap is one insertion on the tree |
| ExprParser.Spine.Result | internal/xsql/parser.go:541-544 | the value of the finished tree |
| ExprParser.ReadOperator | internal/xsql/parser.go:541-582 | reads what stands at the cursor: no operator, an operator, a range, or a NOT that stands before none of IN, BETWEEN and LIKE |
| ExprParser.ParseExpression | internal/xsql/parser.go:531-628 | the loop over ring and heap returns what the grammar reads on the tape, ends where it ends, fails where it fails, and leaves the terminator pending |
| ExprParser.TakeTurn | internal/xsql/parser.go:552-626 | one turn of the loop keeps what the grammar would read from here |
| ExprParser.ParseBetween | internal/xsql/parser.go:630-651 | equals the grammar for the bounds of BETWEEN |
| ExprParser.ParseUnaryExpr | internal/xsql/parser.go:653-743 | equals the grammar for an operand |
| ExprParser.ParsePlainUnary | internal/xsql/parser.go:672-743 | equals the grammar for an operand without bracket, parenthesis or IN, read again after one step back |
| ExprParser.ParseParenExpr | internal/xsql/parser.go:653-664 | equals the grammar for a parenthesis |
| ExprParser.ParseReference | internal/xsql/parser.go:676-723 | equals the grammar for a reference, which is read a second time after two steps back |
| ExprParser.ParseFieldNameSections | internal/xsql/parser.go:275-297 | equals the grammar for name sections |
| ExprParser.ParseWildcard | internal/xsql/parser.go:1699-1765 | equals the grammar for an asterisk |
| ExprParser.ParseExceptClauses | internal/xsql/parser.go:1699-1765 | equals the grammar for its EXCEPT lists |
| ExprParser.ParseExcept | internal/xsql/parser.go:1699-1765 | equals the grammar for one list of names |
| ExprParser.ParseValueSetExpr | internal/xsql/parser.go:745-781 | equals the grammar for what follows IN |
| ExprParser.ParseElementList | internal/xsql/parser.go:745-781 | equals the grammar for the elements of a set |
| ExprParser.ParseBracketExpr | internal/xsql/parser.go:783-819 | equals the grammar for an index or a slice |
| ExprParser.ParseBracketEndExpr | internal/xsql/parser.go:783-819 | equals the grammar for what follows the start of a slice |
| ExprParser.ParseColonExpr | internal/xsql/parser.go:821-848 | equals the grammar for the end of a slice |
| ExprParser.ParseCaseExpr | internal/xsql/parser.go:983-1044 | equals the grammar for CASE |
| ExprParser.ParseWhenClauses | internal/xsql/parser.go:983-1044 | equals the grammar for its clauses |
| ExprParser.ParseWhenClause | internal/xsql/parser.go:983-1044 | equals the grammar for one clause |
| ExprParser.ParseSortFields | internal/xsql/parser.go:397-452 | equals the grammar for ORDER BY |
| ExprParser.ParseSortListFields | internal/xsql/parser.go:404-452 | equals the grammar for its fields |
| ExprParser.ParseOneSort | internal/xsql/parser.go:404-452 | equals the grammar for one field |
| ExprParser.ReadSortName | internal/xsql/parser.go:404-436 | after a two-part name exactly three lexemes are pending, the most the ring can hold |
| ExprPrinter.ExprRoundTrip | internal/xsql/parser.go:531-628 | flattening a precedence-ordered tree to lexemes and parsing them, before any lexeme that ends an expression, gives the tree back and leaves that lexeme unread |
| ExprPrinter.OperandRoundTrip | internal/xsql/parser.go:541-626 | one operator with its operand reads back as one insertion |
| ExprPrinter.UnaryRoundTrip | internal/xsql/parser.go:653-743 | every operand reads back |
| ExprPrinter.RangeRoundTrip | internal/xsql/parser.go:630-651 | BETWEEN and NOT BETWEEN read back |
| ExprPrinter.LikeRoundTrip | internal/xsql/parser.go:607-618 | LIKE and NOT LIKE read back |
| ExprPrinter.MemberRoundTrip | internal/xsql/parser.go:745-781 | IN and NOT IN read back |
| ExprPrinter.ParenRoundTrip | internal/xsql/parser.go:653-664 | a parenthesis reads back |
| ExprPrinter.SetRoundTrip | internal/xsql/parser.go:745-781 | a written-out set reads back |
| ExprPrinter.ElementsRoundTrip | internal/xsql/parser.go:745-781 | its elements read back |
| ExprPrinter.IndexRoundTrip | internal/xsql/parser.go:783-819 | an index reads back |
| ExprPrinter.SliceRoundTrip | internal/xsql/parser.go:783-848 | a slice reads back |
| ExprPrinter.RefRoundTrip | internal/xsql/parser.go:275-297 | a reference reads back |
| ExprPrinter.WildcardRoundTrip | internal/xsql/parser.go:1699-1765 | an asterisk with its exceptions reads back |
| ExprPrinter.CaseRoundTrip | internal/xsql/parser.go:983-1044 | a CASE reads back |
| ExprPrinter.WhensRoundTrip | internal/xsql/parser.go:983-1044 | its clauses read back |
| ExprPrinter.WhenRoundTrip | internal/xsql/parser.go:983-1044 | one clause reads back |
| Conditions.CaseTakesConditions | internal/xsql/parser.go:1004-1026 | CASE WHEN c THEN r END is accepted exactly when c is a truth value or its outermost operator is a comparison, a connective, IN, BETWEEN or LIKE; with a compared value always |
| SortClauses.SortsRoundTrip | internal/xsql/parser.go:397-452 | a printed ORDER BY reads back as itself, names and directions included, an ascending one with or without ASC |
| SortClauses.FieldRoundTrip | internal/xsql/parser.go:404-436 | the same for one field |
| SortClauses.NamesRead | internal/xsql/parser.go:275-297 | a field is known by the names its expression starts with |
| TextRoundTrip.TreeToTextAndBack | internal/xsql/parser.go:531-628 | a tree whose names, numbers and strings can be written, printed as text, is scanned and parsed back to itself, whenever no two neighbouring lexemes merge |
| TextRoundTrip.TreeIsPrintable | internal/xsql/lexical.go:36-151 | every lexeme of such a tree has a text |
| EarlyLate.ReferenceAgrees | internal/xsql/parser.go:680-717 | for one reference, early and late rewriting agree exactly unless its qualifier is the reserved default name and no source has that name |
| Desugar.InsertThenValidate | internal/xsql/sqlValidator.go:156-240 | growing the operator tree and rewriting references commute |
| EarlyLate.EarlyIsLateExactly | internal/xsql/sqlValidator.go:156-240 | for every expression: parsing with the source names known equals parsing without them and rewriting afterwards exactly unless the parse succeeds, the reserved name is no source, and the expression keeps it as a qualifier (not behind an arrow or a dot, not in an ELSE that a later one replaces) |
| EarlyLate.EarlyEndsLikeLate | internal/xsql/parser.go:531-628 | the two orders never differ in whether they fail nor in where they end |
| EarlyLate.EarlyIsLate | internal/xsql/sqlValidator.go:156-240 | so they agree on every text that nowhere qualifies a name by the reserved one |
| EarlyLate.ReservedNameDiffers | internal/xsql/parser.go:680-717 | the shortest text on which they differ, with both trees |
| EarlyLate.PairBehindArrow | internal/xsql/parser.go:600-606 | a text with such a pair behind an arrow, on which they agree |
| EarlyLate.ExprAgrees | internal/xsql/parser.go:531-628 | the exact condition for an expression, with what steers the parser kept alike |
| EarlyLate.OperatorsAgree | internal/xsql/parser.go:531-628 | for the operator loop, from two trees that may differ already |
| EarlyLate.InsertSimilar | internal/xsql/parser.go:619-626 | insertion takes the same path in both trees |
| EarlyLate.InsertInjective | internal/xsql/parser.go:619-626 | with the operator fixed, tree and operand can be told from the insertion, so a difference is never lost |
| EarlyLate.RangeAgrees | internal/xsql/parser.go:630-651 | for the bounds of BETWEEN |
| EarlyLate.UnaryAgrees | internal/xsql/parser.go:653-743 | for an operand |
| EarlyLate.ReferencesAgree | internal/xsql/parser.go:676-723 | for a reference |
| EarlyLate.ValueSetAgrees | internal/xsql/parser.go:745-781 | for what follows IN |
| EarlyLate.ElementsAgree | internal/xsql/parser.go:745-781 | for the elements of a set |
| EarlyLate.BracketAgrees | internal/xsql/parser.go:783-819 | for an index or a slice |
| EarlyLate.ColonAgrees | internal/xsql/parser.go:821-848 | for the end of a slice |
| EarlyLate.CaseAgrees | internal/xsql/parser.go:983-1044 | for a CASE |
| EarlyLate.WhensAgree | internal/xsql/parser.go:983-1044 | for its clauses, where only the last ELSE counts |
| EarlyLate.WhenAgrees | internal/xsql/parser.go:983-1044 | for one clause |
| Desugar.ValidateTwice | internal/xsql/sqlValidator.go:156-240 | rewriting is idempotent |
| Desugar.ValidateResolves | internal/xsql/sqlValidator.go:156-240 | after rewriting no reference is qualified by anything but a source |
| TypeGrammar.NamesReadBack | pkg/ast/token.go:341-369 | type names read back in either case |
| TypeGrammar.TypeNames | pkg/ast/token.go:341-369 | which word names which type, in small and capital letters |
| TypeGrammar.FieldEndsExactly | internal/xsql/parser.go:1456-1480 | what may end a field, and which defaults it may have |
| TypeGrammar.DefaultRoundTrip | internal/xsql/parser.go:1456-1480 | a field with a default reads back with it exactly when the literal suits the type |
| TypeGrammar.FieldsOpen | internal/xsql/parser.go:1369-1445 | fields stand in parentheses and start with their names |
| TypeGrammar.TypeRoundTrip | internal/processor/stream.go:652-678 | a printed type before a comma or a parenthesis reads back without its defaults and leaves that lexeme unread; with an empty struct at any depth reading fails |
| TypeGrammar.TypeRoundTripExactly | internal/processor/stream.go:652-678 | it reads back as itself exactly when it has no empty struct and no defaults |
| TypeGrammar.ArrayRoundTrip | internal/xsql/parser.go:1497-1548 | the same for arrays, before any lexeme |
| TypeGrammar.StructRoundTrip | internal/xsql/parser.go:1550-1566 | the same for structs |
| TypeGrammar.FieldsRoundTrip | internal/xsql/parser.go:1369-1429 | a list of fields reads back up to WITH, which is taken, or up to a comma or a parenthesis, which are not and then the list may not be empty |
| TypeGrammar.FieldRoundTrip | internal/xsql/parser.go:1431-1480 | one field reads back; a comma after it is taken |
| TypeGrammar.ColumnsRoundTrip | internal/xsql/parser.go:1369-1429 | the columns of a CREATE statement read back up to and including WITH, none at all too |
| TypeGrammar.ParseFields | internal/xsql/parser.go:1369-1429 | progress: reading fields fails or ends further on, within the tape |
| TypeGrammar.ParseField | internal/xsql/parser.go:1431-1480 | progress for one field |
| TypeGrammar.ParseType | internal/xsql/parser.go:1431-1455 | progress for a type |
| TypeGrammar.ParseArray | internal/xsql/parser.go:1497-1548 | progress for an array, which without its parenthesis takes one lexeme and has no type |
| TypeGrammar.ParseStruct | internal/xsql/parser.go:1550-1566 | progress for a struct |
| TypeParser.ParseStreamFields | internal/xsql/parser.go:1369-1429 | reading the fields in parentheses through the ring equals the grammar on the tape |
| TypeParser.ParseListTurn | internal/xsql/parser.go:1373-1424 | reading one turn of the loop over them through the ring equals the grammar on the tape |
| TypeParser.EndList | internal/xsql/parser.go:1392-1421 | reading what follows the closing parenthesis through the ring equals the grammar on the tape |
| TypeParser.ParseStreamField | internal/xsql/parser.go:1431-1480 | reading one field through the ring equals the grammar on the tape |
| TypeParser.ParseElementType | internal/xsql/parser.go:1503-1541 | reading the element type of an array through the ring equals the grammar on the tape |
| TypeParser.EndStreamField | internal/xsql/parser.go:1456-1480 | reading what follows the type of a field through the ring equals the grammar on the tape |
| TypeParser.ParseStreamArrayType | internal/xsql/parser.go:1497-1548 | reading an array through the ring equals the grammar on the tape |
| TypeParser.ParseArrayBody | internal/xsql/parser.go:1499-1546 | reading what stands between its parentheses through the ring equals the grammar on the tape |
| TypeParser.ParseStreamStructType | internal/xsql/parser.go:1550-1566 | reading a struct through the ring equals the grammar on the tape |
| Lexer.RunEnd | internal/xsql/lexical.go:396-409 | the run is maximal: every character in it fits and the one after it does not |
| Lexer.Scan | internal/xsql/lexical.go:36-151 | every lexeme takes at least one character while there is one |
| Lexer.CommentEndsAtFirst | internal/xsql/lexical.go:376-394 | a block comment ends at a position exactly when that is just after the first star and slash and no NUL comes before |
| Lexer.StarEndsAtFirst | internal/xsql/lexical.go:376-394 | the same after a star |
| Lexer.BangScansAsEquals | internal/xsql/lexical.go:59-66 | an exclamation mark before anything but an equals sign scans as an equals sign |
| Lexer.MinusDropsDot | internal/xsql/lexical.go:87-108 | after a minus, a dot that starts no number is dropped |
| Lexer.BangText | internal/xsql/lexical.go:59-66 | the shortest such text and its lexemes |
| Lexer.MinusDotText | internal/xsql/lexical.go:87-108 | the shortest such text and its lexemes |
| Scanners.Scanner.Read | internal/xsql/lexical.go:411-417 | the next character, NUL at the end |
| Scanners.Scanner.Unread | internal/xsql/lexical.go:419-421 | steps back once; a second step or one after the end does nothing |
| Scanners.Scanner.ScanWhiteSpace | internal/xsql/lexical.go:396-409 | takes the blanks and, if one follows, a NUL |
| Scanners.Scanner.ScanIdent | internal/xsql/lexical.go:153-256 | the longest word, as a keyword or as a name |
| Scanners.Scanner.ScanNumber | internal/xsql/lexical.go:323-354 | the longest run of digits and dots |
| Scanners.Scanner.ScanBackquoteIdent | internal/xsql/lexical.go:356-366 | everything up to the back quote |
| Scanners.Scanner.SkipUntilNewline | internal/xsql/lexical.go:368-374 | stops after the first newline |
| Scanners.Scanner.SkipUntilEndComment | internal/xsql/lexical.go:376-394 | ends where the comment ends or fails at the end of the text |
| Scanners.Scanner.SkipStars | internal/xsql/lexical.go:379-390 | the inner loop over stars |
| Scanners.Scanner.ScanString | internal/xsql/lexical.go:258-306 | the literal with its quotes rewritten, undone by the given function |
| Scanners.Scanner.ReadQuoted | internal/xsql/lexical.go:258-296 | the state machine over escapes and quotes |
| Scanners.Scanner.Scan | internal/xsql/lexical.go:36-151 | one lexeme, the same and ending at the same place as the scanning function |
| Scanners.Scanner.ScanAfter | internal/xsql/lexical.go:59-119 | the symbols that look past blanks for a second character |
| Scanners.Scanner.ScanAfterMinus | internal/xsql/lexical.go:87-108 | a minus, an arrow, a comment or a negative fraction |
| LexerPrinter.ScansBack | internal/xsql/lexical.go:36-151 | a printed lexeme that does not merge with what follows scans back, ending after its text or after the space |
| LexerPrinter.TextScansBack | internal/xsql/lexical.go:36-151 | text of lexemes that stand apart scans back to them from wherever it starts |
| LexerPrinter.PrintThenScan | internal/xsql/lexical.go:36-151 | printing a list of names, keywords, symbols, unsigned numbers and string literals with single spaces and scanning it gives the list back, whenever no two neighbours merge |
| LexerPrinter.PairExactly | internal/xsql/lexical.go:70-119 | for two lexemes it does so exactly when they do not merge |
| LexerPrinter.NumberScans | internal/xsql/lexical.go:323-354 | unsigned numbers scan back |
| LexerPrinter.WordScans | internal/xsql/lexical.go:153-256 | names and keywords scan back |
| LexerPrinter.QuotedScans | internal/xsql/lexical.go:356-366 | names in back quotes scan back |
| LexerPrinter.PairScans | internal/xsql/lexical.go:59-119 | the symbols that look ahead scan back |
| LexerPrinter.StringScans | internal/xsql/lexical.go:258-306 | string literals in either quotes scan back |
| LexerPrinter.MarkScans | internal/xsql/lexical.go:59-151 | keywords and symbols as they are spelled scan back as the tokens they spell |
| LexerPrinter.WordExactly | internal/xsql/lexical.go:153-256 | a word in whatever case is a keyword exactly when its capitals are the spelling of one, and a name otherwise |
| LexerPrinter.NeverScanned | internal/xsql/lexical.go:36-151 | five tokens come from the parser only |
| KeywordTable.KeywordExactly | internal/xsql/lexical.go:165-254 | a word has a token of its own exactly when it is the spelling of that token |
| KeywordTable.SpellingIsInjective | pkg/ast/token.go:115-203 | no two tokens are spelled alike |
| StringTexts.DoubleRun | internal/xsql/lexical.go:258-296 | a double-quoted literal is kept as it is up to the quote that closes it, escaped quotes skipped |
| StringTexts.SingleRun | internal/xsql/lexical.go:258-296 | a single-quoted literal becomes the double-quoted one of the same text exactly when no quote in it is followed, after any backslashes, by another quote or the end |
| StringTexts.EscapedQuoteAtEnd | internal/xsql/lexical.go:283-291 | the shortest single-quoted literal that is left open by an escaped quote at its end |
| LexerForms.BlanksScan | internal/xsql/lexical.go:396-409 | blanks are one lexeme up to the first character that is none |
| LexerForms.LineCommentScans | internal/xsql/lexical.go:87-92 | two minus signs make a comment to the end of the line |
| LexerForms.BlockCommentScans | internal/xsql/lexical.go:109-119 | a block comment is one lexeme, one that is not closed an error |
| LexerForms.NegativeFractionScans | internal/xsql/lexical.go:95-103 | minus, dot and digits are one negative number |
| LexerForms.StrayCharacter | internal/xsql/lexical.go:150 | a character that starts nothing is an error by itself |
| LexerForms.WordScans | internal/xsql/lexical.go:153-165 | a word is the longest run of letters, digits and underscores |
| LexerForms.NulScans | internal/xsql/lexical.go:56-58 | a NUL reads as the end |
| LexerForms.BadLiterals | internal/xsql/lexical.go:283-305 | a literal that is not closed or cannot be unquoted is none |
| PoolMachine.UpdateRefAdds | internal/topo/subtopo.go:163-189 | the nested maps take the pair (rule, run) in, unless the sub-topology is closed, and no run map is empty |
| PoolMachine.RemoveRefRemoves | internal/topo/subtopo.go:191-207 | removal takes exactly that pair away and leaves no empty run map; it destroys exactly when the last pair goes |
| PoolMachine.NoRefs | internal/topo/subtopo.go:191-207 | no rule entries means no references |
| PoolMachine.Open | internal/topo/subtopo.go:73-141 | opening changes no pool entry and no identity, and nothing that was built later |
| PoolMachine.GetKeeps | internal/topo/subtopo_pool.go:35-65 | get-or-create keeps the invariant and touches nothing destroyed |
| PoolMachine.OpenEvolves | internal/topo/subtopo.go:73-141 | opening, and the opens it causes along the chain of sources, keep every sub-topology referenced or destroyed as it was |
| PoolMachine.CloseKeeps | internal/topo/subtopo_pool.go:88-126 | closing keeps the invariant; a source to be closed next comes only from the one just destroyed |
| PoolMachine.ClosingKeeps | internal/topo/subtopo_pool.go:88-138 | with the chained close still to come |
| PoolMachine.StepKeeps | internal/topo/subtopo_pool.go:35-138 | every step keeps: the pool maps a name exactly to the one referenced sub-topology of that name, no run map is empty, and a destroyed one is closed with its cancel, if set, called once; destroyed ones never change again |
| PoolMachine.RunKeeps | internal/topo/subtopo_pool.go:35-138 | so does every interleaving of any number of steps |
| PoolMachine.EmptyPoolIsValid | internal/topo/subtopo_pool.go:30-33 | the empty pool satisfies the invariant |
| PoolTheorems.OpenRefs | internal/topo/subtopo.go:73-141 | an open adds exactly the opener, and on its source the one chained reference if it is granted |
| PoolTheorems.StepRefs | internal/topo/subtopo_pool.go:35-138 | after any step the references at any sub-topology are those before, plus the pairs granted, minus the pair released |
| PoolTheorems.RunRefs | internal/topo/subtopo_pool.go:35-138 | after any run they are exactly the pairs granted and not yet released |
| PoolTheorems.ReleaseTwice | internal/topo/subtopo.go:191-207 | releasing a pair again changes nothing |
| PoolTheorems.NotHeld | internal/topo/subtopo.go:191-207 | releasing a pair that is not held changes nothing |
| PoolTheorems.CloseAll | internal/topo/subtopo_pool.go:88-138 | the chain of closes ends and keeps the invariant |
| PoolTheorems.CloseAllReleases | internal/topo/subtopo_pool.go:88-138 | it releases the pair and adds no reference anywhere |
| PoolTheorems.CancelReleases | internal/topo/topo.go:141-152 | cancelling a run releases it at each of its shared sources and adds no reference anywhere |
| PoolTheorems.CancelTwice | internal/topo/topo.go:167-174 | cancelling again leaves the pool as one cancel leaves it |
| PoolLife.AfterExit | internal/topo/subtopo.go:113-132 | when the loop of a sub-topology that was started ends, it is closed and never granted a reference again, however the run goes on |
| PoolLife.ExitIsLocal | internal/topo/subtopo.go:113-132 | an exit touches no reference, no pool entry and no other sub-topology |
| PoolLife.RunAges | internal/topo/subtopo.go:73-207 | over every run a sub-topology keeps its name and source, its life only goes on, its cancel stays set, and once closed it only loses references |
| PoolLife.StepAges | internal/topo/subtopo.go:73-207 | so over every step |
| PoolLife.OpenStarts | internal/topo/subtopo.go:73-141 | the first open starts it unless preparing fails, and takes the reference on its source; later opens only take a reference |
| PoolLife.GetGives | internal/topo/subtopo_pool.go:35-65 | asking for a name gives the one the pool has, referenced unless closed, or a new one that is not open yet; if building fails nothing changes |
| PoolSafety.KeyIsInjective | internal/topo/subtopo_pool.go:132 | two sub-topologies of different names hold different references on a source |
| PoolSafety.KeyIsNoRule | internal/topo/subtopo_pool.go:132 | no rule whose id does not start like one holds such a reference |
| PoolSafety.ReleaseIsSafe | internal/topo/subtopo_pool.go:88-126 | from every state: a release leaves everybody in use the reference on its source, opened or not, exactly when that reference is not the pair released |
| PoolSafety.ChainedCloseIsSafe | internal/topo/subtopo_pool.go:128-137 | the chained close does so exactly unless the destroyed name is in the pool again, for one on the same source, and the reference is held: three things that can be looked up before the close |
| PoolSafety.StepIsSafe | internal/topo/subtopo_pool.go:35-138 | every step leaves everybody in use its source exactly when it is not such a release; get-or-create, open and exit always do |
| PoolSafety.RunIsSafe | internal/topo/subtopo_pool.go:35-138 | over any run without such a release, who has a source and is still in use has it still |
| PoolSafety.PublishedFed | internal/topo/subtopo_pool.go:40-59 | a new sub-topology has its source exactly when the reference on it was taken before and is still held |
| PoolSafety.StepFed | internal/topo/subtopo_pool.go:35-138 | if everybody in use has a source, so it is after a step exactly unless the step robs somebody or publishes one whose reference is not held |
| PoolSafety.RunFed | internal/topo/subtopo_pool.go:35-138 | a run without such steps keeps everybody in use with a source |
| PoolRuns.OpenedOnce | internal/topo/planner/planner_source.go:117-134 | the planner's order of steps gives an open stream on an open connection |
| PoolRuns.DestroyedButPending | internal/topo/subtopo_pool.go:108-137 | its release destroys it while the connection is still to be closed |
| PoolRuns.PlannedAgain | internal/topo/planner/planner_source.go:117-134 | a second rule can plan the stream anew in between |
| PoolRuns.ReplacedBeforeOpening | internal/topo/subtopo_pool.go:128-137 | the chained close then takes the connection from the new stream, which is opened on a closed connection |
| PoolRuns.PublishedTooLate | internal/topo/planner/planner_source.go:123-228 | if the chained close comes before the new stream is published, the stream is published on a closed connection |
| PoolRuns.FailedPlanRobs | internal/topo/planner/planner_source.go:136-142 | a second rule whose planning fails gives the connection's reference back that the running stream of the first one reads through |
| PoolRuns.ThroughTooEarly | internal/topo/subtopo_pool.go:124-137 | two callers cancel one run: the second is through while a chained close is owed, and the pool is not yet what a cancel leaves |
| PoolCancel.CloseEffect | internal/topo/subtopo_pool.go:88-126 | one close takes one pair, perhaps lets its sub-topology fall, and then owes the close of its source |
| PoolCancel.TurnSettles | internal/topo/subtopo_pool.go:88-126 | a caller's release keeps the account of what is released and what is owed |
| PoolCancel.LinkSettles | internal/topo/subtopo_pool.go:128-137 | so does a chained close |
| PoolCancel.SettledIsUnique | internal/topo/subtopo_pool.go:88-138 | whatever the order of the sections: a state in which nothing is owed is determined by the sources that were released |
| PoolCancel.ChainSettles | internal/topo/subtopo_pool.go:128-137 | the chain of one caller alone pays what it owes |
| PoolCancel.CancelSettles | internal/topo/topo.go:141-152 | so does a single cancel |
| PoolCancel.MovesTrack | internal/topo/topo.go:141-182 | and any interleaving of the locked sections of any number of callers keeps the account |
| PoolCancel.ConcurrentCancels | internal/topo/topo.go:141-182 | any number of callers, one locked section at a time in any interleaving: once one of them has made its last release, the pool is what a single cancel leaves exactly when every chained close still owed would find its reference gone |
| PoolCancel.AllThrough | internal/topo/topo.go:141-182 | in particular when no chained close is owed |
| PoolCancel.ReleasedForGood | internal/topo/subtopo_pool.go:35-138 | in any run, with whatever other rules get, open, leave and release in between: a pair that was released is gone at the end, unless it was granted again |
| SubTopos.SrcSubTopo.UpdateReference | internal/topo/subtopo.go:163-189 | on the heap object, the nested maps change as the abstract step says |
| SubTopos.SrcSubTopo.RemoveReference | internal/topo/subtopo.go:191-207 | likewise for removal |
| SubTopos.SubTopoPool.constructor | internal/topo/subtopo_pool.go:30-33 | the pool starts empty |
| SubTopos.SubTopoPool.GetOrCreateSubTopo | internal/topo/subtopo_pool.go:35-65 | the locked section on the heap is the abstract step, error of the init function included |
| SubTopos.SubTopoPool.Publish | internal/topo/subtopo_pool.go:40-59 | publishing puts the new object under its name |
| SubTopos.SubTopoPool.OpenSubTopo | internal/topo/subtopo.go:73-141 | opening on the heap, the opens of shared sources included, is the abstract step |
| SubTopos.SubTopoPool.StartSubTopo | internal/topo/subtopo.go:94-132 | so is the part that only the first open does |
| SubTopos.SubTopoPool.ExitSubTopo | internal/topo/subtopo.go:113-132 | so is the end of the running loop |
| SubTopos.SubTopoPool.CloseSubTopo | internal/topo/subtopo_pool.go:88-138 | the recursive close with its chain is the abstract chain |
| SubTopos.SubTopoPool.Release | internal/topo/subtopo_pool.go:88-126 | the section under both locks is the abstract close |
| Topos.CleanedAtMostOnce | internal/topo/topo.go:100-210 | over any interleaving of any callers the clean-up runs at most once, and only after an open; the first stop to win is final |
| Topos.LifeExactly | internal/topo/topo.go:100-210 | over any interleaving: initialized until the first open, running until the first stop after that, then stopped; cleaned up exactly when the caller whose stop won has gone on and was not refused its save |
| Topos.OpenLife | internal/topo/topo.go:100-103 | opened and not stopped since: running |
| Topos.StoppedLife | internal/topo/topo.go:141-210 | opened, then stopped: the first stop decides whether a clean-up follows |
| Topos.Topo.constructor | internal/topo/topo.go:79-98 | a new run is initialized |
| Topos.OpenSourcesTakes | internal/topo/topo.go:125-127 | opening a run takes references only, and its own at every source that is not closed |
| Topos.Topo.Open | internal/topo/topo.go:100-139 | opens only an initialized run, and then each of its shared sources; the pool is left as the opens in order leave it |
| Topos.Topo.OpenAll | internal/topo/topo.go:125-127 | the loop over the sources |
| Topos.Topo.DoClose | internal/topo/topo.go:141-152 | reports that it was not this call that closed the run, and closes every shared source in either case |
| Topos.Topo.CloseSources | internal/topo/topo.go:146-150 | the pool is left as the abstract cancel leaves it |
| Topos.Topo.DoClean | internal/topo/topo.go:154-165 | only the caller whose swap won cleans up |
| Topos.Topo.CancelRun | internal/topo/topo.go:168-174 | one whole cancel of the run and of the pool |
| Topos.Topo.StopGracefully | internal/topo/topo.go:176-210 | the same, except that a refused save ends it before the clean-up |
| SchemaInstall.FileSystem.Rename | internal/schema/registry.go:366-379 | a rename moves one file over another or fails and changes nothing |
| SchemaInstall.FileSystem.RemoveAll | internal/schema/registry.go:396-399 | a removal removes or fails and changes nothing |
| SchemaInstall.FileSystem.Lstat | internal/schema/registry.go:364-372 | present, missing, or an error that says nothing |
| SchemaInstall.OutcomeIsLast | internal/schema/registry.go:362-380 | what the replacements ask for: for every name the last one that mentions it decides, all other names stay |
| SchemaInstall.CommitFileReplacements | internal/schema/registry.go:355-382 | it succeeds exactly when every source is staged, none is wanted twice and no operation fails, and then leaves exactly what the replacements ask for; else every name is as before but for the targets of undos that failed too, one fault for each, also when targets repeat; so one failure alone leaves no trace and is reported as rolled back |
| SchemaInstall.RollbackFileReplacements | internal/schema/registry.go:391-411 | undoing in reverse restores what was there; an undo fails only by a fault of its own, is reported and spoils only the target of its own replacement |
| SchemaInstall.UndoOne | internal/schema/registry.go:393-409 | one undo takes the result of its replacement back, or spoils only its target |
| SchemaInstall.BackUp | internal/schema/registry.go:362-372 | the old file is moved to the backup of this replacement, or nothing is changed |
| SchemaInstall.Install | internal/schema/registry.go:373-379 | the source is moved to the target, or nothing is changed |
| SchemaInstall.OneMoved | internal/schema/registry.go:362-380 | back-up and installation together are the replacement |
| SchemaInstall.StepProgress | internal/schema/registry.go:362-380 | one more replacement carried out keeps the history that the rollback needs |
| SchemaInstall.Registry.InstallSchema | internal/schema/registry.go:331-353 | registry and script change exactly if the install succeeds, and then the files are what was asked for, but for the former schema file of another version, which is removed if that works; an install that can be done fails only by a fault, and one fault alone leaves all as before; the staging directory is kept exactly if the commit failed or an undo did |
| SchemaInstall.Registry.StoreScript | internal/schema/registry.go:335-341 | storing the script succeeds or changes nothing |
| SchemaInstall.SameOutcome | internal/schema/registry.go:355-382 | the outcome depends on the requests only, not on what was done about them |
| SchemaInstall.ObsoleteExactly | internal/schema/registry.go:343-352 | the file removed at the end is that of the former registration, never one just installed, and none without a version |
| SchemaInstall.NothingToInstall | internal/schema/registry.go:376-378 | a source that is missing or was moved before cannot be installed |
| SchemaInstall.GiveUp | internal/schema/registry.go:384-389 | the rollback after an error, and what is reported of it |
| Values.StrLessIsTotalOrder | internal/xsql/valuer.go:1184-1206 | strings compare by a strict total order |
| Values.StrLessIsTransitive | internal/xsql/valuer.go:1184-1206 | which is transitive |
| Values.WrapIsCongruent | internal/xsql/valuer.go:953-998 | results out of range wrap by a multiple of two to the 64, those in range stay |
| Values.QuotientTruncates | internal/xsql/valuer.go:953-998 | the remainder is smaller than the divisor and has the sign of the dividend |
| Values.DivisionAndRemainder | internal/xsql/valuer.go:953-998 | dividend is divisor times quotient plus remainder, but for the least number divided by -1 |
| Values.OneRelationHolds | internal/xsql/valuer.go:953-1206 | for two present values that compare exactly one of less, equal and greater holds; the other three operators are their complements |
| Values.BitwiseIsBitByBit | internal/xsql/valuer.go:953-998 | a bitwise operator works on every bit alone and sets none beyond the width |
| Values.ArithmeticIsExact | internal/xsql/valuer.go:967-972 | sum, difference and product are exact when they fit, and congruent modulo two to the 64 otherwise |
| Values.DivisionFails | internal/xsql/valuer.go:973-990 | dividing by zero is the only error of integer arithmetic |
| Values.TruthTables | internal/xsql/valuer.go:846-866 | the truth tables of the operators on booleans; all others are errors |
| Values.LessIsLess | internal/xsql/valuer.go:955-1206 | comparing integers compares numbers, comparing strings goes by the first place where they differ |
| Values.StrLessExactly | internal/xsql/valuer.go:1184-1206 | a string is less exactly when at the first difference it ends or has the lesser letter |
| Values.MissingOperand | internal/xsql/valuer.go:829-839 | a missing operand makes comparisons and connectives false and all else missing |
| Values.UnlikeOperands | internal/xsql/valuer.go:846-850 | present values of different types go with no operator |
| Values.BitTables | internal/xsql/valuer.go:991-996 | the tables of the bitwise operators |
| Values.BitwiseOnIntegers | internal/xsql/valuer.go:991-996 | each of the 64 bits by its table, for negative numbers too |
| AliasMemo.ReadIsPlain | internal/xsql/row.go:135-149 | with a coherent memory a column reads as without any |
| AliasMemo.MemoIsTransparent | internal/xsql/valuer.go:297-757 | evaluation with remembered aliases gives the meaning in which every alias is its definition, and leaves the memory coherent; every form of expression modelled |
| AliasMemo.AllTransparent | internal/xsql/valuer.go:475-513 | so does any list of expressions on one row |
| AliasMemo.MatchIsTransparent | internal/xsql/valuer.go:659-689 | so do the clauses of CASE with a compared value |
| AliasMemo.WhensIsTransparent | internal/xsql/valuer.go:659-689 | and those without one |
| AliasMemo.AnyOrder | internal/xsql/valuer.go:475-513 | an expression has the same value wherever it stands in whichever list, when no alias has the name of a column read without a qualifier |
| AliasMemo.TransparentExactly | internal/xsql/valuer.go:475-513 | on one row and for all lists of expressions at once: remembering never changes a value exactly when every alias that has the name of a column means what the column holds |
| AliasMemo.ClashShows | internal/xsql/valuer.go:475-513 | an alias that differs from the column of its name shows: the column reads as the alias once that is computed |
| AliasMemo.ClashExample | internal/xsql/row.go:135-149 | one row on which the order of two expressions matters |
| ExpressionLaws.ColumnReads | internal/xsql/row.go:135-149 | an unqualified column is the alias, else the computed column, else the one in the message; a qualified one that in the message |
| ExpressionLaws.ArrowReads | internal/xsql/valuer.go:763-776 | an arrow takes a field of a map, missing if there is none; maps go with nothing else |
| ExpressionLaws.IndexReads | internal/xsql/valuer.go:788-801 | an index takes an element, from the end if negative; others are errors |
| ExpressionLaws.ListsTakeBrackets | internal/xsql/valuer.go:777-786 | lists go with no operator but brackets |
| ExpressionLaws.NoList | internal/xsql/valuer.go:708-726 | nothing is in what is missing or no list |
| ExpressionLaws.ListIsSet | internal/xsql/valuer.go:691-706 | a list in a column is searched as a written-out set |
| ExpressionLaws.NeitherListNorRange | internal/xsql/valuer.go:708-757 | a scalar can be neither searched nor a range |
| ExpressionLaws.ErrorsPass | internal/xsql/valuer.go:582-657 | errors of either side are the value of the whole, unless the left side settles AND or OR |
| ExpressionLaws.ConnectivesAreLogical | internal/xsql/valuer.go:606-625 | AND and OR on booleans, short cut or not |
| ExpressionLaws.CaseTakesFirst | internal/xsql/valuer.go:659-689 | the first clause that holds or fails decides a searched CASE, else ELSE, else missing |
| Evaluator.EvalExpr | internal/xsql/valuer.go:297-580 | the evaluator on the row in place computes the value and the aliases of the evaluation function |
| Evaluator.EvalBinary | internal/xsql/valuer.go:582-657 | likewise for operators: errors first, maps and lists only for arrow and index, the shortcuts of AND and OR, then sets, ranges and simple operators |
| Evaluator.EvalSets | internal/xsql/valuer.go:708-761 | the loop over a set stops at the first match or the first failure |
| Evaluator.EvalElements | internal/xsql/valuer.go:691-699 | the elements of a set in order |
| Evaluator.EvalCase | internal/xsql/valuer.go:659-689 | the first clause that holds decides; one that fails ends the CASE |
| Evaluator.ValueOf | internal/xsql/valuer.go:495-513 | a column is read from aliases, computed columns and the message, in that order, and only the message if qualified |
| CompoundForms.MemberSnoc | internal/xsql/valuer.go:708-757 | membership from the front and from the back are the same |
| CompoundForms.OrChainValue | internal/xsql/valuer.go:582-610 | the value of a chain of comparisons joined by OR |
| CompoundForms.InIsOrChain | internal/xsql/valuer.go:708-757 | x IN (e1, ..., en) is x = e1 OR ... OR x = en, in value and in failure, exactly unless x is missing and some element fails |
| CompoundForms.NotInIsComplement | internal/xsql/valuer.go:708-757 | NOT IN is the complement of IN exactly unless x is missing |
| CompoundForms.RangeValue | internal/xsql/valuer.go:612-637 | the value of BETWEEN and NOT BETWEEN from the two comparisons |
| CompoundForms.BetweenIsTwoSided | internal/xsql/valuer.go:612-637 | BETWEEN is the two-sided AND exactly unless a missing operand hides a failing lower comparison, or the lower one is false and the upper one fails |
| CompoundForms.BetweenOnIntegers | internal/xsql/valuer.go:612-637 | on integers it is the closed range |
| CompoundForms.NotBetweenIsComplement | internal/xsql/valuer.go:612-637 | NOT BETWEEN is the complement exactly unless an operand is missing |
| CompoundForms.MatchIsWhens | internal/xsql/valuer.go:659-689 | clause by clause, a compared CASE against a searched one |
| CompoundForms.CaseIsSearchedCase | internal/xsql/valuer.go:659-689 | CASE x WHEN w is CASE WHEN x = w exactly when, for a missing x, no clause fails and, for a failed or composite x, some clause has a value (or the ELSE fails too) |
| Rows.ExportIsLookup | internal/xsql/row.go:496-511 | for every key and any nesting of joins: the export holds what a lookup finds in the row without its internal columns |
| Rows.OverlaidIsFirstHit | internal/xsql/row.go:692-706 | writing a join from its last row to its first keeps what the forward lookup finds first |
| Rows.LookupAgreesWithExport | internal/xsql/row.go:473-511 | lookup and export agree on every key that is not internal |
| Rows.InternalAgreesExactly | internal/xsql/row.go:196-208 | on an internal key they agree exactly when no computed column hides the message or says something else |
| Rows.PickReads | internal/xsql/row.go:558-590 | what any unqualified read finds after a pick: as before if picked without a qualifier, the message if picked with the emitter, else nothing |
| Rows.PickKeeps | internal/xsql/row.go:558-590 | a picked column reads as before under the qualifier it was picked with |
| Rows.PickExports | internal/xsql/row.go:558-590 | the export holds a key exactly when it was picked and the row had it |
| Rows.PickTwice | internal/xsql/row.go:558-590 | picking twice is picking once, with any wildcards, exceptions and nil setting |
| Rows.WildcardReads | internal/xsql/row.go:558-590 | with a wildcard: what was computed and picked by name stays, the message is kept but for the excepted columns, and nothing else can be read |
| Rows.WildcardExports | internal/xsql/row.go:581-589 | SELECT * EXCEPT exports every column but the excepted ones |
| Rows.SendNilReads | internal/xsql/row.go:567-579 | when missing columns are sent as nil, exactly the columns asked for have a value, nil only if the row has none |
| Rows.FirstRowDecides | internal/xsql/row.go:602-616 | in a join the first row that has the column decides, for lookup and export |
| Rows.FirstOfNameDecides | internal/xsql/row.go:619-634 | a qualified lookup takes the first tuple of that name with a value |
| Rows.OnlyTuplesSupply | internal/xsql/row.go:619-634 | and only tuples have the name of a stream |
| Rows.InternalExactly | internal/xsql/row.go:199-204 | which keys are internal |
| Rows.Remaining | internal/xsql/row.go:210-238 | the columns left for the message are exactly those not found among aliases and computed columns |
| Rows.Tuple.AppendAlias | internal/xsql/row.go:111-119 | one alias is set |
| Rows.Tuple.Value | internal/xsql/row.go:473-479 | the loop-free lookup is the lookup function |
| Rows.Tuple.Set | internal/xsql/row.go:151-158 | changes no other reading |
| Rows.Tuple.Del | internal/xsql/row.go:160-169 | afterwards the message shows again; no other reading changes |
| Rows.Tuple.ToMap | internal/xsql/row.go:496-511 | the first export is that of the row, the shared message itself if nothing was computed and a map of its own otherwise; later ones are the cached one |
| Rows.Tuple.MergeMap | internal/xsql/row.go:196-208 | computed columns but the internal ones, then aliases, over the message |
| Rows.Message.Overlay | internal/xsql/row.go:196-208 | writes one map over another in place |
| Rows.Tuple.Clone | internal/xsql/row.go:485-493 | a copy with the same contents that shares the message object |
| Rows.Tuple.PickComputed | internal/xsql/row.go:210-238 | the loop keeps and leaves exactly what the functions say |
| Rows.Tuple.PickFields | internal/xsql/row.go:564-578 | the loop over the message columns fills a map of its own |
| Rows.Tuple.Pick | internal/xsql/row.go:558-590 | the tuple becomes its pick and forgets its cached export |
| Rows.JoinToMap | internal/xsql/row.go:692-706 | the reverse loop computes the export of a join |
| Rows.DoGetValue | internal/xsql/row.go:602-635 | the forward loop computes the lookup in a join, with a qualifier also below nested joins |
| Rows.QualifiedLookup | internal/xsql/row.go:619-634 | a qualified lookup finds a value of a row of that name at some depth, never a missing one, and finds one whenever some such row has one |
| Rows.Tuple.PickedCopy | internal/xsql/row.go:717-722 | picking on a copy that shares the message changes neither the original nor the message; the copy gets a map of its own unless it keeps the whole message |
| Sorter.LessIsAsymmetric | internal/xsql/sorter.go:61-83 | no row is less than one that is less than it, whatever the values |
| Sorter.LessSplits | internal/xsql/sorter.go:61-83 | a row between two ordered ones is ordered against one of them, when each field has values of one kind |
| Sorter.LessIsStrictWeak | internal/xsql/sorter.go:61-83 | so the comparison is a strict weak order |
| Sorter.MixedKindsExample | internal/xsql/sorter.go:132-162 | with mixed kinds it is not |
| Sorter.LessExactly | internal/xsql/sorter.go:61-83 | a row is less exactly when some field puts it ahead (a missing value goes last in both directions) and no earlier field settles the comparison (two missing values do) |
| Sorter.BooleansSettleNothing | internal/xsql/sorter.go:75-80 | two booleans on a field never decide |
| Sorter.NeighboursSort | internal/xsql/sorter.go:61-83 | neighbours in order means all in order |
| Sorter.SwapAllKeeps | internal/xsql/sorter.go:85-88 | any run of exchanges is a permutation |
| Sorter.SortSorts | internal/xsql/sorter.go:85-130 | whatever exchanges end with neighbours in order: a sorted permutation of the rows, each with its own key |
| Sorter.SortIsDetermined | internal/xsql/sorter.go:85-130 | two sorted arrangements of the same rows have equivalent keys at every position |
| Sorter.CheckedIsComparable | internal/xsql/sorter.go:132-162 | rows that pass the type check have keys that can be compared |
| Sorter.SortableExactly | internal/xsql/sorter.go:132-162 | numbers, strings and booleans can be sorted, each with their own kind |
| Sorter.KeyHoldsCell | internal/xsql/sorter.go:108-124 | the key holds, under each name, the value of the last field of that name |
| Sorter.KeysAreCells | internal/xsql/sorter.go:61-83 | keys compare as the columns do: by the first column on which the rows are not level |
| Sorter.SortedByCells | internal/xsql/sorter.go:91-130 | after any exchanges that end with neighbours in order: every row once, and none goes before one on its left by its columns |
| Sorter.MultiSorter.LessAt | internal/xsql/sorter.go:61-83 | the loop over the fields is the comparison |
| Sorter.MultiSorter.Swap | internal/xsql/sorter.go:85-88 | keys and rows move together |
| Sorter.MultiSorter.SwapRun | internal/xsql/collection.go:145-148 | so they do over any run of exchanges |
| Sorter.MultiSorter.Prepare | internal/xsql/sorter.go:91-128 | succeeds exactly when every column has values of one sortable kind, and then each row has its own key |
| Sorter.MultiSorter.Sort | internal/xsql/sorter.go:91-130 | rows with columns of one kind each end sorted by their columns; else they stay as they are |
| Sorter.PrepareRow | internal/xsql/sorter.go:108-124 | the same for one row |

## Left out

Expressions and types

- Function calls, window functions, REPLACE lists and alias clauses: a call or a REPLACE list is a parse error in the model.
- Literals: negative numbers read straight from the scanner are not modelled; numeric literals keep their text, and whether it is in range is a parameter, as are the check of LIKE patterns and the fit of default values.
- ExprGrammar.ParseUnary: a function call and a negative number are errors, because calls depend on the function registry and negative numbers bypass the ring.
- ExprGrammar.UnaryCases: the same.
- ExprGrammar.ParseAsterisk: a REPLACE list is an error, because its entries are aliased expressions.
- ExprGrammar.ParseBracket: negative numbers are not modelled.
- ExprGrammar.ParseColon: negative numbers are not modelled.
- ExprParser.ParseUnaryExpr: calls and negative numbers, as in the grammar.
- ExprParser.ParseReference: a call is an error.
- ExprParser.ParseWildcard: a REPLACE list is an error.
- ExprParser.ParseExceptClauses: a REPLACE list is an error.
- ExprParser.ParseBracketExpr: negative numbers are not modelled.
- ExprParser.ParseColonExpr: negative numbers are not modelled.
- ExprParser.Spine.Collapse: a left operand that is moved under a new operator becomes a value, since it never changes again; that heap nodes are shared is not captured.
- ExprParser.Spine.Attach: only the right spine, which is what changes, is on the heap.
- `validateExpr` is modelled on values, not in place.
- TextRoundTrip.TreeToTextAndBack: undoing the quoting of a literal is a parameter of the scanner, of which is assumed that it undoes the quoting of any text without NUL and line breaks.
- Reparse.ParsedReadsBack: while the source names are known, a reference may be an arrow already, and a tree with such an operand is not ordered; the theorem is about parsing without them.
- LexerPrinter.PrintThenScan: string literals under the same assumption; for lists longer than two the condition is shown to be sufficient only, because a back-quoted name may end a comment that an earlier pair opened.
- Type names are compared after turning ASCII letters to upper case; other letters with an ASCII upper case are not modelled.
- Text is a sequence of characters; encoding errors and the reader's buffer are not modelled.

Sub-topologies

- Locks: each locked section is one atomic step. An open with the opens of shared sources it causes is one step: the opener's lock is held throughout, so nobody else sees the sub-topology in between.
- `RemoveSubTopo`, the schema layer, outputs, operators, checkpoints, error channels and the notification of errors.
- A context that is not the default context, for which the chained close is skipped.
- SubTopos.SubTopoPool.CloseSubTopo: the effect of the whole chain when nobody comes in between; the interleavings of its sections are those of PoolMachine, PoolSafety and PoolCancel.
- Topos.Topo.StopGracefully: waiting for the save and for the operators, with their timeouts, is not modelled.
- Failures while a run opens are not modelled, except that preparing a shared sub-topology may fail.

Schema installation

- Downloads, unpacking and staging; a directory counts as one file; `Lstat`, `Rename` and `RemoveAll` fail without effect.

Evaluation, rows and sorting

- Floating-point numbers and the mode in which integers divide as such, time values, LIKE, slices, wildcards, metadata, calls, aggregates and the cache of columns by index.
- AliasMemo.MemoIsTransparent: covers the forms of expression that are modelled.
- Evaluator.EvalExpr: the same.
- Evaluator.EvalBinary: LIKE and floating-point numbers are not modelled.
- The evaluator's expressions are a type of their own: it runs on the tree after names, aliases and calls have been resolved by the planner, which is not part of this model.
- An IN whose right side is neither a list nor missing is a fault in the program; the model gives an error.
- Errors carry no text: all error values are one.
- Case-insensitive keys; `All`, `AggregateEval`, dynamic properties and timestamps of rows; picking in joins, groups and windows.
- Rows.JoinToMap: rows under a join are values, and the cached export of a join is not modelled.
- Rows.Tuple.ToMap: writes after an export was cached leave the old export, as in the source; no theorem is stated about it.
- Sorter.MultiSorter.SwapRun: the library's sort is any run of exchanges that ends with neighbours in order; that it stops is not modelled.
- Sorter.MultiSorter.Prepare: the values of the sort fields on each row are given; evaluating them is the evaluation model.

/** The parser's three-slot ring of lexemes, with push-back. */
module TokenBuffers {
  import opened Tokens

  class TokenBuffer {
    const input: seq<Lexeme>  // everything the scanner will yield, blanks included
    var pos: nat              // how much of it the scanner has yielded
    var i: nat                // slot of the newest lexeme
    var n: nat                // how many lexemes are pushed back
    const buf: array<Lexeme>
    ghost var fetched: nat    // significant lexemes fetched so far

    /** The slot `back` places behind the newest one. */
    static function Slot(newest: nat, back: nat): nat
      requires newest < 3 && back < 3
    {
      if newest >= back then newest - back else newest - back + 3
    }

    ghost function Tape(): seq<Lexeme> {
      Significant(input)
    }

    /** The refinement invariant: the ring holds the last three lexemes of the tape
        that were fetched, newest first from slot `i`, and the scanner stands behind them. */
    ghost predicate Valid()
      reads this, buf
      ensures Valid() ==> n <= 3 && n <= fetched
    {
      && buf.Length == 3 && i < 3
      && pos <= |input|
      && n <= 3 && n <= fetched
      && Significant(input[pos..]) == (if fetched <= |Tape()| then Tape()[fetched..] else [])
      && (1 <= fetched ==> buf[Slot(i, 0)] == At(Tape(), fetched - 1))
      && (2 <= fetched ==> buf[Slot(i, 1)] == At(Tape(), fetched - 2))
      && (3 <= fetched ==> buf[Slot(i, 2)] == At(Tape(), fetched - 3))
    }

    /** Position on the tape of the next lexeme the grammar will see. */
    ghost function Cursor(): nat
      requires Valid()
      reads this, buf
    {
      fetched - n
    }

    constructor (input: seq<Lexeme>)
      ensures Valid() && fresh(buf)
      ensures Cursor() == 0 && n == 0 && Tape() == Significant(input)
    {
      this.input := input;
      pos, i, n, fetched := 0, 0, 0, 0;
      buf := new Lexeme[3](_ => EndOfInput);
      new;
      assert input[0..] == input;
    }

    method Curr() returns (x: Lexeme)
      requires Valid() && n < 3 && n < fetched
      ensures x == At(Tape(), fetched - 1 - n)
    {
      assert (i - n + 3) % 3 == Slot(i, n);
      x := buf[(i - n + 3) % 3];
    }

    /** Takes one lexeme from the scanner; a significant one goes into the next slot. */
    method Fetch() returns (x: Lexeme)
      requires Valid() && n == 0
      modifies this, buf
      ensures Valid() && n == 0 && pos >= old(pos)
      ensures IsBlank(x) ==> fetched == old(fetched) && pos > old(pos)
      ensures !IsBlank(x) ==> x == At(Tape(), old(fetched)) && fetched == old(fetched) + 1
    {
      TapeStep(Tape(), input[pos..], fetched);
      if pos < |input| {
        assert input[pos..][1..] == input[pos + 1..];
        x := input[pos];
        pos := pos + 1;
      } else {
        x := EndOfInput;
      }
      if !IsBlank(x) {
        Store(x);
      }
    }

    /** Overwrites the oldest slot. */
    method Store(x: Lexeme)
      requires buf.Length == 3 && i < 3
      modifies this`i, this`fetched, buf
      ensures i < 3 && fetched == old(fetched) + 1
      ensures buf[Slot(i, 0)] == x
      ensures buf[Slot(i, 1)] == old(buf[Slot(i, 0)]) && buf[Slot(i, 2)] == old(buf[Slot(i, 1)])
    {
      i := (i + 1) % 3;
      buf[i] := x;
      fetched := fetched + 1;
    }

    /** One raw step: a pushed-back lexeme, or else whatever the scanner yields next. */
    method Scan() returns (x: Lexeme)
      requires Valid()
      modifies this, buf
      ensures Valid() && pos >= old(pos)
      ensures IsBlank(x) ==> Cursor() == old(Cursor()) && n == old(n) == 0 && pos > old(pos)
      ensures !IsBlank(x) ==> x == At(Tape(), old(Cursor())) && Cursor() == old(Cursor()) + 1
      ensures !IsBlank(x) ==> n == if old(n) > 0 then old(n) - 1 else 0
      ensures fetched == old(fetched) || (fetched == Cursor() && n == 0)
    {
      hide Significant;
      if n > 0 {
        n := n - 1;
        TapeIsSignificant(input, fetched - 1 - n);
        x := Curr();
      } else {
        x := Fetch();
      }
    }

    /** Returns the next lexeme that is neither blank nor comment. */
    method ScanIgnoreWhitespace() returns (x: Lexeme)
      requires Valid()
      modifies this, buf
      ensures Valid()
      ensures x == At(Tape(), old(Cursor())) && Cursor() == old(Cursor()) + 1
      ensures n == if old(n) > 0 then old(n) - 1 else 0
      ensures fetched == old(fetched) || (fetched == Cursor() && n == 0)
    {
      x := Scan();
      while IsBlank(x)
        invariant Valid()
        invariant IsBlank(x) ==> Cursor() == old(Cursor()) && n == old(n) == 0
        invariant fetched == old(fetched) || (fetched == Cursor() && n == 0)
        invariant !IsBlank(x) ==> x == At(Tape(), old(Cursor())) && Cursor() == old(Cursor()) + 1
        invariant !IsBlank(x) ==> n == if old(n) > 0 then old(n) - 1 else 0
        decreases |input| - pos, IsBlank(x)
      {
        x := Scan();
      }
    }

    /** Pushes the newest read lexeme back. The ring has room for three. */
    method Unscan()
      requires Valid() && n < 3 && n < fetched
      modifies this`n
      ensures Valid() && n == old(n) + 1 && Cursor() == old(Cursor()) - 1
    {
      n := n + 1;
    }
  }

  /** What the scanner yields next, seen on the tape. */
  lemma TapeStep(tape: seq<Lexeme>, rest: seq<Lexeme>, fetched: nat)
    requires Significant(rest) == if fetched <= |tape| then tape[fetched..] else []
    ensures rest == [] ==> At(tape, fetched) == EndOfInput && fetched >= |tape|
    ensures rest != [] && IsBlank(rest[0]) ==> Significant(rest[1..]) == Significant(rest)
    ensures rest != [] && !IsBlank(rest[0]) ==> fetched < |tape| && rest[0] == tape[fetched] && Significant(rest[1..]) == tape[fetched + 1..]
  {
    if rest != [] && !IsBlank(rest[0]) {
      assert Significant(rest)[1..] == Significant(rest[1..]);
    }
  }

  lemma {:induction false} TapeIsSignificant(s: seq<Lexeme>, k: nat)
    ensures !IsBlank(At(Significant(s), k))
  {
    if s != [] {
      if IsBlank(s[0]) {
        TapeIsSignificant(s[1..], k);
      } else if k > 0 {
        TapeIsSignificant(s[1..], k - 1);
        assert At(Significant(s), k) == At(Significant(s[1..]), k - 1);
      }
    }
  }
}

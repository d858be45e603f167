/**
 The lexer as a machine: state functions that move `pos` by whole runes, back up over
 runes already read and cut tokens out of `input` between `start` and `pos`.
 Each is proved against the step of the reference scanner it takes.
 */
module Lexer {
  import opened Text
  import opened Tokens
  import opened Scanner

  datatype Rune = Eof | Rune(c: char)

  datatype StateFn = Nil | Fn(state: State)

  lemma Sent2(sent: seq<Token>, a: Token, b: Token)
    ensures sent + [a] + [b] == sent + [a, b]
  {
  }

  lemma SentMore(sent: seq<Token>, a: Token, b: Token, c: Token)
    ensures sent + [a] + [b, c] == sent + [a, b, c]
  {
  }

  /** The same token n times. */
  function Again(t: Token, n: nat): seq<Token> {
    seq(n, _ => t)
  }

  class Lexer {
    const input: Ascii
    var start: nat
    var pos: nat
    var width: nat
    var parenDepth: int
    var getterDepth: int
    var tokens: seq<Token>  // everything sent on the channel so far
    var crashed: bool       // the goroutine has panicked

    constructor (input: Ascii)
      ensures this.input == input && start == pos == width == 0
      ensures parenDepth == getterDepth == 0 && tokens == [] && !crashed
    {
      this.input := input;
      start, pos, width := 0, 0, 0;
      parenDepth, getterDepth := 0, 0;
      tokens, crashed := [], false;
    }

    /** States that cut a token from where they are entered; the others set `start` anew. */
    predicate StartsAtPos(st: State) {
      !(st in {LexPromiseOpening, LexPromiseClosing, LexArgument, LexInsideGetter, LexGetterClosing})
    }

    predicate Enters(st: State)
      reads this
    {
      Ready(input, st, pos) && !crashed && start <= pos && (StartsAtPos(st) || pos == |input| ==> start == pos)
    }

    /** The machine has taken exactly the scanner's step from `st`. */
    ghost predicate Took(m: Move, sent: seq<Token>, next: StateFn)
      reads this
    {
      tokens == sent + m.toks &&
      match m.next
      case At(st, p, pd, gd) =>
        next == Fn(st) && pos == p && parenDepth == pd && getterDepth == gd && Enters(st)
      case Done => next == Nil && !crashed
      case Panic => next == Nil && crashed
    }

    method Errorf(msg: string) returns (next: StateFn)
      requires pos <= |input|
      modifies `tokens
      ensures next == Nil && tokens == old(tokens) + [Fault(input, msg, start, pos)]
    {
      tokens := tokens + [Token(Error, msg, Line(input, pos), start, pos)];
      next := Nil;
    }

    method Emit(tt: Type)
      requires pos <= |input|
      modifies `tokens, `start, `crashed
      ensures old(start) <= pos ==>
                tokens == old(tokens) + [Slice(input, tt, old(start), pos)] && start == pos && crashed == old(crashed)
      ensures pos < old(start) ==> tokens == old(tokens) && crashed
    {
      if pos < start {
        crashed := true;  // slice bounds out of range
      } else {
        tokens := tokens + [Token(tt, input[start..pos], Line(input, pos), start, pos)];
        start := pos;
      }
    }

    method Next() returns (r: Rune)
      requires pos <= |input|
      modifies `pos, `width
      ensures old(pos) < |input| ==> r == Rune(input[old(pos)]) && pos == old(pos) + 1 && width == 1
      ensures old(pos) == |input| ==> r == Eof && pos == old(pos) && width == old(width)
    {
      if pos >= |input| {
        return Eof;
      }
      r, width := Rune(input[pos]), 1;
      pos := pos + width;
    }

    method Backup() returns (r: char)
      requires width == 1 && 0 < pos <= |input|
      modifies `pos, `width
      ensures pos == old(pos) - 1 && width == 1 && r == input[pos]
    {
      pos := pos - width;
      r, width := input[pos], 1;
    }

    method RemoveTrailingWhitespace()
      requires width == 1 && pos <= |input| && TrimBack(input, pos) > 0
      modifies `pos, `width
      ensures pos == TrimBack(input, old(pos)) && width == 1
    {
      var s := Backup();
      while IsSpace(s)
        invariant pos < |input| && s == input[pos] && width == 1
        invariant TrimBack(input, pos + 1) == TrimBack(input, old(pos))
        decreases pos
      {
        s := Backup();
      }
      var _ := Next();
    }

    method RemoveLeadingWhitespace()
      requires pos <= |input|
      modifies `pos, `width, `start
      ensures pos == SkipSpace(input, old(pos))
      ensures start == if old(pos) < |input| then pos else old(start)
    {
      if pos >= |input| {
        return;
      }
      while pos < |input| && IsSpace(input[pos])
        invariant pos <= |input|
        invariant SkipSpace(input, pos) == SkipSpace(input, old(pos))
      {
        width := 1;
        pos := pos + width;
      }
      start := pos;
    }

    /** Give the rune back that ended a run, and cut the run without trailing white space. */
    method CutTrimmed(tt: Type)
      requires width == 1 && 0 < pos <= |input| && TrimBack(input, pos - 1) > 0
      modifies `pos, `width, `tokens, `start, `crashed
      ensures pos == TrimBack(input, old(pos) - 1) && width == 1
      ensures old(start) <= pos ==>
                tokens == old(tokens) + [Slice(input, tt, old(start), pos)] && start == pos && crashed == old(crashed)
      ensures pos < old(start) ==> tokens == old(tokens) && crashed
    {
      var _ := Backup();
      RemoveTrailingWhitespace();
      Emit(tt);
    }

    /** The separator: the next rune, unless that is white space. */
    method CutSeparator()
      requires 0 < start == pos < |input| && !IsSpace(input[pos - 1])
      modifies `pos, `width, `tokens, `start, `crashed
      ensures pos == start == TrimBack(input, old(pos) + 1) && crashed == old(crashed)
      ensures old(pos) <= pos && tokens == old(tokens) + [Slice(input, GetterSeparator, old(pos), pos)]
    {
      var _ := Next();
      RemoveTrailingWhitespace();
      Emit(GetterSeparator);
    }

    /** The text of an argument and its closing quote, which has just been read. */
    method CutQuoted()
      requires width == 1 && start < pos <= |input|
      modifies `pos, `width, `tokens, `start, `crashed
      ensures pos == start == old(pos) && crashed == old(crashed)
      ensures tokens ==
              old(tokens) + [Slice(input, Type.Argument, old(start), pos - 1)] + [Slice(input, RightArg, pos - 1, pos)]
    {
      var _ := Backup();
      Emit(Type.Argument);
      var _ := Next();
      Emit(RightArg);
    }

    method Comment() returns (next: StateFn)
      requires Enters(LexComment)
      modifies this
      ensures Took(old(StepComment(input, pos, parenDepth, getterDepth)), old(tokens), next)
    {
      var r := Next();
      if r == Eof {
        Emit(EOF);
        return Nil;
      } else if r == Rune('(') {
        var _ := Backup();
        return Fn(LexPromiseOpening);
      } else {
        Emit(Type.Comment);
      }
      return Fn(LexComment);
    }

    method PromiseOpening() returns (next: StateFn)
      requires Enters(LexPromiseOpening)
      modifies this
      ensures Took(old(Step(input, LexPromiseOpening, pos, parenDepth, getterDepth)), old(tokens), next)
    {
      RemoveLeadingWhitespace();
      var _ := Next();
      parenDepth := parenDepth + 1;
      Emit(LeftPromise);
      return Fn(LexPromiseName);
    }

    /** Read up to and including the first rune that is not of a name. */
    method ReadName() returns (r: Rune)
      requires pos <= |input|
      modifies `pos, `width
      ensures var e := NameEnd(input, old(pos));
              if e == |input| then r == Eof && pos == e
              else r == Rune(input[e]) && pos == e + 1 && width == 1
    {
      r := Next();
      while r != Eof && IsNameRune(r.c)
        invariant old(pos) <= pos <= |input| && (r == Eof ==> pos == |input|)
        invariant r == Eof ==> NameEnd(input, old(pos)) == |input|
        invariant r != Eof ==>
                    old(pos) < pos && width == 1 && r == Rune(input[pos - 1]) &&
                    NameEnd(input, old(pos)) == NameEnd(input, pos - 1)
        decreases |input| - pos, r != Eof
      {
        r := Next();
      }
    }

    method PromiseName() returns (next: StateFn)
      requires Enters(LexPromiseName)
      modifies this
      ensures Took(old(StepPromiseName(input, pos, parenDepth, getterDepth)), old(tokens), next)
    {
      RemoveLeadingWhitespace();
      var r := ReadName();
      if r == Eof {
        next := Errorf("unexpected eof in promise");
      } else {
        CutTrimmed(Type.PromiseName);
        next := if crashed then Nil else Fn(LexInsidePromise);
      }
    }

    method InsidePromise() returns (next: StateFn)
      requires Enters(LexInsidePromise)
      modifies this
      ensures Took(old(StepInsidePromise(input, pos, parenDepth, getterDepth)), old(tokens), next)
    {
      while true
        invariant start == old(pos) <= pos <= |input|
        invariant SkipSpace(input, pos) == SkipSpace(input, start)
        invariant parenDepth == old(parenDepth) && getterDepth == old(getterDepth)
        invariant tokens == old(tokens) && !crashed
        decreases |input| - pos
      {
        var r := Next();
        if r == Eof {
          next := Errorf("unexpected eof in promise");
          return;
        } else if r == Rune('(') {
          var _ := Backup();
          return Fn(LexPromiseOpening);
        } else if r == Rune(')') {
          var _ := Backup();
          return Fn(LexPromiseClosing);
        } else if r == Rune('[') {
          var _ := Backup();
          return Fn(LexInsideGetter);
        } else if r == Rune('"') {
          var _ := Backup();
          return Fn(LexArgument);
        } else if !IsSpace(r.c) {
          next := Errorf(Unexpected("inside promise", r.c));
          return;
        }
      }
    }

    method PromiseClosing() returns (next: StateFn)
      requires Enters(LexPromiseClosing)
      modifies this
      ensures Took(old(StepPromiseClosing(input, pos, parenDepth, getterDepth)), old(tokens), next)
    {
      RemoveLeadingWhitespace();
      var r := Next();
      if r != Rune(')') {
        next := Errorf(Unexpected("at end of promise", if r == Eof then NO_CHAR else r.c));
        return;
      }
      Emit(RightPromise);
      parenDepth := parenDepth - 1;
      return Fn(if parenDepth == 0 then LexComment else LexInsidePromise);
    }

    /** Read up to and including the quote that ends an argument. */
    method ReadText() returns (r: Rune)
      requires start == pos <= |input|
      modifies `pos, `width
      ensures var q := FindQuote(input, start);
              if q == |input| then r == Eof && pos == q
              else r == Rune('"') && pos == q + 1 && width == 1
    {
      r := Next();
      while r != Eof && r != Rune('"')
        invariant start < pos <= |input| || (r == Eof && start == pos == |input|)
        invariant if r == Eof then FindQuote(input, start) == pos == |input|
                  else width == 1 && r == Rune(input[pos - 1]) && FindQuote(input, start) == FindQuote(input, pos - 1)
        decreases |input| - pos, r != Eof
      {
        r := Next();
      }
    }

    /** The opening quote of an argument. */
    method CutOpening()
      requires Enters(LexArgument)
      modifies `pos, `width, `tokens, `start, `crashed
      ensures start == pos == SkipSpace(input, old(pos)) + 1 <= |input| && !crashed
      ensures tokens == old(tokens) + [Slice(input, LeftArg, pos - 1, pos)]
    {
      RemoveLeadingWhitespace();
      var _ := Next();
      Emit(LeftArg);
    }

    /** The text of an argument and its closing quote, or the error that there is none. */
    method CutText() returns (closed: bool)
      requires start == pos <= |input|
      modifies `pos, `width, `tokens, `start, `crashed
      ensures var a := old(pos);
              var q := FindQuote(input, a);
              closed == (q < |input|) && crashed == old(crashed) &&
              tokens == old(tokens) +
                        (if closed then [Slice(input, Type.Argument, a, q), Slice(input, RightArg, q, q + 1)]
                         else [Fault(input, "unexpected eof in argument", a, q)]) &&
              (closed ==> start == pos == q + 1)
    {
      var r := ReadText();
      closed := r != Eof;
      if closed {
        Sent2(tokens, Slice(input, Type.Argument, start, pos - 1), Slice(input, RightArg, pos - 1, pos));
        CutQuoted();
      } else {
        var _ := Errorf("unexpected eof in argument");
      }
    }

    method Argument() returns (next: StateFn)
      requires Enters(LexArgument)
      modifies this
      ensures Took(old(StepArgument(input, pos, parenDepth, getterDepth)), old(tokens), next)
    {
      ghost var sent, p := tokens, pos;
      CutOpening();
      ghost var a := pos;
      ghost var q := FindQuote(input, a);
      var closed := CutText();
      ArgumentIs(input, p, a - 1, q, parenDepth, getterDepth);
      Sent2(sent, Slice(input, LeftArg, a - 1, a), Fault(input, "unexpected eof in argument", a, q));
      if !closed {
        return Nil;
      }
      SentMore(sent, Slice(input, LeftArg, a - 1, a), Slice(input, Type.Argument, a, q),
               Slice(input, RightArg, q, q + 1));
      next := Fn(if getterDepth == 0 then LexInsidePromise else LexInsideGetter);
    }

    /** The loop of this state function never comes round: leading white space is gone
        when it starts, so its "ignore white space" case is not met. */
    method InsideGetter() returns (next: StateFn)
      requires Enters(LexInsideGetter)
      modifies this
      ensures Took(old(StepInsideGetter(input, pos, parenDepth, getterDepth)), old(tokens), next)
    {
      RemoveLeadingWhitespace();
      var r := Next();
      if r == Eof {
        next := Errorf("unexpected eof in getter");
      } else if r == Rune('[') {
        var _ := Backup();
        next := Fn(LexGetterOpening);
      } else if r == Rune(']') {
        var _ := Backup();
        next := Fn(LexGetterClosing);
      } else if r == Rune('"') {
        var _ := Backup();
        next := Fn(LexArgument);
      } else {
        next := Errorf(Unexpected("inside getter", r.c));
      }
    }

    method GetterOpening() returns (next: StateFn)
      requires Enters(LexGetterOpening)
      modifies this
      ensures Took(old(Step(input, LexGetterOpening, pos, parenDepth, getterDepth)), old(tokens), next)
    {
      var _ := Next();
      Emit(LeftGetter);
      getterDepth := getterDepth + 1;
      return Fn(LexGetterType);
    }

    /** Read up to and including the rune that ends a getter type. */
    method ReadType() returns (r: Rune)
      requires start == pos <= |input|
      modifies `pos, `width
      ensures var e := FindTypeEnd(input, start);
              if e == |input| then r == Eof && pos == e
              else r == Rune(input[e]) && pos == e + 1 && width == 1
    {
      r := Next();
      while r != Eof && !EndsType(r.c)
        invariant start < pos <= |input| || (r == Eof && start == pos == |input|)
        invariant r == Eof ==> FindTypeEnd(input, start) == pos == |input|
        invariant r != Eof ==>
                    width == 1 && r == Rune(input[pos - 1]) &&
                    FindTypeEnd(input, start) == FindTypeEnd(input, pos - 1)
        decreases |input| - pos, r != Eof
      {
        r := Next();
      }
    }

    /** A getter type, if it has an end. */
    method CutType() returns (r: Rune)
      requires Enters(LexGetterType)
      modifies `pos, `width, `tokens, `start, `crashed
      ensures var e := FindTypeEnd(input, old(pos));
              if e == |input| then r == Eof && pos == e && start == old(start) && tokens == old(tokens) && !crashed
              else
                r == Rune(input[e]) && old(pos) <= pos == start == TrimBack(input, e) && !crashed &&
                tokens == old(tokens) + [Slice(input, Type.GetterType, old(pos), pos)]
    {
      r := ReadType();
      if r != Eof {
        CutTrimmed(Type.GetterType);
      }
    }

    method GetterType() returns (next: StateFn)
      requires Enters(LexGetterType)
      modifies this
      ensures Took(old(StepGetterType(input, pos, parenDepth, getterDepth)), old(tokens), next)
    {
      ghost var sent, p := tokens, pos;
      var r := CutType();
      if r == Eof {
        next := Errorf("unclosed getter");
      } else if r == Rune(':') {
        ghost var t := pos;
        CutSeparator();
        Sent2(sent, Slice(input, Type.GetterType, p, t), Slice(input, GetterSeparator, t, pos));
        next := Fn(LexGetterValue);
      } else if r == Rune('"') {
        next := Fn(LexArgument);
      } else {
        next := Fn(LexInsideGetter);
      }
    }

    /** n more rounds of the loop of the last or of the next state function behind the error it
        sends at the end of the file: each sends the error again, and nothing else changes, so
        that there is no last one. */
    method RoundsAtEnd(n: nat)
      requires pos == |input|
      modifies `pos, `width, `tokens
      ensures pos == old(pos) && width == old(width)
      ensures tokens == old(tokens) + Again(Fault(input, "unclosed getter", start, pos), n)
    {
      for i := 0 to n
        invariant pos == old(pos) && width == old(width)
        invariant tokens == old(tokens) + Again(Fault(input, "unclosed getter", start, pos), i)
      {
        var r := Next();
        assert r == Eof;
        var _ := Errorf("unclosed getter");
      }
    }

    method GetterValue() returns (next: StateFn)
      requires Enters(LexGetterValue)
      modifies this
      ensures Took(old(StepGetterValue(input, pos, parenDepth, getterDepth)), old(tokens), next)
    {
      var r := ReadName();
      if r == Eof {
        next := Errorf("unclosed getter");
      } else if r == Rune(']') {
        CutTrimmed(Type.GetterValue);
        next := Fn(LexGetterClosing);
      } else if r == Rune('"') {
        var _ := Backup();
        next := Fn(LexArgument);
      } else {
        next := Errorf(Unexpected("inside getter value", r.c));
      }
    }

    method GetterClosing() returns (next: StateFn)
      requires Enters(LexGetterClosing)
      modifies this
      ensures Took(old(StepGetterClosing(input, pos, parenDepth, getterDepth)), old(tokens), next)
    {
      RemoveLeadingWhitespace();
      var _ := Next();
      Emit(RightGetter);
      getterDepth := getterDepth - 1;
      return Fn(if getterDepth == 0 then LexInsidePromise else LexInsideGetter);
    }

    method Apply(st: State) returns (next: StateFn)
      requires Enters(st)
      modifies this
      ensures Took(old(Step(input, st, pos, parenDepth, getterDepth)), old(tokens), next)
    {
      match st
      case LexComment => next := Comment();
      case LexPromiseOpening => next := PromiseOpening();
      case LexPromiseName => next := PromiseName();
      case LexInsidePromise => next := InsidePromise();
      case LexPromiseClosing => next := PromiseClosing();
      case LexArgument => next := Argument();
      case LexInsideGetter => next := InsideGetter();
      case LexGetterOpening => next := GetterOpening();
      case LexGetterType => next := GetterType();
      case LexGetterValue => next := GetterValue();
      case LexGetterClosing => next := GetterClosing();
    }

    /** The run ends, and has sent what the scanner says and nothing else. */
    method Run()
      requires start == pos == 0 && parenDepth == getterDepth == 0 && tokens == [] && !crashed
      modifies this
      ensures Tokens.Emit(tokens, if crashed then Crashed else Ended) == Lex(input)
    {
      var fn := Fn(LexComment);
      while fn != Nil
        invariant fn == Nil || Enters(fn.state)
        invariant Tokens.Emit(tokens, if fn != Nil then Scan(input, At(fn.state, pos, parenDepth, getterDepth))
                               else if crashed then Crashed else Ended) == Lex(input)
        decreases if fn == Nil then 0 else |input| - pos + 1, if fn == Nil then 0 else Rank(fn.state)
      {
        ghost var sent := tokens;
        ghost var m := Step(input, fn.state, pos, parenDepth, getterDepth);
        fn := Apply(fn.state);
        EmitConcat(sent, m.toks, Scan(input, m.next));
      }
    }
  }
}

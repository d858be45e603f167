/** Tokens and the stream in which the lexer hands them to the parser. */
module Tokens {
  import opened Text

  datatype Type =
    | Error
    | Comment
    | LeftPromise
    | RightPromise
    | PromiseName
    | LeftArg
    | Argument
    | RightArg
    | LeftGetter
    | GetterType
    | GetterSeparator
    | GetterValue
    | RightGetter
    | EOF

  datatype Token = Token(typ: Type, val: string, line: nat, start: nat, end: nat)

  /** What a reader of the token channel gets. After `Ended` the lexer goroutine has
      returned, so a further read waits for ever; `Crashed` is a panic in the lexer. */
  datatype Stream = Next(head: Token, tail: Stream) | Ended | Crashed

  function Length(s: Stream): nat {
    match s
    case Next(_, tail) => 1 + Length(tail)
    case _ => 0
  }

  function Emit(toks: seq<Token>, rest: Stream): Stream {
    if toks == [] then rest else Next(toks[0], Emit(toks[1..], rest))
  }

  lemma EmitConcat(a: seq<Token>, b: seq<Token>, rest: Stream)
    ensures Emit(a + b, rest) == Emit(a, Emit(b, rest))
  {
    if a == [] {
      assert a + b == b;
    } else {
      assert (a + b)[1..] == a[1..] + b;
      EmitConcat(a[1..], b, rest);
    }
  }

  lemma EmitOne(a: Token, rest: Stream)
    ensures Emit([a], rest) == Next(a, rest)
  {
  }

  lemma EmitTwo(a: Token, b: Token, rest: Stream)
    ensures Emit([a, b], rest) == Next(a, Next(b, rest))
  {
    assert [a, b][1..] == [b];
    EmitOne(b, rest);
  }

  lemma EmitThree(a: Token, b: Token, c: Token, rest: Stream)
    ensures Emit([a, b, c], rest) == Next(a, Next(b, Next(c, rest)))
  {
    assert [a, b, c][1..] == [b, c];
    EmitTwo(b, c, rest);
  }

  /** The line of position i: one more than the newlines before it. */
  function Line(input: string, i: nat): nat
    requires i <= |input|
  {
    if i == 0 then 1 else Line(input, i - 1) + if input[i - 1] == '\n' then 1 else 0
  }

  lemma LineGrows(input: string, i: nat, j: nat)
    requires i <= j <= |input|
    ensures Line(input, i) <= Line(input, j)
  {
    if i < j {
      LineGrows(input, i, j - 1);
    }
  }

  /** The token that covers input[a..b]. */
  function Slice(input: Ascii, typ: Type, a: nat, b: nat): Token
    requires a <= b <= |input|
  {
    Token(typ, input[a..b], Line(input, b), a, b)
  }

  /** An error token; its value is the message. */
  function Fault(input: Ascii, msg: string, a: nat, b: nat): Token
    requires b <= |input|
  {
    Token(Error, msg, Line(input, b), a, b)
  }
}

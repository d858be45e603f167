/**
 The recursive descent parser. The functions say what a parse of the rest of a token
 stream gives; the methods, which pull tokens from the lexer's channel in loops, are
 proved to give it.
 */
module Parser {
  import opened Text
  import opened Tokens
  import opened Syntax

  datatype Error =
    | LexError(message: string)
    | UnknownGetter(value: string)
    | BadPosition(value: string)
    | BadJoin(value: string)
    | BadArgument(value: string)
    | Duplicate(name: string)

  /** How a parse ends. `Blocked`: it waits for a token the lexer will never send;
      `Down`: the lexer's panic has taken the process with it. */
  datatype Parsed<T> =
    | Ok(value: T, rest: Stream)
    | Fail(error: Error)
    | Blocked
    | Down

  predicate Shorter<T>(r: Parsed<T>, s: Stream) {
    r.Ok? ==> Length(r.rest) < Length(s)
  }

  /** The text of an argument up to its closing quote; `text` is what has been read so far. */
  function ParseArg(s: Stream, text: string): (r: Parsed<Arg>)
    ensures Shorter(r, s)
    decreases Length(s)
  {
    match s
    case Ended => Blocked
    case Crashed => Down
    case Next(t, rest) =>
      match t.typ
      case Error => Fail(LexError(t.val))
      case Argument => ParseArg(rest, t.val)
      case RightArg => Ok(Constant(text), rest)
      case _ => Fail(BadArgument(t.val))
  }

  datatype Choice = Picked(value: Arg) | Refused(error: Error)

  /** The getter a value stands for under a getter type. */
  function GetterOf(typ: string, val: string): Choice {
    if typ == "arg" then
      match Atoi(val)
      case Some(i) => Picked(ArgGetter(i))
      case None => Refused(BadPosition(val))
    else if typ == "env" then Picked(EnvGetter(val))
    else if typ == "var" then Picked(VarGetter(val))
    else Refused(UnknownGetter(val))
  }

  /** A type that is none of the three, or a position that is no number. */
  predicate BadValue(typ: string, val: string) {
    (typ != "arg" && typ != "env" && typ != "var") || (typ == "arg" && !IsInt(val))
  }

  /** What a getter of one of the three types stands for. */
  function Meant(typ: string, val: string): Arg
    requires !BadValue(typ, val)
  {
    match typ
    case "arg" => ArgGetter(IntOf(val))
    case "env" => EnvGetter(val)
    case _ => VarGetter(val)
  }

  lemma PicksIff(typ: string, val: string)
    ensures if BadValue(typ, val) then GetterOf(typ, val).Refused? else GetterOf(typ, val) == Picked(Meant(typ, val))
  {
    AtoiIff(val);
  }

  /** A getter up to the first closing bracket; every other token in it is passed over. */
  function ParseGetter(s: Stream, typ: string, getter: Arg): (r: Parsed<Arg>)
    ensures Shorter(r, s)
    decreases Length(s)
  {
    match s
    case Ended => Blocked
    case Crashed => Down
    case Next(t, rest) =>
      match t.typ
      case Error => Fail(LexError(t.val))
      case GetterType => if t.val == "join" then ParseJoiner(rest, []) else ParseGetter(rest, t.val, getter)
      case GetterValue =>
        (match GetterOf(typ, t.val)
         case Picked(g) => ParseGetter(rest, typ, g)
         case Refused(e) => Fail(e))
      case RightGetter => Ok(getter, rest)
      case _ => ParseGetter(rest, typ, getter)
  }

  function ParseJoiner(s: Stream, parts: seq<Arg>): (r: Parsed<Arg>)
    ensures Shorter(r, s)
    decreases Length(s)
  {
    match s
    case Ended => Blocked
    case Crashed => Down
    case Next(t, rest) =>
      match t.typ
      case LeftArg =>
        (match ParseArg(rest, "")
         case Ok(a, rest') => ParseJoiner(rest', parts + [a])
         case stop => stop)
      case LeftGetter =>
        (match ParseGetter(rest, "", NoArg)
         case Ok(g, rest') => ParseJoiner(rest', parts + [g])
         case stop => stop)
      case RightGetter => Ok(Join(parts), rest)
      case _ => Fail(BadJoin(t.val))
  }

  /** A promise from behind its opening bracket; p is what has been read of it. */
  function ParsePromise(s: Stream, p: Unresolved): (r: Parsed<Unresolved>)
    ensures Shorter(r, s)
    decreases Length(s)
  {
    match s
    case Ended => Blocked
    case Crashed => Down
    case Next(t, rest) =>
      match t.typ
      case EOF => Ok(p, rest)
      case Error => Fail(LexError(t.val))
      case LeftPromise =>
        (match ParsePromise(rest, EMPTY_PROMISE)
         case Ok(c, rest') => ParsePromise(rest', p.(children := p.children + [c]))
         case stop => stop)
      case PromiseName => ParsePromise(rest, p.(name := t.val))
      case LeftArg =>
        (match ParseArg(rest, "")
         case Ok(a, rest') => ParsePromise(rest', p.(args := p.args + [a]))
         case Fail(e) => Fail(e)
         case Blocked => Blocked
         case Down => Down)
      case LeftGetter =>
        (match ParseGetter(rest, "", NoArg)
         case Ok(g, rest') => ParsePromise(rest', p.(args := p.args + [g]))
         case Fail(e) => Fail(e)
         case Blocked => Blocked
         case Down => Down)
      case RightPromise => Ok(p, rest)
      case _ => ParsePromise(rest, p)
  }

  /** All definitions of a file, added to the table of the files before it. */
  function Generate(s: Stream, tree: Tree): Parsed<Tree>
    decreases Length(s)
  {
    match s
    case Ended => Blocked
    case Crashed => Down
    case Next(t, rest) =>
      match t.typ
      case LeftPromise =>
        (match ParsePromise(rest, EMPTY_PROMISE)
         case Ok(p, rest') =>
           if p.name in tree then Fail(Duplicate(p.name)) else Generate(rest', tree[p.name := p])
         case Fail(e) => Fail(e)
         case Blocked => Blocked
         case Down => Down)
      case EOF => Ok(tree, rest)
      case Error => Fail(LexError(t.val))
      case _ => Generate(rest, tree)
  }

  /** Up to the first closing bracket there is no value, no (join) and no error. */
  predicate Valueless(s: Stream) {
    s.Next? &&
    match s.head.typ
    case RightGetter => true
    case Error => false
    case GetterValue => false
    case GetterType => s.head.val != "join" && Valueless(s.tail)
    case _ => Valueless(s.tail)
  }

  lemma {:induction false} JoinerJoins(s: Stream, parts: seq<Arg>)
    ensures ParseJoiner(s, parts).Ok? ==> ParseJoiner(s, parts).value.Join?
    decreases Length(s)
  {
    match s
    case Next(t, rest) =>
      if t.typ == LeftArg {
        var r := ParseArg(rest, "");
        if r.Ok? {
          JoinerJoins(r.rest, parts + [r.value]);
        }
      } else if t.typ == LeftGetter {
        var r := ParseGetter(rest, "", NoArg);
        if r.Ok? {
          JoinerJoins(r.rest, parts + [r.value]);
        }
      }
    case _ =>
  }

  /** A getter is nil if and only if it is closed before it has got a value. */
  lemma {:induction false} NilGetterIff(s: Stream, typ: string, getter: Arg)
    ensures var r := ParseGetter(s, typ, getter); r.Ok? && r.value == NoArg <==> getter == NoArg && Valueless(s)
    decreases Length(s)
  {
    match s
    case Next(t, rest) =>
      if t.typ == GetterType && t.val == "join" {
        JoinerJoins(rest, []);
      } else if t.typ == GetterValue {
        if GetterOf(typ, t.val).Picked? {
          NilGetterIff(rest, typ, GetterOf(typ, t.val).value);
        }
      } else if t.typ != Error && t.typ != RightGetter {
        NilGetterIff(rest, if t.typ == GetterType then t.val else typ, getter);
      }
    case _ =>
  }

  /** The reading end of the token channel. */
  class Reader {
    var rest: Stream

    constructor (s: Stream)
      ensures rest == s
    {
      rest := s;
    }

    /** Take the next token; None when there is none to come. */
    method NextToken() returns (t: Option<Token>)
      modifies this
      ensures match old(rest)
              case Next(head, tail) => t == Some(head) && rest == tail
              case _ => t == None && rest == old(rest)
    {
      match rest
      case Next(head, tail) => t := Some(head); rest := tail;
      case _ => t := None;
    }

    /** What a read that gives nothing means for the parser. */
    function Stuck<T>(): (r: Parsed<T>)
      requires !rest.Next?
      reads this
    {
      if rest == Ended then Blocked else Down
    }

    /** r, with the tokens it leaves left in the channel. */
    ghost predicate Leaves<T(!new)>(r: Parsed<T>, spec: Parsed<T>)
      reads this
    {
      r == spec && (r.Ok? ==> r.rest == rest)
    }

    method Arg() returns (r: Parsed<Arg>)
      modifies this
      ensures Leaves(r, ParseArg(old(rest), ""))
      ensures Length(rest) <= Length(old(rest))
    {
      var arg := "";
      while true
        invariant ParseArg(rest, arg) == ParseArg(old(rest), "")
        invariant Length(rest) <= Length(old(rest))
        decreases Length(rest)
      {
        var t := NextToken();
        if t == None {
          return Stuck();
        }
        match t.value.typ
        case Error => return Fail(LexError(t.value.val));
        case Argument => arg := t.value.val;
        case RightArg => return Ok(Constant(arg), rest);
        case _ => return Fail(BadArgument(t.value.val));
      }
    }

    method Getter() returns (r: Parsed<Arg>)
      modifies this
      ensures Leaves(r, ParseGetter(old(rest), "", NoArg))
      ensures Length(rest) <= Length(old(rest))
      decreases Length(rest)
    {
      var typ, getter := "", NoArg;
      while true
        invariant ParseGetter(rest, typ, getter) == ParseGetter(old(rest), "", NoArg)
        invariant Length(rest) <= Length(old(rest))
        decreases Length(rest)
      {
        var t := NextToken();
        if t == None {
          return Stuck();
        }
        match t.value.typ
        case Error => return Fail(LexError(t.value.val));
        case GetterType =>
          if t.value.val == "join" {
            r := Joiner();
            return;
          }
          typ := t.value.val;
        case GetterValue =>
          if typ == "arg" {
            var i := Atoi(t.value.val);
            if i == None {
              return Fail(BadPosition(t.value.val));
            }
            getter := ArgGetter(i.value);
          } else if typ == "env" {
            getter := EnvGetter(t.value.val);
          } else if typ == "var" {
            getter := VarGetter(t.value.val);
          } else {
            return Fail(UnknownGetter(t.value.val));
          }
        case RightGetter => return Ok(getter, rest);
        case _ =>
      }
    }

    method Joiner() returns (r: Parsed<Arg>)
      modifies this
      ensures Leaves(r, ParseJoiner(old(rest), []))
      ensures Length(rest) <= Length(old(rest))
      decreases Length(rest)
    {
      var parts := [];
      while true
        invariant ParseJoiner(rest, parts) == ParseJoiner(old(rest), [])
        invariant Length(rest) <= Length(old(rest))
        decreases Length(rest)
      {
        var t := NextToken();
        if t == None {
          return Stuck();
        }
        match t.value.typ
        case LeftArg =>
          r := Arg();
          if !r.Ok? { return; }
          parts := parts + [r.value];
        case LeftGetter =>
          r := Getter();
          if !r.Ok? { return; }
          parts := parts + [r.value];
        case RightGetter => return Ok(Join(parts), rest);
        case _ => return Fail(BadJoin(t.value.val));
      }
    }

    method Promise() returns (r: Parsed<Unresolved>)
      modifies this
      ensures Leaves(r, ParsePromise(old(rest), EMPTY_PROMISE))
      ensures Length(rest) <= Length(old(rest))
      decreases Length(rest)
    {
      var p := EMPTY_PROMISE;
      while true
        invariant ParsePromise(rest, p) == ParsePromise(old(rest), EMPTY_PROMISE)
        invariant Length(rest) <= Length(old(rest))
        decreases Length(rest)
      {
        var t := NextToken();
        if t == None {
          return Stuck();
        }
        match t.value.typ
        case EOF => return Ok(p, rest);
        case Error => return Fail(LexError(t.value.val));
        case LeftPromise =>
          r := Promise();
          if !r.Ok? { return; }
          p := p.(children := p.children + [r.value]);
        case PromiseName => p := p.(name := t.value.val);
        case LeftArg =>
          var a := Arg();
          match a {
            case Ok(v, _) => p := p.(args := p.args + [v]);
            case Fail(e) => return Fail(e);
            case Blocked => return Blocked;
            case Down => return Down;
          }
        case LeftGetter =>
          var g := Getter();
          match g {
            case Ok(v, _) => p := p.(args := p.args + [v]);
            case Fail(e) => return Fail(e);
            case Blocked => return Blocked;
            case Down => return Down;
          }
        case RightPromise => return Ok(p, rest);
        case _ =>
      }
    }

    /** Add the definitions of one file to the table. */
    method GeneratePromises(before: Tree) returns (r: Parsed<Tree>)
      modifies this
      ensures Leaves(r, Generate(old(rest), before))
    {
      var tree := before;
      while true
        invariant Generate(rest, tree) == Generate(old(rest), before)
        decreases Length(rest)
      {
        var t := NextToken();
        if t == None {
          return Stuck();
        }
        match t.value.typ
        case LeftPromise =>
          var q := Promise();
          match q {
            case Ok(p, _) =>
              if p.name in tree {
                return Fail(Duplicate(p.name));
              }
              tree := tree[p.name := p];
            case Fail(e) => return Fail(e);
            case Blocked => return Blocked;
            case Down => return Down;
          }
        case EOF => return Ok(tree, rest);
        case Error => return Fail(LexError(t.value.val));
        case _ =>
      }
    }
  }
}

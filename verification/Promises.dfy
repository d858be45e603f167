/** Resolved promises: the trees that are evaluated. */
module Promises {
  import opened Syntax

  datatype ExecType = ExecChange | ExecTest

  datatype Exec = Exec(typ: ExecType, args: seq<Arg>)

  datatype LogType = Info | Warning | Error

  /** Promises whose effect lies outside this model. */
  datatype ForeignKind = Template | Restart

  datatype Promise =
    | Named(name: string, body: Promise, args: seq<Arg>)
    | And(children: seq<Promise>)
    | Or(children: seq<Promise>)
    | Not(child: Promise)
    | True(child: Promise)
    | False(child: Promise)
    | Run(exec: Exec)
    | Pipe(execs: seq<Exec>)
    | SetVar(variable: Arg, value: Arg)
    | ReadVar(variable: Arg, source: Promise)
    | InDir(dir: Arg, child: Promise)
    | SetEnv(variable: Arg, value: Arg, child: Promise)
    | AsUser(user: Arg, child: Promise)
    | Log(typ: LogType, args: seq<Arg>)
    | EvalFile(root: Arg, path: Arg)
    | Foreign(kind: ForeignKind, args: seq<Arg>)
}

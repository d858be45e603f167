# LLConf: a verified model

LLConf reads configuration files in a small Lisp-like language, turns them into a tree of
promises and evaluates the tree, which comes down to running commands. This project models
that pipeline in Dafny, together with three stateful parts beside it, and proves what
connects the stages.

| stage | files |
|---|---|
| text, tokens | `Text.dfy`, `Tokens.dfy` |
| lexer: the machine, and the reference scanner it is proved against | `Lexer.dfy`, `Scanner.dfy` |
| what every token stream looks like | `TokenGrammar.dfy`, `Lossless.dfy` |
| parser: methods over the token channel, and what they compute | `Syntax.dfy`, `Parser.dfy` |
| lexer and parser together | `NeverBlocks.dfy`, `LexErrors.dfy`, `SourceText.dfy`, `Getters.dfy`, `RoundTrip.dfy`, `Printer.dfy`, `Reprint.dfy` |
| resolver, and loading a program of several files | `Promises.dfy`, `Resolver.dfy`, `ResolverTheory.dfy`, `Program.dfy` |
| evaluator: meaning, the machine with its shared heap, and theorems | `Semantics.dfy`, `Evaluator.dfy`, `Arguments.dfy`, `Answers.dfy`, `Environment.dfy`, `EvalInvariants.dfy`, `Commands.dfy`, `Independence.dfy`, `Inlining.dfy`, `Substitution.dfy`, `Soundness.dfy` |
| text to effects | `Pipeline.dfy` |
| output filter, throttle, server sessions, reports of runs | `Striplines.dfy`, `Throttle.dfy`, `Server.dfy`, `Session.dfy` |

How the parts hang together:

* The lexer moves `start` and `pos` about, backs up and trims. Each of its state functions is
  proved to take exactly one step of a scanner that only speaks of "skip white space", "longest
  run" and "cut trailing white space", and `Run` to send exactly the scanner's stream. The
  grammar, the tiling of the input, the hand-off to the parser and the round trip are then
  theorems about that stream, on every ASCII input.
* Loading succeeds exactly when the references between definitions have no cycle and every
  definition is well formed on its own. There is no cycle check in the program: the resolver
  recurses until the stack is gone if it gets into a cycle, which it does not if it meets an
  error first. `ResolverTheory.EndlessIff` and `Program.OverflowIff` say exactly when it does;
  where all definitions are well formed on their own, every cycle is fatal
  (`Program.OverflowIffCycle`, and `Program.CyclesDiffer` for a table of each kind). The model
  bounds the depth of references and shows the bound to be exact, so `Overflow` means "never ends".
* The evaluator copies contexts shallowly, so promises share the map of variables, the output
  buffers and, through `append`, the array behind the environment. It is proved to agree with
  a function from state to state in which nothing is shared; a second interpreter, which looks
  names up as they are called and never inlines anything, agrees with that function too.
* Commands, directories, users and the process environment are functions of a `Host`, whose
  answers may depend on every command run so far. Go panics are outcomes. An (eval) compiles the
  definitions that the machine has at a path, and evaluates one of them.

Where the code differs from what is written about it, the model follows the code:

* The Readme says that a variable can be overwritten locally. It cannot: a called promise gets a
  copy of its caller's variables, and writing another value to a name that is bound in the copy
  panics (`EvalInvariants.NoLocalOverwriting` gives the exact condition).
* The tests of (test) and (readvar) expect the newline at the end of a command's output to stay
  in the output buffer. A single command drops the ends of lines; only a pipe keeps them.
* (readvar) documents its child as a command. It takes a named promise as well, and if that runs
  no command, it stores what the output buffer held before: the output of the last command of the
  run, or nothing if there was none (`EvalInvariants.ReadsLastOutput`).
* A pipe whose last command does not start is not an error: the pipe returns false, the buffers
  are empty, and (readvar) stores the empty string (`Commands.PipeRunsAll`,
  `EvalInvariants.ReadsMissedPipe`).
* The report of a run is meant to count that run. The counters are reset only behind a report, so
  what a run did before it panicked is counted in the next report (`Session.ReportsChangeOfOther`).
  The warning that the server counts for a client of another version is in that client's report,
  or in the next one's (`Session.ReportsWarningOfServer`, `Session.ReportsWarningOfOther`).
  `Session.ReportIsOfRunIff` says exactly when the numbers are those of the run.
* White space between `(` and a character that cannot start a name makes the lexer panic
  (`NeverBlocks.EmptyPromiseCrashes`); `NeverBlocks.CrashIffNameless` says that nothing else does.
* White space before the colon of a getter hides the colon: the separator token is then empty,
  and the file cannot be read (`LexErrors.HiddenColonUnreadable`; for files like `(a [var :x])`
  `LexErrors.HiddenColonFile`). `LexErrors.SeparatorIff` says exactly when.
* At the end of the file inside a getter type or a getter value the lexer sends error tokens
  without end. The model stops at the first error, as the parser does; `LexErrors.LoopsIff` says
  exactly when the program's lexer does not stop, and `LexErrors.UnclosedFile` that it does not on
  files like `(a [`.
* A getter whose value is followed by a quote loses the value and parses to a nil argument
  (`Printer.DroppedValue`); `Parser.NilGetterIff` says exactly which getters are nil.
* Of several clients whose commands run at once, at most one has the log: whoever starts or
  finishes a command takes it from the others (`Server.OwnLogIff`, `Server.LogLostToOther`).

## Model

| member | source | states |
|---|---|---|
| Scanner.Step | compiler/lexer/lexer.go:117-311 | up to the first error every state function leaves the next one what it relies on, and either consumes input or falls in a fixed ranking of states at the same position, so that the lexer gets to the end of the file or to an error |
| Scanner.ColonHidden | compiler/lexer/lexer.go:253-267 | behind a getter type with white space before its colon comes an empty separator and then always an error |
| LexErrors.SeparatorIff | compiler/lexer/lexer.go:253-267 | at every getter type that a colon ends, the separator is the colon if and only if no white space is before it, and empty otherwise |
| Lexer.Lexer.Emit | compiler/lexer/lexer.go:52-64 | cuts the token between `start` and `pos`, or panics exactly when `pos` has fallen behind `start` |
| Lexer.Lexer.Next | compiler/lexer/lexer.go:66-75 | takes one rune, or says eof and stays |
| Lexer.Lexer.Backup | compiler/lexer/lexer.go:77-83 | goes back one rune and returns the rune it stands before |
| Lexer.Lexer.RemoveTrailingWhitespace | compiler/lexer/lexer.go:85-91 | ends just behind the last rune that is not white space |
| Lexer.Lexer.RemoveLeadingWhitespace | compiler/lexer/lexer.go:93-106 | moves both ends of the token to the first rune that is not white space, except at the end of the input |
| Lexer.Lexer.Errorf | compiler/lexer/lexer.go:39-50 | sends an error token that spans what has been read and stops |
| Lexer.Lexer.Comment | compiler/lexer/lexer.go:117-130 | takes the scanner's step between definitions |
| Lexer.Lexer.PromiseOpening | compiler/lexer/lexer.go:132-138 | takes the scanner's step at an opening bracket |
| Lexer.Lexer.PromiseName | compiler/lexer/lexer.go:140-155 | takes the scanner's step over a name: the longest run of name runes, trimmed, or a panic |
| Lexer.Lexer.InsidePromise | compiler/lexer/lexer.go:157-181 | takes the scanner's step to the next item of a promise |
| Lexer.Lexer.PromiseClosing | compiler/lexer/lexer.go:183-198 | takes the scanner's step at a closing bracket, with the error branch of the code |
| Lexer.Lexer.Argument | compiler/lexer/lexer.go:200-221 | sends an opening quote, the text up to the next quote, and that quote |
| Lexer.Lexer.InsideGetter | compiler/lexer/lexer.go:223-244 | takes the scanner's step to the next item of a getter |
| Lexer.Lexer.GetterOpening | compiler/lexer/lexer.go:246-251 | takes the scanner's step at the opening bracket of a getter |
| Lexer.Lexer.GetterType | compiler/lexer/lexer.go:253-278 | takes the scanner's step over a getter type and, if one follows, the separator |
| Lexer.Lexer.GetterValue | compiler/lexer/lexer.go:280-299 | takes the scanner's step over a getter value |
| Lexer.Lexer.GetterClosing | compiler/lexer/lexer.go:301-311 | takes the scanner's step at the closing bracket of a getter |
| Lexer.Lexer.Run | compiler/lexer/lexer.go:33-37 | up to the first error the run has sent exactly the scanner's stream, ending in the panic exactly when the stream does |
| Lexer.Lexer.RoundsAtEnd | compiler/lexer/lexer.go:253-299 | behind the error of an unclosed getter the loop sends the same error again, any number of times, and changes nothing else |
| LexErrors.LoopsIff | compiler/lexer/lexer.go:253-299 | the lexer gets into that loop, so that the program's run does not end, if and only if the stream ends in the error of an unclosed getter: some getter type or getter value goes on to the end of the file |
| LexErrors.UnclosedFile | compiler/lexer/lexer.go:253-257 | it does on `(a [`, and on every file that goes on from there like a getter type |
| TokenGrammar.StepKeeps | compiler/lexer/lexer.go:132-311 | every state function keeps the bracket grammar of tokens |
| TokenGrammar.LexGrammatical | compiler/lexer/lexer.go:117-311 | on every input, promise, getter and argument brackets nest, every `(` is followed by its name, and EOF comes only outside all brackets |
| Lossless.CrashIsEmptyName | compiler/lexer/lexer.go:140-155 | the lexer panics at a name exactly when white space and then a character that cannot start a name come next |
| Lossless.LexTiles | compiler/lexer/lexer.go:52-115 | every token is its slice of the input on its line, spans are in order and lines never decrease, only white space is lost between them (or a getter value before a quote), brackets are spelled as brackets, EOF is at the end, and the error at the end of a promise is never sent |
| NeverBlocks.CrashIffNameless | compiler/lexer/lexer.go:140-151 | a file makes the lexer panic if and only if some promise in it opens on white space with no name behind it |
| NeverBlocks.NamedNeverCrashes | compiler/lexer/lexer.go:140-151 | a text in which no `(` is followed by white space and then a character that cannot start a name never brings the process down |
| NeverBlocks.EmptyPromiseCrashes | compiler/lexer/lexer.go:140-151 | the file `( )` does |
| LexErrors.ReadHasNoError | compiler/parser/parser.go:226-248 | the parser passes over no error: a file that is read has none among its tokens |
| LexErrors.HiddenColonUnreadable | compiler/lexer/lexer.go:253-299 | a file in which some getter has white space before its colon is never read |
| LexErrors.HiddenColonFile | compiler/lexer/lexer.go:253-299 | so `(a [var :x])` is not, nor any file that starts like it |
| NeverBlocks.GenerateComes | compiler/parser/parser.go:187-248 | on every stream of the grammar the parser stops in time, and has read everything if it succeeds |
| NeverBlocks.ParserNeverBlocks | compiler/lexer/interface.go:7-20 | lexer and parser composed never wait for a token that is not sent, on any file; the process goes down only for a nameless promise, and a file that parses has none |
| Syntax.AtoiNotation | compiler/parser/parser.go:122-129 | every position a 64-bit int can hold is read back from how it is written |
| Syntax.AtoiSpells | compiler/parser/parser.go:122-129 | a string is read as the position n if and only if it writes n: a sign, which a negative number has to have, any number of zeros, and its decimal notation, n being in the range of a 64-bit int |
| Getters.GetterReads | compiler/parser/parser.go:108-141 | a getter with one value is a positional argument, an environment variable or a variable by its type; any other type, and a position that is no int, is an error, and which one |
| Getters.RefusedUnreadable | compiler/parser/parser.go:134-135 | a file in which, anywhere, a getter value comes under a type other than arg, env or var, or a position that is no int, is never read |
| Getters.RefusedFile | compiler/parser/parser.go:122-135 | so `(a [foo:x])` and `(a [arg:x])` are not, nor any file that starts like them, with any such type and value |
| Parser.Reader.NextToken | compiler/lexer/interface.go:17-20 | takes the next token of the stream, or nothing when none will come |
| Parser.Reader.Arg | compiler/parser/parser.go:170-185 | reads what ParseArg says and leaves the tokens it leaves |
| Parser.Reader.Getter | compiler/parser/parser.go:108-141 | reads what ParseGetter says: unknown tokens are passed over, the first closing bracket ends it |
| Parser.Reader.Joiner | compiler/parser/parser.go:143-168 | reads what ParseJoiner says |
| Parser.Reader.Promise | compiler/parser/parser.go:187-222 | reads what ParsePromise says, nested promises included |
| Parser.Reader.GeneratePromises | compiler/parser/parser.go:226-248 | adds what Generate says to the table, or fails on a duplicate |
| Parser.NilGetterIff | compiler/parser/parser.go:108-141 | a getter parses to nil if and only if its first closing bracket comes before any value, (join) or error |
| RoundTrip.ArgReads | compiler/parser/parser.go:108-185 | an argument, getter or joiner in any layout is read back exactly, to any depth of joiners |
| RoundTrip.DroppedReads | compiler/lexer/lexer.go:280-299 | a getter with a quote behind its value, whatever the value and the quoted text, is read to the end and is nil |
| RoundTrip.PromiseReads | compiler/parser/parser.go:187-222 | a promise in any layout, arguments and children interleaved, is read back exactly |
| RoundTrip.ReadsBack | compiler/parser/parser.go:226-248 | the text of any well-formed file, with any white space and comments, lexes and parses to exactly the table of its definitions |
| Printer.PrintsBack | compiler/parser/parser.go:226-248 | printing any definitions that can be written, under new names, and reading the text gives exactly these definitions |
| Printer.WritableIff | compiler/parser/parser.go:108-222 | which definitions can be written: a definition is what some text in the layout of the language means if and only if its names, constants, positions and joiners are of the given form |
| Reprint.ReadIsWritable | compiler/parser/parser.go:108-248 | whatever a file says, every definition that is read from it can be written, promises without a name and nil arguments included |
| Reprint.Reprints | compiler/parser/parser.go:226-248 | for every file that is read, printing its definitions in any order and reading the text gives the same table |
| Printer.DroppedValue | compiler/lexer/lexer.go:280-299 | a (setvar) whose getter has a quote behind its value parses to one with a nil argument |
| ResolverTheory.NewFits | compiler/parser/parser.go:13-34 | the builtins accept exactly the children and arguments of one table, and make the sort of promise their name says |
| ResolverTheory.FoundIffBuiltin | compiler/parser/parser.go:13-34 | a name that is no definition is found if and only if it is in the table of builtins |
| ResolverTheory.Monotone | compiler/parser/parser.go:77-106 | a resolution that ends does not depend on the bound on its depth |
| ResolverTheory.DeepForEver | compiler/parser/parser.go:61-106 | what has not ended after as many nested references as there are definitions never ends |
| ResolverTheory.AcyclicEnds | compiler/parser/parser.go:61-106 | without cycles resolution ends, in a tree or in an error |
| ResolverTheory.EndlessIff | compiler/parser/parser.go:61-106 | resolving a definition never ends if and only if it gets from definition to definition, past no use that fails, for more steps than there are definitions |
| ResolverTheory.EndlessIffCycle | compiler/parser/parser.go:61-106 | where all definitions are well formed on their own, some definition never ends if and only if the references have a cycle |
| ResolverTheory.ResolvesIff | compiler/parser/parser.go:61-106 | a table resolves if and only if its references have no cycle and every definition is well formed on its own |
| Program.Parse | compiler/parser/parser.go:250-272 | the loops over files and definitions give the promises of the table of all files, or the error, the endless recursion or the panic that the first failing step gives; waiting for ever is not among the outcomes |
| Program.OverflowIff | compiler/parser/parser.go:261-271 | a table can be read for ever if and only if some definition has such a trail |
| Program.OverflowIffCycle | compiler/parser/parser.go:261-271 | a table of definitions well formed on their own loads if it has no cycle, and is read for ever if it has one |
| Program.CyclesDiffer | compiler/parser/parser.go:77-106 | two tables with the same cycle: `(a (a))` is read for ever, `(a (and (nosuch) (a)))` is an error |
| Program.TablesAreAdding | compiler/parser/parser.go:226-259 | parsing files into one table is reading the definitions of each alone and adding them under new names |
| Program.FilesInAnyOrder | compiler/compiler.go:18-50 | if the files parse in one order, they parse to the same table in every order |
| Program.LoadsInAnyOrder | compiler/compiler.go:18-50 | a program that loads in one order of files and definitions loads to the same promises in every order |
| Evaluator.Append | promise/set_env.go:19-20 | appending extends the slice and leaves the elements of the old one alone, in place or in a new array of any capacity |
| Evaluator.Value | promise/promise.go:27-31 | the value of an argument of any sort |
| Evaluator.JoinedValue | promise/join_getter.go:9-16 | collects the value of a joiner part by part, up to the first panic |
| Arguments.StandsIff | promise/var_getter.go:13-19 | an argument has a value if and only if it stands for one: a constant its text, [arg:i] the i-th argument of the call or nothing, [env:n] what the machine gives, [var:n] what is bound to n or "missing", a joiner the values of its parts one behind the other |
| Arguments.BreaksIff | promise/arg_getter.go:15-20 | it has none, and panics, if and only if it is nil, a negative position, or a joiner of such, whatever the arguments and variables are |
| Arguments.JoinAppends | promise/join_getter.go:9-16 | the value of a joiner of a and then b is that of the joiner of a and then that of b |
| Arguments.JoinOne | promise/join_getter.go:9-16 | the value of a joiner of one part is that of the part |
| Answers.ValueReaches | promise/exec_promise.go:70-77 | what an argument of a (test) or (change) stands for is what the command is given |
| Answers.WrittenReaches | promise/setvar_promise.go:27-38 | a command behind a (setvar) is given the trimmed value for [var:n] |
| Answers.PassedReaches | promise/named_promise.go:34-49 | a command in a called promise is given for [arg:i] what the i-th argument of the call stands for, and nothing if there is none |
| Evaluator.GetCommand | promise/exec_promise.go:70-104 | the command has the values of the arguments in order, the executable found below the directory in force if there is one, that directory, and the process environment followed by the bindings in force |
| Evaluator.EvalExec | promise/exec_promise.go:157-194 | runs the command, fills the emptied buffers without ends of lines, counts it and reports its output |
| Answers.RunAnswers | promise/exec_promise.go:157-194 | a (test) or (change) whose command starts returns the machine's answer to it and leaves the lines of its output and of its errors in the two buffers, counted once; one that does not start panics and leaves nothing |
| Answers.NoCommandIff | promise/exec_promise.go:70-77 | it has no command, and panics and changes nothing, if and only if it has no argument or one without a value |
| Evaluator.EvalPipe | promise/exec_promise.go:230-297 | starts and counts all commands but the last, then runs the last into the emptied buffers; a last command that does not start is not run and makes the pipe false |
| Answers.PipeAnswers | promise/exec_promise.go:230-297 | a pipe panics if a command that feeds another does not start; otherwise it returns the machine's answer to its last command and leaves its output and errors as they are, or, if that one does not start, false and nothing |
| Evaluator.EvaluateNamed | promise/named_promise.go:34-49 | evaluates the body on argument values and a copy of the variables; the caller's variables are not touched |
| Answers.CallKeepsVariables | promise/named_promise.go:40-48 | whatever a called promise writes, the variables of its caller are what they were |
| Evaluator.ExtendEnv | promise/set_env.go:15-20 | the copied context has one binding more, in the same array or a new one; the context it is copied from has the environment it had |
| Evaluator.EvaluateSetEnv | promise/set_env.go:15-22 | evaluates the child in the extended environment and leaves the environment of the context as it was, although the array behind it may be shared |
| Evaluator.EnterDir | promise/in_dir.go:26-46 | the directory is joined to the one in force unless absolute, and must exist |
| Evaluator.EvaluateInDir | promise/in_dir.go:26-46 | evaluates the child in that directory, with the same variables |
| Environment.InDirAnswers | promise/in_dir.go:26-46 | an (indir) is its child in the directory that the machine makes of the given one, joined to the one in force unless absolute, and a panic if it makes none |
| Environment.AsUserAnswers | promise/as_user.go:21-47 | an (asuser) is its child as the user of that name, and a panic if there is none |
| Evaluator.CompilePromise | promise/eval_promise.go:35-58 | the program of an (eval) needs a root name, its files and the library, must resolve and define the root |
| Evaluator.EvaluateFile | promise/eval_promise.go:66-88 | evaluates the root of that program without arguments in the directory of its files |
| Answers.FileAnswers | promise/eval_promise.go:66-88 | an (eval) of files that load and have the root is that root, without arguments, in the directory of the files |
| Answers.NoFileAnswers | promise/eval_promise.go:35-58 | an (eval) of files that do not panics and changes nothing |
| Evaluator.EvaluateAnd | promise/and_promise.go:29-36 | evaluates the children in order up to the first that fails |
| Evaluator.EvaluateOr | promise/or_promise.go:29-36 | evaluates the children in order up to the first that succeeds |
| Answers.AndAnswers | promise/and_promise.go:29-36 | (and) of any promises: those before the first that does not return true are evaluated in turn, each behind the one before, and the result is that one's; true if all return true |
| Answers.OrAnswers | promise/or_promise.go:29-36 | likewise (or), up to the first that does not return false |
| Answers.WrapsAnswer | promise/not_promise.go:25-31 | (not), (true) and (false) do all that their child does and turn what it returns round, into true, into false; its panics pass through |
| Answers.LogAnswers | promise/log_promise.go:44-64 | a (warn) counts one warning, an (error) one error, an (info) nothing; they see no variables, and panic if and only if they lack an argument or its value |
| Answers.ForeignAnswers | promise/template_promise.go:36-69 | a (template) or (restart) gives what the machine answers for what its arguments stand for |
| Evaluator.EvalSetVar | promise/setvar_promise.go:27-38 | binds the trimmed value, or panics if another value is bound |
| Answers.SetVarAnswers | promise/setvar_promise.go:27-38 | a (setvar) binds the trimmed value and returns true if and only if both arguments have a value and the name is unbound or bound to that value; otherwise it panics and changes nothing |
| Evaluator.EvalReadVar | promise/readvar_promise.go:44-56 | binds the trimmed output buffer, or panics if another value is bound |
| Answers.ReadVarAnswers | promise/readvar_promise.go:44-56 | for every child, argument and state: a (readvar) returns if and only if its child does and the name is unbound or bound to the child's trimmed output; then it returns what the child returns and has bound that output |
| Evaluator.Evaluate | promise/promise.go:10-31 | with everything that contexts share, the outcome, variables, buffers, counters and commands are those of the semantics without sharing |
| EvalInvariants.EvalEvolves | promise/exec_promise.go:38-46 | over every evaluation, panics and (eval)ed files included: bound variables keep their values, and Changes and Tests move with the commands run but for the last of each pipe; and on return the output buffer is that of the most recent command, except that it is empty behind a pipe whose last command did not start |
| EvalInvariants.NoOverwriting | promise/setvar_promise.go:31-36 | whatever runs in between, writing another value to a bound variable panics and changes nothing |
| EvalInvariants.NoLocalOverwriting | promise/named_promise.go:40-48 | a (setvar) in a called promise succeeds if and only if the name is unbound in the caller or bound to the same value, and the caller does not see it |
| EvalInvariants.ReadsLastOutput | promise/readvar_promise.go:44-56 | from every state and for every argument, (readvar) binds, to the name the argument gives behind the child, the trimmed output of the most recent command, of what the buffer held before if there was none, and nothing behind a pipe whose last command did not start |
| EvalInvariants.ReadsMissedPipe | promise/exec_promise.go:280-297 | that exception at a concrete pipe |
| EvalInvariants.DeMorgan | promise/not_promise.go:25-31 | not of (and) is (or) of nots with all effects |
| Commands.ValuesEach | promise/exec_promise.go:70-77 | a list of arguments has values exactly if each has one, and in the same order |
| Commands.RunsItsCommand | promise/exec_promise.go:157-194 | a (test) or (change) that returns has run one command: its own arguments, in the directory, environment and with the user in force |
| Commands.PipeRunsAll | promise/exec_promise.go:230-297 | a pipe that returns has run its commands once and in order, all of them if and only if the last one started; otherwise all but that one, with an empty output buffer |
| Commands.PipeOfNothing | promise/exec_promise.go:280-297 | a pipe of one command that does not start returns false and has run nothing |
| Environment.EveryEnvironment | promise/exec_promise.go:98-101 | the i-th command that any promise runs, in called promises and (eval)ed files too, sees exactly the process environment, the bindings in force outside, and the evaluated bindings of the (setenv)s around it, outermost first |
| Environment.EveryScope | promise/in_dir.go:26-46 | every command that any promise runs, in called promises and (eval)ed files too, has the directory, bindings and user that the (indir)s, (setenv)s, (asuser)s and (eval)s around it make, one inside the other, of those in force outside |
| Environment.EveryDirectory | promise/exec_promise.go:81-90 | so its directory is the one that the innermost (indir) or (eval) around it leads to from those around that one, or else the outer one, or else PWD |
| Environment.SitesOnPaths | promise/set_env.go:15-22 | and these (indir)s, (setenv)s, (asuser)s and (eval)s are those on a path to that command in the text of the promise, in the order they are written |
| Environment.OnlyOuter | promise/set_env.go:19-21 | where nothing is written that sets the bindings, the directory or the user, and no (eval), commands have those in force outside |
| Environment.NestedBindings | promise/set_env.go:15-22 | (setenv)s directly inside one another, with any names and values, extend the environment by their bindings, outermost first |
| Commands.FlattenIsLines | promise/exec_promise.go:127-139 | a single command leaves the lines of its output without their ends, one behind the other |
| Independence.EvalAhead | promise/exec_promise.go:38-46 | the four counters of the log are only added to: started with counters that are ahead, an evaluation does the same and ends with counters ahead by as much |
| Independence.EvalDeeper | promise/eval_promise.go:66-88 | an evaluation that stays within the bound on nested (eval)s is the same under every larger bound |
| Inlining.InliningPreserves | compiler/parser/parser.go:77-106 | evaluating the inlined tree is interpreting the table by looking names up at call time: same outcome, variables, commands, counters and panics |
| Inlining.LoadedMeansTable | promise/named_promise.go:34-49 | so it is for every definition of every program that loads, with calls nesting no deeper than there are definitions |
| Substitution.SubstClosesPromise | promise/arg_getter.go:15-20 | writing arguments into a promise leaves no reference to an argument in it |
| Substitution.SubstCloses | promise/join_getter.go:9-16 | nor in any argument, joiners included |
| Substitution.SubstPreserves | promise/named_promise.go:34-48 | evaluating with arguments is evaluating the promise they have been written into, with any arguments |
| Soundness.ResolveWellTyped | promise/readvar_promise.go:15-38 | every tree that resolves has the shape the New methods demand, called promises included |
| Soundness.PanicsForAReason | promise/exec_promise.go:202-220 | every panic is for a reason that can be read off the tree |
| Soundness.LoadedIsSound | promise/exec_promise.go:58-68 | a promise that resolved never panics for want of a command or a format |
| Pipeline.TextMeansWhatItSays | compiler/parser/parser.go:250-272 | a program written in any layout, acyclic and well formed, loads, and evaluating it does what its definitions say |
| Striplines.Striplines.Write | util/striplines.go:20-41 | a chunk of any size extends the text that has been filtered; the result counts what reached the buffer |
| Striplines.Striplines.WriteLn | util/striplines.go:58-66 | a line is dropped exactly if it and the line before are blank |
| Striplines.Striplines.Close | util/striplines.go:44-47 | the buffer is the one-pass filter of the whole text, and the line count is that of the lines kept |
| Striplines.Striplines.HasContent | util/striplines.go:53-56 | says whether the buffer is more than white space |
| Striplines.Strip | promise/exec_promise.go:403-417 | however the text is cut into chunks, the output is the one-pass filter, and has content exactly if the text has |
| Striplines.FilterKeeps | util/striplines.go:58-66 | the filter keeps all lines that are not blank, in order, and no two blank lines in a row |
| Striplines.Idempotent | util/striplines.go:20-66 | stripping twice is stripping once |
| Throttle.Throttle.constructor | util/throttle.go:32-46 | a share outside 0 to 1 and a negative slice are clamped, and accounting starts at zero |
| Throttle.FactorIs | util/throttle.go:32-42 | exactly a share of 0 or less sleeps for ever, a share of 1 or more has no sleep to ask for, and any other is the share of running in running and sleeping |
| Throttle.Throttle.Call | util/throttle.go:59-97 | all time up to the last return is accounted for, nothing changes before the slice is used up, and exactly the missing sleep is asked for |
| Throttle.DutyBound | util/throttle.go:74-96 | the time running stays below the share r of all time accounted for and one nanosecond |
| Session.ExecPromise | context/context.go:608-648 | a run in a fresh context gives the outcome, the report and the counters that the semantics gives; a panic gives no report and no reset |
| Session.ReportTells | context/context.go:608-652 | a report says what the promise returns, or why it panics, when it is evaluated without arguments, bindings, directory or user behind everything that has run before |
| Session.ReportsAnswer | context/context.go:620-652 | the report about a (test) or (change) is the machine's answer to its command, or that it did not start |
| Session.TallyCountsSinceReset | context/context.go:642-648 | over every sequence of runs, the counters are those of the commands run since the last reset |
| Session.Serve | server/server.go:247-256 | a warning is counted for a client of another version before its promise is run |
| Session.RunAdds | context/context.go:636-648 | a run adds what it counts by itself, and that warning, to the counters it finds, panics included, and takes no other notice of them |
| Session.ReportIsOfRunIff | context/context.go:636-648 | a report counts all commands since the report before; its changes, tests, errors and warnings are those of its own run if and only if the client has the server's version and no run that panicked in between has counted anything or been warned about |
| Session.ReportsWarningOfServer | server/server.go:247-252 | with nothing run before, the report of a client of another version has one warning that its run did not give |
| Session.ReportsWarningOfOther | server/server.go:247-252 | if that client's run panics, the warning is in the report of the next client |
| Session.ReportsChangeOfOther | context/context.go:608-648 | a run without commands is reported to have made the change of a run that panicked |
| Server.StepInv | server/server.go:193-325 | every step of the accept loop and of any connection keeps the session invariant |
| Server.EveryRun | server/server.go:193-325 | over every interleaving: the log goes to standard output or to a connection whose command is running, every command is answered once before the next is received, and a dying server accepts at most one more connection and starts at most one command per connection |
| Server.ServesOn | server/server.go:214-274 | for as long as the server is alive a connection can be served any number of commands, and each is answered; the log goes back to standard output behind each |
| Server.NeverDropped | server/server.go:214-277 | over every interleaving, a live server drops no connection unless its client goes, its command cannot be decoded or its answer cannot be sent |
| Server.RoundServes | server/server.go:263-273 | behind a command that is answered, a connection goes on if the server is alive and is closed if it is dying |
| Server.RefusesOnce | server/server.go:229-244 | a command that cannot be decoded is answered, and the connection is closed |
| Server.AcceptsIffAlive | server/server.go:280-324 | the accept loop takes another client if and only if the server is not dying when it looks |
| Server.OwnLogIff | server/server.go:193-200 | while its command runs, what a connection logs goes to its own client if and only if no other connection has started or finished a command since |
| Server.LogLostToOther | server/server.go:193-200 | with two clients, the end of one command sends the log of the other to standard output |

## Left out

- Characters outside ASCII: the lexer reuses the width of the rune at the new position when it backs up, so delimiters of several bytes behave differently; the model has one byte per character.
- File names and positions in error messages: a token keeps its line and span, but unresolved promises and errors do not.
- Lexer.Lexer.GetterType: at the end of the file the state function sends error tokens without end; here the stream stops at the first error, where the parser stops.
- Lexer.Lexer.GetterValue: as above.
- Lexer.Lexer.Run: as above; every other run is the whole run.
- Lexer.Lexer.Errorf: the character DEL in a message is written as newer versions of Go write it.
- Resolver.New: the wording of its errors is not modelled, only that there is one.
- Semantics.ForeignStep: (template) and (restart) are leaves that give a result or panic; their effects on files and the process are not modelled. Neither touches variables, counters or output.
- Evaluator.CompilePromise: files whose references never end, or that crash the lexer, end the process; here they are a panic.
- Evaluator.EvaluateFile: (eval)s nest up to a bound given with the scope, beyond which the run panics; the program has no bound and runs out of stack.
- Evaluator.EvalExec: a command is one step that ends with its output in the buffers. The program does not enforce this: `processOutput` has a value receiver, so the wait group that `Eval` waits on is another copy and never counts, and the readers may still be filling the buffers when `Eval` goes on. What is said of the output buffer assumes that they are done. A command of more than five minutes, for which `Eval` then waits for ever to stop the timer, and the limit of the line scanner (64 KiB) are part of what the machine answers.
- Evaluator.EvalPipe: the commands of a pipe run side by side; here they are started one after another and the output of the last one is the machine's answer. A pipe of more than five minutes blocks in the program as a single command does.
- Evaluator.EnterDir: cleaning a directory name and looking it up (`~`, absolute paths, stat) is one answer of the machine.
- SPipePromise.Eval (promise/exec_promise.go:333-400): never reached from a configuration file, since (spipe) makes a pipe.
- Evaluator.Evaluate: log output and stack strings are presentation; only whether output on stderr counts as a warning is kept.
- Throttle.Throttle.Call: the factor is a real number, so the rounding of floating point is not modelled, and neither is a clock that goes back.
- Server.Take: transports, decoding and the tomb are steps that may succeed or fail; a connection that ends in an error makes the server die, which is the separate step Kill.
- Session.ExecPromise: runs follow one another here; two connections of a server that run promises at the same time share the counters, and the run log file is not modelled.
- listFiles and symlinks (compiler/compiler.go:52-81): only that files may come in any order.
- The data store, certificates, command line and the restart of the listener.

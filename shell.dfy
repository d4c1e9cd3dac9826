/** The collaborators every parser relies on: the shell executor (`ShellParser.run`),
    the failures it raises, and the part of the filesystem the OCR strategies touch
    (one temporary directory per call). The executor itself is an injected oracle:
    a function from an argument list to the process' output or to a failure. */
module Shell {

  type Bytes = seq<bv8>

  /** An argument list handed to the executor; element 0 names the program. */
  type Command = seq<string>

  /** The commands a call ran, in the order it ran them. */
  type Trace = seq<Command>

  /** Keyword options forwarded by the caller; only the presence of a key is ever tested. */
  type Kwargs = map<string, string>

  datatype Option<+T> = None | Some(value: T)

  /** The failures a parser call can end with. `ShellError` carries the executor's
      classification of the failure, of which only `is_not_installed()` is observed. */
  datatype Error =
    | ShellError(command: Command, notInstalled: bool)
    | OSError(command: Command)
    | UnknownMethod(requested: Option<string>)
  {
    /** `ShellError.is_not_installed()`; any other kind of failure is not a ShellError. */
    predicate IsNotInstalled() {
      ShellError? && notInstalled
    }
  }

  datatype Result<+T> = Ok(value: T) | Err(error: Error)

  /** What a process that exits normally leaves behind: `(stdout, stderr)`. */
  datatype Output = Output(stdout: Bytes, stderr: Bytes)

  /** What `self.run` can answer: the output, a `ShellError` or an `OSError`.
      `UnknownMethod` is raised by the dispatchers only, never by a command. */
  predicate IsExecOutcome(out: Result<Output>)
  {
    out.Ok? || !out.error.UnknownMethod?
  }

  /** The shell executor: runs one command and returns its output or raises. */
  type Exec = exec: Command -> Result<Output> | forall args :: IsExecOutcome(exec(args))
    witness (args: Command) => Ok(Output([], []))

  /** The outcome of a parser operation together with the commands it ran. */
  datatype Run<+T> = Run(result: Result<T>, trace: Trace)

  /** `stdout, _ = self.run(args)`: keep stdout, drop stderr, let a failure through unchanged. */
  function Stdout(out: Result<Output>): (r: Result<Bytes>)
    ensures r.Ok? <==> out.Ok?
    ensures out.Ok? ==> r.value == out.value.stdout
    ensures out.Err? ==> r.error == out.error
  {
    match out
    case Ok(o) => Ok(o.stdout)
    case Err(e) => Err(e)
  }

  /** Run one command and return its stdout: the whole of every single-tool extractor. */
  function RunStdout(exec: Exec, args: Command): (r: Run<Bytes>)
    ensures r.trace == [args]
    ensures r.result == Stdout(exec(args))
  {
    Run(Stdout(exec(args)), [args])
  }

  /** The parser object as far as running commands goes. `exec` is the injected
      executor; the ghost `trace` records every command handed to it. */
  class ShellParser {
    const exec: Exec
    ghost var trace: Trace

    constructor (exec: Exec)
      ensures this.exec == exec && trace == []
    {
      this.exec := exec;
      trace := [];
    }

    /** `self.run(args)` */
    method Run(args: Command) returns (out: Result<Output>)
      modifies this
      ensures out == exec(args)
      ensures trace == old(trace) + [args]
    {
      out := exec(args);
      trace := trace + [args];
    }
  }

  /** The directories that exist, and a ghost log of the ones `mkdtemp` created. */
  class FileSystem {
    var dirs: set<string>
    ghost var created: seq<string>

    constructor (dirs: set<string>)
      ensures this.dirs == dirs && created == []
    {
      this.dirs := dirs;
      created := [];
    }

    /** `mkdtemp()`: the name it picks is passed in, and must not exist yet. */
    method Mkdtemp(path: string)
      requires path !in dirs
      modifies this
      ensures dirs == old(dirs) + {path}
      ensures created == old(created) + [path]
    {
      dirs := dirs + {path};
      created := created + [path];
    }

    /** `shutil.rmtree(path)` */
    method Rmtree(path: string)
      modifies this
      ensures dirs == old(dirs) - {path}
      ensures created == old(created)
    {
      dirs := dirs - {path};
    }
  }
}

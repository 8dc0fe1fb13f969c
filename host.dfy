/** The machine the operator drives. Its state is the filesystem, a map from path to text,
    and the trace: every externally visible step the operator takes (a subprocess, an HTTP
    request, a file unlinked, renamed or written), in order. Subprocesses and HTTP requests
    are not executed: an oracle answers them, and its answer may depend on everything done
    before, so a command may fail once and succeed later. */
module Host {

  type Path = string

  datatype Option<T> = None | Some(value: T)

  /** One externally visible step. */
  datatype Action =
    | Exec(argv: seq<string>)
    | HttpGet(url: string)
    | Unlink(path: Path)
    | Rename(src: Path, dst: Path)
    | WriteText(path: Path)

  /** How a subprocess ended: exit status zero or not, and what it printed. */
  datatype ExitResult = ExitResult(ok: bool, stdout: string)

  /** The answer to an HTTP GET: a response with its status code and body, or no response
      at all (connection refused, timeout, ...). */
  datatype HttpResponse = Response(status: int, text: string) | Unreachable

  /** The outside world: how each command ends and how each URL answers, given the trace so
      far; and the temporary directory `tempfile.TemporaryDirectory()` hands out. */
  datatype Oracle = Oracle(
    exec: (seq<Action>, seq<string>) -> ExitResult,
    web: (seq<Action>, string) -> HttpResponse,
    tmpDir: Path)

  datatype World = World(files: map<Path, string>, trace: seq<Action>)

  /** An `InfinibandOpsError` with its message, or an exception the operator's code does not
      catch (named by its Python class). */
  datatype Failure = OpsError(message: string) | Uncaught(exception: string)

  datatype Result<T> = Ok(value: T) | Err(failure: Failure)

  /** What an operation returns or raises, and the world it leaves. */
  datatype Effect<T> = Effect(result: Result<T>, world: World)

  /** What a library call returns, and the world it leaves. */
  datatype Reply<T> = Reply(value: T, world: World)

  /** The body of a `requests.get`, or the exception it raises. */
  datatype Fetched = Body(text: string) | HttpError | ConnectionError

  const FileNotFound := "FileNotFoundError"
  const RequestFailed := "requests.exceptions.ConnectionError"

  function Did(w: World, a: Action): World
  {
    w.(trace := w.trace + [a])
  }

  /** `subprocess.run(argv)`, with `check=True` when `check`: the value is whether
      `CalledProcessError` is raised. */
  function RunStep(o: Oracle, w: World, argv: seq<string>, check: bool): Reply<bool>
  {
    Reply(check && !o.exec(w.trace, argv).ok, Did(w, Exec(argv)))
  }

  /** `subprocess.check_output(argv)`: the output, or `None` when `CalledProcessError` is
      raised (non-zero exit). */
  function CheckOutputStep(o: Oracle, w: World, argv: seq<string>): Reply<Option<string>>
  {
    var res := o.exec(w.trace, argv);
    Reply(if res.ok then Some(res.stdout) else None, Did(w, Exec(argv)))
  }

  /** `requests.get(url)`, followed by `raise_for_status()` when `raiseForStatus`: only
      then does a 4xx or 5xx status raise `HTTPError`. */
  function GetStep(o: Oracle, w: World, url: string, raiseForStatus: bool): Reply<Fetched>
  {
    var answer := match o.web(w.trace, url)
      case Unreachable => ConnectionError
      case Response(status, text) =>
        if raiseForStatus && 400 <= status < 600 then HttpError else Body(text);
    Reply(answer, Did(w, HttpGet(url)))
  }

  /** `if p.exists(): p.unlink()`. */
  function RemoveIfExists(w: World, p: Path): World
  {
    if p in w.files then Did(w.(files := w.files - {p}), Unlink(p)) else w
  }

  /** `src.rename(dst)`: the value is whether it succeeded; it raises `FileNotFoundError`
      when `src` does not exist. Renaming a file onto itself changes nothing. */
  function RenameStep(w: World, src: Path, dst: Path): Reply<bool>
  {
    if src in w.files then
      Reply(true, Did(w.(files := (w.files - {src})[dst := w.files[src]]), Rename(src, dst)))
    else
      Reply(false, Did(w, Rename(src, dst)))
  }

  /** `p.write_text(text)`. */
  function WriteStep(w: World, p: Path, text: string): World
  {
    Did(w.(files := w.files[p := text]), WriteText(p))
  }

  /** The machine as the operator's code sees it: each method is one library call. */
  class Machine {
    var files: map<Path, string>
    var trace: seq<Action>
    const oracle: Oracle

    constructor (files: map<Path, string>, oracle: Oracle)
      ensures this.files == files && trace == [] && this.oracle == oracle
    {
      this.files := files;
      this.trace := [];
      this.oracle := oracle;
    }

    function State(): World
      reads this
    {
      World(files, trace)
    }

    /** `p.exists()` */
    method Exists(p: Path) returns (b: bool)
      ensures b == (p in files)
    {
      b := p in files;
    }

    /** `p.unlink()` on a path that exists. */
    method Unlink(p: Path)
      requires p in files
      modifies this
      ensures files == old(files) - {p} && trace == old(trace) + [Action.Unlink(p)]
    {
      files := files - {p};
      trace := trace + [Action.Unlink(p)];
    }

    method Rename(src: Path, dst: Path) returns (ok: bool)
      modifies this
      ensures Reply(ok, State()) == RenameStep(old(State()), src, dst)
    {
      ok := src in files;
      if ok {
        files := (files - {src})[dst := files[src]];
      }
      trace := trace + [Action.Rename(src, dst)];
    }

    method WriteText(p: Path, text: string)
      modifies this
      ensures State() == WriteStep(old(State()), p, text)
    {
      files := files[p := text];
      trace := trace + [Action.WriteText(p)];
    }

    method Run(argv: seq<string>, check: bool) returns (raised: bool)
      modifies this
      ensures Reply(raised, State()) == RunStep(oracle, old(State()), argv, check)
    {
      raised := check && !oracle.exec(trace, argv).ok;
      trace := trace + [Exec(argv)];
    }

    method CheckOutput(argv: seq<string>) returns (out: Option<string>)
      modifies this
      ensures Reply(out, State()) == CheckOutputStep(oracle, old(State()), argv)
    {
      var res := oracle.exec(trace, argv);
      out := if res.ok then Some(res.stdout) else None;
      trace := trace + [Exec(argv)];
    }

    method Get(url: string, raiseForStatus: bool) returns (f: Fetched)
      modifies this
      ensures Reply(f, State()) == GetStep(oracle, old(State()), url, raiseForStatus)
    {
      match oracle.web(trace, url) {
        case Unreachable =>
          f := ConnectionError;
        case Response(status, text) =>
          f := if raiseForStatus && 400 <= status < 600 then HttpError else Body(text);
      }
      trace := trace + [HttpGet(url)];
    }
  }
}

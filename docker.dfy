/**
 * The `docker` command lines the program runs and how it reads their output (`docker.rs`).
 * Running a process is outside the model: a `Runner` stands for the machine, giving the
 * captured output of an invocation or the io error of spawning it.
 */
module Docker {
  import opened Wrappers
  import opened Strings
  import opened Fs

  /** A run of the `docker` program: the working directory, when one is set, and the arguments. */
  datatype Invocation = Invocation(dir: Option<string>, args: seq<string>)

  /** The captured standard output and standard error, decoded lossily as UTF-8. */
  datatype Output = Output(stdout: string, stderr: string)

  /** `Command::output`: what running an invocation gives. */
  type Runner = Invocation -> Result<Output>

  /** A built image, known by its name. */
  datatype Image = Image(name: string)

  /** A started container: its id and the image it runs. */
  datatype Container = Container(id: string, image: Image)

  // ---------------------------------------------------------------------------------
  // The command lines.
  // ---------------------------------------------------------------------------------

  /** `docker build --network=host . -t <name>`. */
  function BuildArgs(name: string): seq<string>
  {
    ["build", "--network=host", ".", "-t", name]
  }

  /** The text after which the host folder is mounted in the container. */
  const MountSuffix: string := ":/home"

  /** `docker run -i -d -v <home>:/home --net=host <image>`. */
  function RunArgs(home: string, image: string): seq<string>
  {
    ["run", "-i", "-d", "-v", home + MountSuffix, "--net=host", image]
  }

  const CodePrefix: string := "CODE="
  const CommandPrefix: string := "cd home && "

  /** `docker exec --env CODE=<code> <id> bash -c "cd home && <cmd>"`. */
  function ExecArgs(id: string, cmd: string, code: string): seq<string>
  {
    ["exec", "--env", CodePrefix + code, id, "bash", "-c", CommandPrefix + cmd]
  }

  /** `docker kill <id>`. */
  function KillArgs(id: string): seq<string>
  {
    ["kill", id]
  }

  /** The image name a build command line tags, read back from it. */
  function BuildTag(args: seq<string>): Option<string>
  {
    if |args| == 5 && args[..4] == ["build", "--network=host", ".", "-t"] then Some(args[4]) else None
  }

  /** The host folder and the image of a run command line, read back from it. */
  function RunRequest(args: seq<string>): Option<(string, string)>
  {
    if |args| == 7 && args[..4] == ["run", "-i", "-d", "-v"] && args[5] == "--net=host" then
      match Between(args[4], "", MountSuffix)
      case Some(home) => Some((home, args[6]))
      case None => None
    else None
  }

  /** The container a kill command line names, read back from it. */
  function KillTarget(args: seq<string>): Option<string>
  {
    if |args| == 2 && args[0] == "kill" then Some(args[1]) else None
  }

  /** The container, the command and the code of an exec command line, read back from it. */
  function ExecRequest(args: seq<string>): Option<(string, string, string)>
  {
    if |args| == 7 && args[..2] == ["exec", "--env"] && args[4..6] == ["bash", "-c"] then
      match (Between(args[2], CodePrefix, ""), Between(args[6], CommandPrefix, ""))
      case (Some(code), Some(cmd)) => Some((args[3], cmd, code))
      case _ => None
    else None
  }

  lemma {:induction false} PrefixOnly(p: string, x: string)
    ensures Between(p + x, p, "") == Some(x)
  {
    BetweenOf(p, x, "");
    assert p + x + "" == p + x;
  }

  /** The build command line tags the image with the name it is given. */
  lemma {:induction false} BuildArgsTag(name: string)
    ensures BuildTag(BuildArgs(name)) == Some(name)
  {
    assert BuildArgs(name)[..4] == ["build", "--network=host", ".", "-t"];
  }

  /** The run command line mounts the folder and runs the image it is given. */
  lemma {:induction false} RunArgsRequest(home: string, image: string)
    ensures RunRequest(RunArgs(home, image)) == Some((home, image))
  {
    var args := RunArgs(home, image);
    assert args[..4] == ["run", "-i", "-d", "-v"];
    BetweenOf("", home, MountSuffix);
    assert "" + home + MountSuffix == home + MountSuffix;
  }

  /**
   * The exec command line runs the command it is given, from the mounted folder, in the
   * container it is given, with the code in the environment variable `CODE`.
   */
  lemma {:induction false} ExecArgsRequest(id: string, cmd: string, code: string)
    ensures ExecRequest(ExecArgs(id, cmd, code)) == Some((id, cmd, code))
  {
    var args := ExecArgs(id, cmd, code);
    assert args[..2] == ["exec", "--env"] && args[4..6] == ["bash", "-c"];
    PrefixOnly(CodePrefix, code);
    PrefixOnly(CommandPrefix, cmd);
  }

  // ---------------------------------------------------------------------------------
  // Reading the output.
  // ---------------------------------------------------------------------------------

  /** The text a successful build prints. */
  function SuccessMessage(name: string): string
  {
    "Successfully tagged " + name + ":latest"
  }

  function BuildPanic(stderr: string): string
  {
    "Failed to build docker image: " + stderr
  }

  function StartPanic(stderr: string): string
  {
    "Failed to start container: " + stderr
  }

  /**
   * `Image::build(name, docker_file)`: the folder `parent` is made canonical (an io error
   * ends the build), `docker build` runs in that folder, and the build counts as done only
   * when its output reports the tag; otherwise the thread panics. The file itself is made
   * canonical only inside the `info!` log line, whose arguments are evaluated only when
   * `logInfo` (info-level logging is enabled); an io error there also ends the build.
   */
  function Build(name: string, dockerFile: string, parent: string, logInfo: bool, canonicalize: Canonicalizer, run: Runner)
    : Outcome<Result<Image>>
  {
    if logInfo && canonicalize(dockerFile).Err? then Returned(Err(canonicalize(dockerFile).error))
    else
      match canonicalize(parent)
      case Err(e) => Returned(Err(e))
      case Ok(dir) =>
        match run(Invocation(Some(dir), BuildArgs(name)))
        case Err(e) => Returned(Err(e))
        case Ok(out) =>
          if Contains(out.stdout, SuccessMessage(name)) then Returned(Ok(Image(name)))
          else Panicked(BuildPanic(out.stderr))
  }

  /**
   * `Container::start(image, home_path)`: the folder is made canonical and mounted; any
   * error output makes the thread panic; otherwise the id is the output without the
   * whitespace around it.
   */
  function Start(image: Image, home: string, canonicalize: Canonicalizer, run: Runner): Outcome<Result<Container>>
  {
    match canonicalize(home)
    case Err(e) => Returned(Err(e))
    case Ok(dir) =>
      match run(Invocation(None, RunArgs(dir, image.name)))
      case Err(e) => Returned(Err(e))
      case Ok(out) =>
        if out.stderr != "" then Panicked(StartPanic(out.stderr))
        else Returned(Ok(Container(Trim(out.stdout), image)))
  }

  /** `Container::kill`: error output is only logged; only an io error of spawning is reported. */
  function Kill(c: Container, run: Runner): Result<()>
  {
    match run(Invocation(None, KillArgs(c.id)))
    case Err(e) => Err(e)
    case Ok(_) => Ok(())
  }

  /** `Container::exec(cmd, code)`: the output and error output, whatever the exit status. */
  function Exec(c: Container, cmd: string, code: string, run: Runner): Result<(string, string)>
  {
    match run(Invocation(None, ExecArgs(c.id, cmd, code)))
    case Err(e) => Err(e)
    case Ok(out) => Ok((out.stdout, out.stderr))
  }

  // ---------------------------------------------------------------------------------
  // What the output decides.
  // ---------------------------------------------------------------------------------

  /**
   * A build gives an image exactly when the folder resolves (and, with info logging on, the
   * file too), the process runs and its output holds the success message somewhere; the
   * image then carries the name asked for. It panics with the error output exactly when the
   * process ran and the message is missing. With info logging off, the file is never
   * resolved, so whether it resolves does not matter.
   */
  lemma {:induction false} BuildOutcome(name: string, dockerFile: string, parent: string, logInfo: bool, canonicalize: Canonicalizer, run: Runner)
    ensures var r := Build(name, dockerFile, parent, logInfo, canonicalize, run);
      var fileOk := !logInfo || canonicalize(dockerFile).Ok?;
      var o := if canonicalize(parent).Ok? then run(Invocation(Some(canonicalize(parent).value), BuildArgs(name))) else Err("");
      && ((r.Returned? && r.result.Ok?) <==>
           (fileOk && canonicalize(parent).Ok? && o.Ok? &&
            exists i | 0 <= i <= |o.value.stdout| :: StartsWith(o.value.stdout[i..], SuccessMessage(name))))
      && (r.Returned? && r.result.Ok? ==> r.result.value == Image(name))
      && (r.Panicked? <==>
           (fileOk && canonicalize(parent).Ok? && o.Ok? && !Contains(o.value.stdout, SuccessMessage(name))))
      && (r.Panicked? ==> r.message == BuildPanic(o.value.stderr))
  {
    if (!logInfo || canonicalize(dockerFile).Ok?) && canonicalize(parent).Ok? {
      var o := run(Invocation(Some(canonicalize(parent).value), BuildArgs(name)));
      if o.Ok? {
        ContainsIff(o.value.stdout, SuccessMessage(name));
        assert Build(name, dockerFile, parent, logInfo, canonicalize, run) ==
          if Contains(o.value.stdout, SuccessMessage(name)) then Returned(Ok(Image(name)))
          else Panicked(BuildPanic(o.value.stderr));
      }
    }
  }

  /**
   * With info logging off, the build depends on path resolution only through the folder:
   * two resolvers that agree on the folder give the same build.
   */
  lemma {:induction false} QuietBuildIgnoresFile(name: string, dockerFile: string, parent: string, c1: Canonicalizer, c2: Canonicalizer, run: Runner)
    requires c1(parent) == c2(parent)
    ensures Build(name, dockerFile, parent, false, c1, run) == Build(name, dockerFile, parent, false, c2, run)
  {
  }

  /** `id` is `out` with the whitespace around it, and only that, taken off. */
  predicate TrimmedFrom(out: string, id: string)
  {
    && LeadLen(out) + |id| <= |out|
    && out[LeadLen(out)..LeadLen(out) + |id|] == id
    && AllWhitespace(out[..LeadLen(out)])
    && AllWhitespace(out[LeadLen(out) + |id|..])
    && (id == [] || (!IsWhitespace(id[0]) && !IsWhitespace(id[|id| - 1])))
  }

  lemma {:induction false} TrimIsTrimmed(out: string)
    ensures TrimmedFrom(out, Trim(out))
  {
    TrimKeepsMiddle(out);
  }

  /**
   * Starting gives a container exactly when the folder resolves, the process runs and
   * prints no error output; its id is the output with the surrounding whitespace, and
   * only that, taken off. Any error output is a panic.
   */
  lemma {:induction false} StartOutcome(image: Image, home: string, canonicalize: Canonicalizer, run: Runner)
    ensures var r := Start(image, home, canonicalize, run);
      var o := if canonicalize(home).Ok? then run(Invocation(None, RunArgs(canonicalize(home).value, image.name))) else Err("");
      && ((r.Returned? && r.result.Ok?) <==> (canonicalize(home).Ok? && o.Ok? && o.value.stderr == ""))
      && (r.Panicked? <==> (canonicalize(home).Ok? && o.Ok? && o.value.stderr != ""))
      && (r.Panicked? ==> r.message == StartPanic(o.value.stderr))
      && (r.Returned? && r.result.Ok? ==> r.result.value.image == image && TrimmedFrom(o.value.stdout, r.result.value.id))
  {
    if canonicalize(home).Ok? {
      var o := run(Invocation(None, RunArgs(canonicalize(home).value, image.name)));
      if o.Ok? && o.value.stderr == "" {
        TrimIsTrimmed(o.value.stdout);
        assert Start(image, home, canonicalize, run) == Returned(Ok(Container(Trim(o.value.stdout), image)));
      }
    }
  }

  /**
   * Killing runs a command line that names the container, and reports success whenever
   * that process could be spawned, whatever it printed.
   */
  lemma {:induction false} KillOutcome(c: Container, run: Runner)
    ensures exists args | KillTarget(args) == Some(c.id) ::
      Kill(c, run).Ok? <==> run(Invocation(None, args)).Ok?
  {
    assert KillTarget(KillArgs(c.id)) == Some(c.id);
  }

  /**
   * Exec runs a command line that asks for the command and the code in the container, and
   * hands back its two outputs unchanged, whatever the exit status; it fails only when
   * spawning fails.
   */
  lemma {:induction false} ExecOutcome(c: Container, cmd: string, code: string, run: Runner)
    ensures exists args | ExecRequest(args) == Some((c.id, cmd, code)) ::
      var o := run(Invocation(None, args));
      && (Exec(c, cmd, code, run).Ok? <==> o.Ok?)
      && (o.Ok? ==> Exec(c, cmd, code, run).value == (o.value.stdout, o.value.stderr))
  {
    ExecArgsRequest(c.id, cmd, code);
  }
}

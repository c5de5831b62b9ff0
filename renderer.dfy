/**
 * The renderer (`renderer.rs`): it turns the notebook's markdown into the page, saving
 * every named code block as a file on the way, and then runs the blocks' commands one
 * call at a time in a container it starts on first use.
 */
module Rendering {
  import opened Wrappers
  import opened Strings
  import opened Markdown
  import opened Fs
  import opened Docker
  import opened CodeBlocks
  import opened Splicing
  import opened Accordion

  /** `internal_error`. */
  const InternalError: string := "Internal server error"

  /** What `execute` answers with: the block's id with its output and error output. */
  type Reply = Option<(string, (string, string))>

  /** The answer when the image cannot be built. */
  const InternalErrorReply: Reply := Some((InternalError, (InternalError, InternalError)))

  /** The image every notebook runs in. */
  const ImageName: string := "notebook-image"

  /** What `execute` writes when the notebook has no Dockerfile. */
  const DefaultDockerfile: string := "FROM ubuntu:latest"

  /**
   * The machine the commands run on: whether info-level logging is enabled (`RUST_LOG`),
   * path resolution and the `docker` program.
   */
  datatype Machine = Machine(logInfo: bool, canonicalize: Canonicalizer, docker: Runner)

  // ---------------------------------------------------------------------------------
  // Rendering.
  // ---------------------------------------------------------------------------------

  /** Block `b` is saved, by the save loop of `render`, to the file at `path`. */
  predicate WritesTo(b: CodeBlock, dir: string, path: string)
  {
    b.options.name.Some? && Join(dir, b.options.name.value) == path
  }

  /** The files after the save loop has gone over `blocks`: each named block written in turn. */
  function Saved(files: map<string, string>, dir: string, blocks: seq<CodeBlock>): map<string, string>
  {
    if blocks == [] then files
    else
      var b := blocks[|blocks| - 1];
      var before := Saved(files, dir, blocks[..|blocks| - 1]);
      if b.options.name.Some? then before[Join(dir, b.options.name.value) := b.code] else before
  }

  /** The last of `blocks` saved to `path`, if any is. */
  function LastWriter(blocks: seq<CodeBlock>, dir: string, path: string): (o: Option<nat>)
    ensures o.Some? ==> o.value < |blocks| && WritesTo(blocks[o.value], dir, path)
    ensures o.Some? ==> forall k :: o.value < k < |blocks| ==> !WritesTo(blocks[k], dir, path)
    ensures o.None? ==> forall k :: 0 <= k < |blocks| ==> !WritesTo(blocks[k], dir, path)
  {
    if blocks == [] then None
    else if WritesTo(blocks[|blocks| - 1], dir, path) then Some(|blocks| - 1)
    else LastWriter(blocks[..|blocks| - 1], dir, path)
  }

  /**
   * After the save loop a file holds the code of the last block saved to it; a file that
   * no block names is left as it was.
   */
  lemma {:induction false} SavedContent(files: map<string, string>, dir: string, blocks: seq<CodeBlock>, path: string)
    ensures match LastWriter(blocks, dir, path)
      case Some(k) => path in Saved(files, dir, blocks) && Saved(files, dir, blocks)[path] == blocks[k].code
      case None =>
        && (path in Saved(files, dir, blocks) <==> path in files)
        && (path in files ==> Saved(files, dir, blocks)[path] == files[path])
  {
    if blocks != [] {
      var init := blocks[..|blocks| - 1];
      var b := blocks[|blocks| - 1];
      SavedContent(files, dir, init, path);
      if WritesTo(b, dir, path) {
        assert Saved(files, dir, blocks) == Saved(files, dir, init)[path := b.code];
        assert LastWriter(blocks, dir, path) == Some(|blocks| - 1);
      } else {
        assert LastWriter(blocks, dir, path) == LastWriter(init, dir, path);
        if LastWriter(init, dir, path).Some? {
          assert blocks[LastWriter(init, dir, path).value] == init[LastWriter(init, dir, path).value];
        }
        if b.options.name.Some? {
          assert Saved(files, dir, blocks) == Saved(files, dir, init)[Join(dir, b.options.name.value) := b.code];
        } else {
          assert Saved(files, dir, blocks) == Saved(files, dir, init);
        }
      }
    }
  }

  /** The markdown events with every block wrapped: the events `render` hands to the HTML writer. */
  function Page(events: seq<Event>, parseOptions: OptionsParser): (page: seq<Event>)
    ensures |page| == |events| + 4 * |ParsedBlocks(events, parseOptions)|
  {
    var blocks := ParsedBlocks(events, parseOptions);
    ParsedBlocksFit(events, parseOptions);
    SpliceFacts(events, blocks, BlockWrapper);
    ApplyInsertions(events, Insertions(blocks, BlockWrapper), 0).result
  }

  /** The page keeps the document: taking out the inserted fragments gives back the events. */
  lemma PageRestores(events: seq<Event>, parseOptions: OptionsParser)
    ensures Unsplice(Page(events, parseOptions), Insertions(ParsedBlocks(events, parseOptions), BlockWrapper), 0) == Some(events)
  {
    ParsedBlocksFit(events, parseOptions);
    SpliceFacts(events, ParsedBlocks(events, parseOptions), BlockWrapper);
  }

  /**
   * In a well-formed document block `k` sits on the page, as the events from its start to
   * its end, between its list opening and item header and its item closing and list
   * closing, four places further on for each earlier block.
   */
  lemma PagePlacement(events: seq<Event>, parseOptions: OptionsParser, k: nat)
    requires WellFormed(events) && k < |ParsedBlocks(events, parseOptions)|
    ensures ParsedBlocks(events, parseOptions)[k].startIndex < ParsedBlocks(events, parseOptions)[k].endIndex < |events|
    ensures PlacedAt(Page(events, parseOptions), events, ParsedBlocks(events, parseOptions)[k],
                     BlockWrapper(ParsedBlocks(events, parseOptions)[k]), ParsedBlocks(events, parseOptions)[k].startIndex + 4 * k)
  {
    ParsedBlocksFit(events, parseOptions);
    ParsedBlocksSeparated(events, parseOptions);
    SplicePlacement(events, ParsedBlocks(events, parseOptions), k, BlockWrapper);
  }

  // ---------------------------------------------------------------------------------
  // Execution, one block per call.
  // ---------------------------------------------------------------------------------

  /** The fields `execute` works on: the container, once started, and the blocks still to run. */
  datatype Cursor = Cursor(container: Option<Container>, blocks: seq<CodeBlock>)

  /** What one call of `execute` does: its answer (or panic) and the new fields. */
  datatype Step = Step(reply: Outcome<Reply>, cursor: Cursor)

  function DockerfilePath(dir: string): string
  {
    Join(dir, "Dockerfile")
  }

  /** The files once the renderer's folder (the working directory) has a Dockerfile. */
  function WithDockerfile(files: map<string, string>, dir: string): map<string, string>
  {
    if DockerfilePath(dir) in files then files else files[DockerfilePath(dir) := DefaultDockerfile]
  }

  /** With a container held: pop the last block and run its command, if it has one. */
  function RunLast(cursor: Cursor, docker: Runner): Step
    requires cursor.container.Some?
  {
    if cursor.blocks == [] then Step(Returned(None), cursor)
    else
      var b := cursor.blocks[|cursor.blocks| - 1];
      var rest := cursor.(blocks := cursor.blocks[..|cursor.blocks| - 1]);
      match b.options.cmd
      case None => Step(Returned(None), rest)
      case Some(cmd) =>
        match Exec(cursor.container.value, cmd, b.code, docker)
        case Err(_) => Step(Panicked(UnwrapPanic), rest)
        case Ok(output) => Step(Returned(Some((b.id, output))), rest)
  }

  /**
   * `execute`: with no container, build the image (an io error gives the internal-error
   * answer and changes nothing) and start the container (an io error leaves none, and
   * unwrapping it panics); then run the last block.
   */
  function ExecuteStep(dir: string, cursor: Cursor, m: Machine): Step
  {
    if cursor.container.Some? then RunLast(cursor, m.docker)
    else
      match Build(ImageName, DockerfilePath(dir), dir, m.logInfo, m.canonicalize, m.docker)
      case Panicked(message) => Step(Panicked(message), cursor)
      case Returned(Err(_)) => Step(Returned(InternalErrorReply), cursor)
      case Returned(Ok(image)) =>
        match Start(image, dir, m.canonicalize, m.docker)
        case Panicked(message) => Step(Panicked(message), cursor)
        case Returned(Err(_)) => Step(Panicked(UnwrapPanic), cursor)
        case Returned(Ok(c)) => RunLast(cursor.(container := Some(c)), m.docker)
  }

  /** The files after a call of `execute`: with no container it first writes the default Dockerfile, if there is none. */
  function ExecuteFiles(dir: string, cursor: Cursor, files: map<string, string>): map<string, string>
  {
    if cursor.container.Some? then files else WithDockerfile(files, dir)
  }

  /**
   * With a container held, a call pops exactly the last block, whether or not it has a
   * command, and answers with its id and output exactly when it has one; nothing else changes.
   */
  lemma {:induction false} ExecutePops(dir: string, cursor: Cursor, m: Machine)
    requires cursor.container.Some? && cursor.blocks != []
    ensures var s := ExecuteStep(dir, cursor, m);
      var b := cursor.blocks[|cursor.blocks| - 1];
      && s.cursor == Cursor(cursor.container, cursor.blocks[..|cursor.blocks| - 1])
      && (b.options.cmd.None? ==> s.reply == Returned(None))
      && (b.options.cmd.Some? ==>
            var e := Exec(cursor.container.value, b.options.cmd.value, b.code, m.docker);
            s.reply == if e.Ok? then Returned(Some((b.id, e.value))) else Panicked(UnwrapPanic))
  {
  }

  /** The default Dockerfile is written only where the notebook has none; no other file changes. */
  lemma DockerfileWritten(files: map<string, string>, dir: string)
    ensures DockerfilePath(dir) in WithDockerfile(files, dir)
    ensures DockerfilePath(dir) in files ==> WithDockerfile(files, dir) == files
    ensures DockerfilePath(dir) !in files ==> WithDockerfile(files, dir)[DockerfilePath(dir)] == DefaultDockerfile
    ensures forall p :: p != DockerfilePath(dir) ==>
      (p in WithDockerfile(files, dir) <==> p in files) && (p in files ==> WithDockerfile(files, dir)[p] == files[p])
  {
  }

  /**
   * With no container, if building the image fails with an io error a call answers with
   * the internal-error triple and leaves the container and the blocks as they were.
   */
  lemma BuildFailureKeeps(dir: string, cursor: Cursor, m: Machine)
    requires cursor.container.None?
    ensures Build(ImageName, DockerfilePath(dir), dir, m.logInfo, m.canonicalize, m.docker).Returned? &&
            Build(ImageName, DockerfilePath(dir), dir, m.logInfo, m.canonicalize, m.docker).result.Err? ==>
      ExecuteStep(dir, cursor, m).reply == Returned(InternalErrorReply) &&
      ExecuteStep(dir, cursor, m).cursor == cursor
  {
  }

  /** `n` calls of `execute` in a row, as the server's execution loop makes them. */
  function Replies(dir: string, cursor: Cursor, m: Machine, n: nat): (r: seq<Outcome<Reply>>)
    ensures |r| == n
    decreases n
  {
    if n == 0 then []
    else
      var s := ExecuteStep(dir, cursor, m);
      [s.reply] + Replies(dir, s.cursor, m, n - 1)
  }

  /** The fields after `n` calls of `execute`. */
  function After(dir: string, cursor: Cursor, m: Machine, n: nat): Cursor
    decreases n
  {
    if n == 0 then cursor
    else
      var s := ExecuteStep(dir, cursor, m);
      After(dir, s.cursor, m, n - 1)
  }

  /** Every block that has a command runs without an io error in container `c`. */
  predicate ExecsSucceed(c: Container, blocks: seq<CodeBlock>, docker: Runner)
  {
    forall i :: 0 <= i < |blocks| && blocks[i].options.cmd.Some? ==>
      Exec(c, blocks[i].options.cmd.value, blocks[i].code, docker).Ok?
  }

  /**
   * With a container held, the calls run the blocks from the last to the first: the `k`th
   * call answers for the `k`th block from the end, and after one call per block execution
   * has finished.
   */
  lemma {:induction false} ReverseOrder(dir: string, cursor: Cursor, m: Machine, k: nat)
    requires cursor.container.Some? && ExecsSucceed(cursor.container.value, cursor.blocks, m.docker)
    requires k < |cursor.blocks|
    ensures var b := cursor.blocks[|cursor.blocks| - 1 - k];
      Replies(dir, cursor, m, |cursor.blocks|)[k] ==
        if b.options.cmd.Some? then
          Returned(Some((b.id, Exec(cursor.container.value, b.options.cmd.value, b.code, m.docker).value)))
        else Returned(None)
    ensures After(dir, cursor, m, |cursor.blocks|).blocks == []
    decreases |cursor.blocks|
  {
    var n := |cursor.blocks|;
    var s := ExecuteStep(dir, cursor, m);
    ExecutePops(dir, cursor, m);
    var rest := cursor.blocks[..n - 1];
    assert s.cursor == Cursor(cursor.container, rest);
    assert ExecsSucceed(cursor.container.value, rest, m.docker) by {
      forall i | 0 <= i < |rest| && rest[i].options.cmd.Some?
        ensures Exec(cursor.container.value, rest[i].options.cmd.value, rest[i].code, m.docker).Ok?
      {
        assert rest[i] == cursor.blocks[i];
      }
    }
    if k == 0 {
      if n > 1 {
        ReverseOrder(dir, s.cursor, m, 0);
      }
    } else {
      ReverseOrder(dir, s.cursor, m, k - 1);
      assert rest[|rest| - 1 - (k - 1)] == cursor.blocks[n - 1 - k];
    }
  }

  /**
   * While the image cannot be built, no call makes progress: every call answers with the
   * internal-error triple and the blocks stay, so execution never finishes.
   */
  lemma {:induction false} BuildFailureRepeats(dir: string, cursor: Cursor, m: Machine, n: nat, k: nat)
    requires cursor.container.None?
    requires Build(ImageName, DockerfilePath(dir), dir, m.logInfo, m.canonicalize, m.docker).Returned?
    requires Build(ImageName, DockerfilePath(dir), dir, m.logInfo, m.canonicalize, m.docker).result.Err?
    requires k < n
    ensures Replies(dir, cursor, m, n)[k] == Returned(InternalErrorReply)
    ensures After(dir, cursor, m, n) == cursor
    decreases n
  {
    var s := ExecuteStep(dir, cursor, m);
    BuildFailureKeeps(dir, cursor, m);
    if k > 0 {
      BuildFailureRepeats(dir, cursor, m, n - 1, k - 1);
    } else if n > 1 {
      BuildFailureRepeats(dir, cursor, m, n - 1, 0);
    }
  }

  // ---------------------------------------------------------------------------------
  // The renderer object.
  // ---------------------------------------------------------------------------------

  /** The save loop of `render`: write every named block to its file in `dir`. */
  method SaveFiles(fs: FileSystem, dir: string, blocks: seq<CodeBlock>)
    modifies fs
    ensures fs.files == Saved(old(fs.files), dir, blocks)
  {
    ghost var files0 := fs.files;
    for i := 0 to |blocks|
      invariant fs.files == Saved(files0, dir, blocks[..i])
    {
      var block := blocks[i];
      assert blocks[..i + 1][..i] == blocks[..i];
      if block.options.name.Some? {
        var path := Join(dir, block.options.name.value);
        fs.files := fs.files[path := block.code];
      }
    }
    assert blocks[..|blocks|] == blocks;
  }

  class Renderer {
    const notebookDir: string
    var container: Option<Container>
    var blocks: seq<CodeBlock>

    /** `Renderer::new`, given the current directory. */
    constructor (notebookDir: string)
      ensures this.notebookDir == notebookDir && container == None && blocks == []
    {
      this.notebookDir := notebookDir;
      container := None;
      blocks := [];
    }

    /** `execution_finished`. */
    predicate ExecutionFinished()
      reads this
    {
      |blocks| == 0
    }

    /**
     * `render(markdown_path)`: read the file (a missing file is an unwrap panic), parse it,
     * keep the blocks for execution, save each named block to its file in the notebook
     * folder, wrap the blocks and write the page.
     */
    method Render(markdownPath: string, fs: FileSystem, parse: EventParser, parseOptions: OptionsParser, write: HtmlWriter)
        returns (r: Outcome<string>)
      modifies this, fs
      ensures markdownPath !in old(fs.files) ==>
        r == Panicked(UnwrapPanic) && blocks == old(blocks) && fs.files == old(fs.files)
      ensures markdownPath in old(fs.files) ==>
        var events := parse(old(fs.files)[markdownPath]);
        && blocks == ParsedBlocks(events, parseOptions)
        && fs.files == Saved(old(fs.files), notebookDir, blocks)
        && r == Returned(write(Page(events, parseOptions)))
      ensures container == old(container)
    {
      if markdownPath !in fs.files {
        return Panicked(UnwrapPanic);
      }
      var contents := fs.files[markdownPath];
      var parsed, events := Parse(parse(contents), parseOptions);
      blocks := parsed;

      SaveFiles(fs, notebookDir, parsed);
      // wrap code blocks
      ParsedBlocksFit(events, parseOptions);
      SpliceFacts(events, parsed, BlockWrapper);
      var wrapped := WrapCodeBlocks(events, parsed, BlockWrapper);
      return Returned(write(wrapped.result));
    }

    /** `execute`. */
    method Execute(fs: FileSystem, m: Machine) returns (r: Outcome<Reply>)
      modifies this, fs
      ensures var s := ExecuteStep(notebookDir, old(Cursor(container, blocks)), m);
        r == s.reply && Cursor(container, blocks) == s.cursor
      ensures fs.files == ExecuteFiles(notebookDir, old(Cursor(container, blocks)), old(fs.files))
    {
      if container.None? {
        // create docker container
        var dockerFile := Join(notebookDir, "Dockerfile");
        if dockerFile !in fs.files {
          fs.files := fs.files[dockerFile := DefaultDockerfile];
        }
        var early := CreateContainer(m);
        if early.Some? {
          return early.value;
        }
      }
      r := RunNext(m.docker);
    }

    /**
     * The creation half of `execute`: build the image and start the container. It answers
     * early when that fails; otherwise it holds the container and `execute` goes on.
     */
    method CreateContainer(m: Machine) returns (early: Option<Outcome<Reply>>)
      requires container.None?
      modifies this`container
      ensures early.Some? ==> Step(early.value, Cursor(container, blocks)) == ExecuteStep(notebookDir, old(Cursor(container, blocks)), m)
      ensures early.None? ==>
        container.Some? && RunLast(Cursor(container, blocks), m.docker) == ExecuteStep(notebookDir, old(Cursor(container, blocks)), m)
    {
      match Build(ImageName, Join(notebookDir, "Dockerfile"), notebookDir, m.logInfo, m.canonicalize, m.docker) {
        case Panicked(message) =>
          return Some(Panicked(message));
        case Returned(Err(_)) =>
          return Some(Returned(InternalErrorReply));
        case Returned(Ok(image)) =>
          match Start(image, notebookDir, m.canonicalize, m.docker) {
            case Panicked(message) =>
              return Some(Panicked(message));
            case Returned(started) =>
              container := if started.Ok? then Some(started.value) else None;
              if container.None? {
                return Some(Panicked(UnwrapPanic));
              }
              return None;
          }
      }
    }

    /** The running half of `execute`: pop the last block and run its command, if it has one. */
    method RunNext(docker: Runner) returns (r: Outcome<Reply>)
      requires container.Some?
      modifies this`blocks
      ensures Step(r, Cursor(container, blocks)) == RunLast(old(Cursor(container, blocks)), docker)
    {
      var c := container.value;
      if |blocks| == 0 {
        return Returned(None);
      }
      var block := blocks[|blocks| - 1];
      blocks := blocks[..|blocks| - 1];
      match block.options.cmd {
        case None =>
          return Returned(None);
        case Some(cmd) =>
          match Exec(c, cmd, block.code, docker) {
            case Err(_) =>
              return Panicked(UnwrapPanic);
            case Ok(output) =>
              return Returned(Some((block.id, output)));
          }
      }
    }

    /** `clean_up`: kill the container, if one was started. */
    method CleanUp(docker: Runner) returns (killed: Option<Result<()>>)
      ensures container.None? ==> killed == None
      ensures container.Some? ==> killed == Some(Kill(container.value, docker))
    {
      if container.Some? {
        return Some(Kill(container.value, docker));
      }
      return None;
    }
  }
}

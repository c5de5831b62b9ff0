/**
 * The websocket handler of the notebook server (`server.rs`): it keeps the connection alive
 * with pings, lets it expire after inactivity, and answers the client's requests to open a
 * notebook or list the files.
 */
module Server {
  import opened Wrappers
  import opened Ws
  import opened Fs
  import opened Markdown
  import opened CodeBlocks
  import opened Rendering
  import opened FileTrees
  import opened Splicing
  import opened Accordion

  /** Milliseconds without activity, after opening, before the connection expires. */
  const SessionExpiry: nat := 900000

  /** The reply every text message gets. */
  const Greeting: string := "Hi, I am the server!"

  /** `AppMessage`: the messages client and server exchange. */
  datatype AppMessage =
    | OpenFile(path: string)
    | GetTree
    | MarkdownPage(path: string, markdown: string)
    | Output(id: string, stdout: string, stderr: string)
    | ErrorReport(error: string)
    | Tree(root: seq<FileTree>)

  /** The JSON decoding of a client message. */
  type AppDecoder = string -> Option<AppMessage>

  /** What the handler finds around it: the current directory, the libraries and the folder's listing. */
  datatype Notebook = Notebook(cwd: string, parse: EventParser, parseOptions: OptionsParser, write: HtmlWriter, listing: seq<Node>)

  /**
   * The messages `on_message` hands to its sending threads for a decoded request: the
   * rendered notebook for `OpenFile` (reading a missing file panics), the file tree for
   * `GetTree`, and nothing for anything else.
   */
  function Dispatch(decoded: Option<AppMessage>, files: map<string, string>, nb: Notebook): Outcome<seq<AppMessage>>
  {
    match decoded
    case Some(OpenFile(path)) =>
      if path !in files then Panicked(UnwrapPanic)
      else Returned([MarkdownPage(path, nb.write(Page(nb.parse(files[path]), nb.parseOptions)))])
    case Some(GetTree) => Returned([Tree(TreeOf(nb.cwd, nb.listing))])
    case _ => Returned([])
  }

  /**
   * Opening a notebook sends just its page, for the path asked for, with every code block
   * wrapped and the document recoverable from it; its outputs come only later, from the
   * execution of its blocks. Asking for the tree sends one tree that lists the current
   * directory. Any other request sends nothing.
   */
  lemma DispatchReplies(decoded: Option<AppMessage>, files: map<string, string>, nb: Notebook)
    ensures decoded.Some? && decoded.value.OpenFile? && decoded.value.path in files ==>
      var events := nb.parse(files[decoded.value.path]);
      && Dispatch(decoded, files, nb) == Returned([MarkdownPage(decoded.value.path, nb.write(Page(events, nb.parseOptions)))])
      && Unsplice(Page(events, nb.parseOptions), Insertions(ParsedBlocks(events, nb.parseOptions), BlockWrapper), 0) == Some(events)
    ensures decoded.Some? && decoded.value.OpenFile? && decoded.value.path !in files ==> Dispatch(decoded, files, nb) == Panicked(UnwrapPanic)
    ensures decoded == Some(GetTree) ==>
      |Dispatch(decoded, files, nb).result| == 1 && Dispatch(decoded, files, nb).result[0].Tree? &&
      Listing(Dispatch(decoded, files, nb).result[0].root) == nb.listing
    ensures !(decoded.Some? && (decoded.value.OpenFile? || decoded.value.GetTree?)) ==> Dispatch(decoded, files, nb) == Returned([])
    ensures Dispatch(decoded, files, nb).Returned? ==> forall k :: 0 <= k < |Dispatch(decoded, files, nb).result| ==> !Dispatch(decoded, files, nb).result[k].Output?
  {
    if decoded.Some? && decoded.value.OpenFile? && decoded.value.path in files {
      PageRestores(nb.parse(files[decoded.value.path]), nb.parseOptions);
    }
    TreeListing(nb.cwd, nb.listing);
  }

  /** The status of one queued command. */
  function Issued(connected: bool): Status
  {
    if connected then Done else Failed(QueueError)
  }

  class Server {
    const out: Sender
    var pingTimeout: Option<Timeout>
    var expireTimeout: Option<Timeout>

    constructor (out: Sender)
      ensures this.out == out && pingTimeout == None && expireTimeout == None
    {
      this.out := out;
      pingTimeout := None;
      expireTimeout := None;
    }

    /** The two timer fields. */
    function Fields(): Slots
      reads this
    {
      Slots(pingTimeout, expireTimeout)
    }

    /** `on_open`. */
    method OnOpen() returns (r: Status)
      modifies out
      ensures var a := Ws.OnOpen(out.connected, Fields(), SessionExpiry);
        r == a.result && out.effects == old(out.effects) + a.effects
    {
      var s := out.Queue(Scheduled(PingInterval, Ping));
      if s.Failed? {
        return s;
      }
      r := out.Queue(Scheduled(SessionExpiry, Expire));
    }

    /**
     * `on_message`: a message that is not text is ignored; a text message is decoded and
     * dispatched, and then greeted. Opening a notebook renders it with a new renderer,
     * which is handed on for its blocks to be executed.
     */
    method OnMessage(msg: Message, utf8: Utf8Decoder, decode: AppDecoder, fs: FileSystem, nb: Notebook)
        returns (r: Outcome<Status>, sent: seq<AppMessage>, executor: Option<Renderer>)
      modifies out, fs
      ensures IntoText(msg, utf8).None? ==>
        r == Returned(Done) && sent == [] && executor == None && out.effects == old(out.effects) && fs.files == old(fs.files)
      ensures IntoText(msg, utf8).Some? ==>
        var decoded := decode(IntoText(msg, utf8).value);
        var d := Dispatch(decoded, old(fs.files), nb);
        var opens := decoded.Some? && decoded.value.OpenFile? && decoded.value.path in old(fs.files);
        && (d.Panicked? ==> r == Panicked(d.message) && out.effects == old(out.effects) && executor == None)
        && (d.Returned? ==>
              && sent == d.result
              && r == Returned(Issued(out.connected))
              && out.effects == old(out.effects) + (if out.connected then [Sent(Greeting)] else []))
        && (executor.Some? <==> opens)
        && (opens ==>
              var blocks := ParsedBlocks(nb.parse(old(fs.files)[decoded.value.path]), nb.parseOptions);
              && fs.files == Saved(old(fs.files), nb.cwd, blocks)
              && fresh(executor.value)
              && executor.value.notebookDir == nb.cwd
              && executor.value.container == None
              && executor.value.blocks == blocks)
        && (!opens ==> fs.files == old(fs.files))
    {
      sent, executor := [], None;
      var text := IntoText(msg, utf8);
      if text.None? {
        return Returned(Done), sent, executor;
      }
      var decoded := decode(text.value);
      match decoded {
        case Some(OpenFile(path)) =>
          var renderer := new Renderer(nb.cwd);
          var markdown := renderer.Render(path, fs, nb.parse, nb.parseOptions, nb.write);
          if markdown.Panicked? {
            return Panicked(markdown.message), sent, executor;
          }
          sent := [MarkdownPage(path, markdown.result)];
          executor := Some(renderer);
        case Some(GetTree) =>
          var root := RenderFileTree(nb.cwd, nb.listing);
          sent := [Tree(root)];
        case _ =>
      }
      var s := out.Queue(Sent(Greeting));
      return Returned(s), sent, executor;
    }

    /** `on_close`: cancel both timeouts. */
    method OnClose() returns (r: Outcome<()>)
      modifies this, out
      ensures var a := Ws.OnClose(out.connected, old(Fields()), false);
        r == a.result && Fields() == a.slots && out.effects == old(out.effects) + a.effects
    {
      if pingTimeout.Some? {
        var t := pingTimeout.value;
        pingTimeout := None;
        var s := out.Queue(Cancelled(t));
        if s.Failed? {
          return Panicked(UnwrapPanic);
        }
      }
      if expireTimeout.Some? {
        var t := expireTimeout.value;
        expireTimeout := None;
        var s := out.Queue(Cancelled(t));
        if s.Failed? {
          return Panicked(UnwrapPanic);
        }
      }
      return Returned(());
    }

    /** `on_error`: shut down. */
    method OnError() returns (r: Outcome<()>)
      modifies out
      ensures var a := Ws.OnError(out.connected, Fields());
        r == a.result && out.effects == old(out.effects) + a.effects
    {
      var s := out.Queue(ShutDown);
      if s.Failed? {
        return Panicked(UnwrapPanic);
      }
      return Returned(());
    }

    /** `on_timeout`. */
    method OnTimeout(event: Token) returns (r: Status)
      modifies this, out
      ensures var a := Ws.OnTimeout(out.connected, old(Fields()), event);
        r == a.result && Fields() == a.slots && out.effects == old(out.effects) + a.effects
    {
      if event == Ping {
        var s := out.Queue(Pinged);
        if s.Failed? {
          return s;
        }
        pingTimeout := None;
        r := out.Queue(Scheduled(PingInterval, Ping));
      } else if event == Expire {
        r := out.Queue(Closed(Away));
      } else {
        r := Failed(InvalidToken);
      }
    }

    /** `on_new_timeout`. */
    method OnNewTimeout(event: Token, timeout: Timeout) returns (r: Status)
      modifies this, out
      ensures var a := Ws.OnNewTimeout(out.connected, old(Fields()), event, timeout);
        r == a.result && Fields() == a.slots && out.effects == old(out.effects) + a.effects
    {
      if event == Expire {
        if expireTimeout.Some? {
          var t := expireTimeout.value;
          expireTimeout := None;
          var s := out.Queue(Cancelled(t));
          if s.Failed? {
            return s;
          }
        }
        expireTimeout := Some(timeout);
      } else {
        if pingTimeout.Some? {
          var t := pingTimeout.value;
          pingTimeout := None;
          var s := out.Queue(Cancelled(t));
          if s.Failed? {
            return s;
          }
        }
        pingTimeout := Some(timeout);
      }
      return Done;
    }

    /** `on_frame`. */
    method OnFrame(frame: Frame, utf8: Utf8Decoder, validate: Validator) returns (r: FrameResult)
      modifies out
      ensures var a := Ws.OnFrame(out.connected, Fields(), frame, utf8, validate);
        r == a.result && out.effects == old(out.effects) + a.effects
    {
      if frame.opcode == PongCode && utf8(frame.payload).None? {
        return Rejected(EncodingError);
      }
      var s := out.Queue(Scheduled(ActivityWindow, Expire));
      if s.Failed? {
        return Rejected(s.error);
      }
      return validate(frame);
    }
  }
}

/**
 * The websocket handler of the earlier server (`src/websocket.rs`): the same timer
 * bookkeeping, a shorter expiry, one request (`get document`) and a server that shuts
 * down once its connection closes.
 */
module LegacyServer {
  import opened Wrappers
  import opened Strings
  import opened Ws
  import opened Fs
  import opened Markdown
  import opened LegacyPage

  const GetDocument: string := "get document"
  const RenderingNotice: string := "rendering markdown..."
  const UnknownMessage: string := "unknown message"
  const DocumentId: string := "document"

  /** `JsonMsg`, and its JSON encoding. */
  datatype JsonMsg = JsonMsg(id: string, data: string)
  type JsonEncoder = JsonMsg -> string

  /**
   * `MarkdownRenderer::new().parse_markdown()`: the page `on_message` sends, or the panic
   * that renders none, for the files on disk. `src/parser.rs` defines no `MarkdownRenderer`,
   * only the free function `parse_markdown` (`LegacyPage.ParseMarkdown`), so the renderer
   * is a parameter here; `FreeRendererPage` states the page when it is that function.
   */
  type PageRenderer = map<string, string> -> Outcome<string>

  /**
   * What `on_message` does for a message: for exactly the text `get document`, a notice and
   * then the page as a `document` message (a refused notice is unwrapped and panics, as is
   * a renderer that panics); for anything else, `unknown message`.
   */
  function Answer(connected: bool, text: Option<string>, files: map<string, string>, render: PageRenderer, encode: JsonEncoder)
    : (a: Reaction<Outcome<Status>>)
  {
    var none := Slots(None, None);
    if text == Some(GetDocument) then
      if !connected then Reaction(Panicked(UnwrapPanic), none, [])
      else
        match render(files)
        case Panicked(m) => Reaction(Panicked(m), none, [Sent(RenderingNotice)])
        case Returned(html) => Reaction(Returned(Done), none, [Sent(RenderingNotice), Sent(encode(JsonMsg(DocumentId, html)))])
    else if connected then Reaction(Returned(Done), none, [Sent(UnknownMessage)])
    else Reaction(Returned(Failed(QueueError)), none, [])
  }

  /**
   * `get document` is answered by the notice and then the rendered page as a `document`
   * message, or by the notice alone and the renderer's panic; with the event loop gone it
   * panics before sending anything. Every other message, text or not, gets `unknown
   * message` alone, or the queue error when the event loop is gone.
   */
  lemma {:induction false} AnswerOrder(connected: bool, text: Option<string>, files: map<string, string>, render: PageRenderer, encode: JsonEncoder)
    ensures var a := Answer(connected, text, files, render, encode);
      text == Some(GetDocument) && connected && render(files).Returned? ==>
        a.result == Returned(Done) &&
        a.effects == [Sent(RenderingNotice), Sent(encode(JsonMsg(DocumentId, render(files).result)))]
    ensures var a := Answer(connected, text, files, render, encode);
      text == Some(GetDocument) && connected && render(files).Panicked? ==>
        a.result == Panicked(render(files).message) && a.effects == [Sent(RenderingNotice)]
    ensures var a := Answer(connected, text, files, render, encode);
      text == Some(GetDocument) && !connected ==> a.result == Panicked(UnwrapPanic) && a.effects == []
    ensures var a := Answer(connected, text, files, render, encode);
      text != Some(GetDocument) ==>
        (connected ==> a.result == Returned(Done) && a.effects == [Sent(UnknownMessage)]) &&
        (!connected ==> a.result == Returned(Failed(QueueError)) && a.effects == [])
    ensures Answer(connected, text, files, render, encode).slots == Slots(None, None)
  {
  }

  /**
   * When the renderer is the free `parse_markdown`, the `document` message carries the
   * fixed head followed by the written document, and exists exactly when the info-string
   * map does not panic.
   */
  lemma {:induction false} FreeRendererPage(text: Option<string>, files: map<string, string>, parse: EventParser, write: HtmlWriter, encode: JsonEncoder)
    requires text == Some(GetDocument) && DocumentPath in files
    ensures var a := Answer(true, text, files, f => ParseMarkdown(f, parse, write), encode);
      && (a.result == Returned(Done) <==> LegacyParser.RewriteAll(parse(files[DocumentPath])).Returned?)
      && (a.result == Returned(Done) ==>
           |a.effects| == 2 && a.effects[0] == Sent(RenderingNotice) &&
           a.effects[1] == Sent(encode(JsonMsg(DocumentId, ParseMarkdown(files, parse, write).result))) &&
           Between(ParseMarkdown(files, parse, write).result, Head(), "") == Some(write(LegacyParser.RewriteAll(parse(files[DocumentPath])).result)))
  {
    PageAfterHead(files, parse, write);
  }

  class Server {
    const out: Sender
    var pingTimeout: Option<Timeout>
    var expireTimeout: Option<Timeout>

    constructor (out: Sender)
      ensures this.out == out && pingTimeout == None && expireTimeout == None
    {
      this.out := out;
      pingTimeout := None;
      expireTimeout := None;
    }

    /** The two timer fields. */
    function Fields(): Slots
      reads this
    {
      Slots(pingTimeout, expireTimeout)
    }

    /** `on_open`: the first ping, and the expiry after the activity window. */
    method OnOpen() returns (r: Status)
      modifies out
      ensures var a := Ws.OnOpen(out.connected, Fields(), ActivityWindow);
        r == a.result && out.effects == old(out.effects) + a.effects
    {
      var s := out.Queue(Scheduled(PingInterval, Ping));
      if s.Failed? {
        return s;
      }
      r := out.Queue(Scheduled(ActivityWindow, Expire));
    }

    /** `on_message`. */
    method OnMessage(msg: Message, utf8: Utf8Decoder, fs: FileSystem, render: PageRenderer, encode: JsonEncoder)
        returns (r: Outcome<Status>)
      modifies out
      ensures var a := Answer(out.connected, IntoText(msg, utf8), fs.files, render, encode);
        r == a.result && out.effects == old(out.effects) + a.effects
    {
      var text := IntoText(msg, utf8);
      if text == Some(GetDocument) {
        var s := out.Queue(Sent(RenderingNotice));
        if s.Failed? {
          return Panicked(UnwrapPanic);
        }
        var html := render(fs.files);
        if html.Panicked? {
          return Panicked(html.message);
        }
        var jsonStr := encode(JsonMsg(DocumentId, html.result));
        var sent := out.Queue(Sent(jsonStr));
        return Returned(sent);
      }
      var sent := out.Queue(Sent(UnknownMessage));
      return Returned(sent);
    }

    /** `on_close`: cancel both timeouts, then shut the server down. */
    method OnClose() returns (r: Outcome<()>)
      modifies this, out
      ensures var a := Ws.OnClose(out.connected, old(Fields()), true);
        r == a.result && Fields() == a.slots && out.effects == old(out.effects) + a.effects
    {
      if pingTimeout.Some? {
        var t := pingTimeout.value;
        pingTimeout := None;
        var s := out.Queue(Cancelled(t));
        if s.Failed? {
          return Panicked(UnwrapPanic);
        }
      }
      if expireTimeout.Some? {
        var t := expireTimeout.value;
        expireTimeout := None;
        var s := out.Queue(Cancelled(t));
        if s.Failed? {
          return Panicked(UnwrapPanic);
        }
      }
      var s := out.Queue(ShutDown);
      if s.Failed? {
        return Panicked(UnwrapPanic);
      }
      return Returned(());
    }

    /** `on_error`: shut down. */
    method OnError() returns (r: Outcome<()>)
      modifies out
      ensures var a := Ws.OnError(out.connected, Fields());
        r == a.result && out.effects == old(out.effects) + a.effects
    {
      var s := out.Queue(ShutDown);
      if s.Failed? {
        return Panicked(UnwrapPanic);
      }
      return Returned(());
    }

    /** `on_timeout`. */
    method OnTimeout(event: Token) returns (r: Status)
      modifies this, out
      ensures var a := Ws.OnTimeout(out.connected, old(Fields()), event);
        r == a.result && Fields() == a.slots && out.effects == old(out.effects) + a.effects
    {
      if event == Ping {
        var s := out.Queue(Pinged);
        if s.Failed? {
          return s;
        }
        pingTimeout := None;
        r := out.Queue(Scheduled(PingInterval, Ping));
      } else if event == Expire {
        r := out.Queue(Closed(Away));
      } else {
        r := Failed(InvalidToken);
      }
    }

    /** `on_new_timeout`. */
    method OnNewTimeout(event: Token, timeout: Timeout) returns (r: Status)
      modifies this, out
      ensures var a := Ws.OnNewTimeout(out.connected, old(Fields()), event, timeout);
        r == a.result && Fields() == a.slots && out.effects == old(out.effects) + a.effects
    {
      if event == Expire {
        if expireTimeout.Some? {
          var t := expireTimeout.value;
          expireTimeout := None;
          var s := out.Queue(Cancelled(t));
          if s.Failed? {
            return s;
          }
        }
        expireTimeout := Some(timeout);
      } else {
        if pingTimeout.Some? {
          var t := pingTimeout.value;
          pingTimeout := None;
          var s := out.Queue(Cancelled(t));
          if s.Failed? {
            return s;
          }
        }
        pingTimeout := Some(timeout);
      }
      return Done;
    }

    /** `on_frame`. */
    method OnFrame(frame: Frame, utf8: Utf8Decoder, validate: Validator) returns (r: FrameResult)
      modifies out
      ensures var a := Ws.OnFrame(out.connected, Fields(), frame, utf8, validate);
        r == a.result && out.effects == old(out.effects) + a.effects
    {
      if frame.opcode == PongCode && utf8(frame.payload).None? {
        return Rejected(EncodingError);
      }
      var s := out.Queue(Scheduled(ActivityWindow, Expire));
      if s.Failed? {
        return Rejected(s.error);
      }
      return validate(frame);
    }
  }
}

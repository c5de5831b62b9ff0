# BashableNotes, modelled in Dafny

BashableNotes is a notebook server for markdown. A notebook is a markdown file whose fenced
code blocks can carry a JSON header, for example `{"name": "main.py", "cmd": "python main.py"}`.

When the client opens a notebook, the server does the following:
- it parses the document into events;
- it collects the code blocks;
- it saves every named block to a file in the server's working directory;
- it wraps every block in a UIkit accordion and sends the page.

Then it runs the blocks' commands, one call at a time, in a Docker container built from the
server's working directory's `Dockerfile`, with that directory mounted on `/home`. A default `Dockerfile` is written when the directory has none. The
client can also ask for the file tree of the server's folder. A websocket connection carries
the traffic and is kept alive by a ping timer and an expiry timer.

An earlier single-document server is also modelled (`src/parser.rs`, `src/websocket.rs`). Its
`parse_markdown` renders `res/test.md` after cutting each code block's info string down to its
language. Its handler calls a `MarkdownRenderer` type that `src/parser.rs` does not define, so
the handler's page renderer is a parameter of the model (see "## Left out").

## Modules

- `Wrappers` holds `Option`, `Result` (an io error) and `Outcome`. `Outcome` is either a returned value or a panic with its message.
- `Strings` models Rust's `trim`, `contains`, `split_whitespace().next()`, `format!("{}", n)` on naturals and UTF-8 byte slicing.
- `Markdown` holds the parser's events. `Fs` holds `Path::join` and the file system, which is a map from path to content.
- `CodeBlocks` models `Renderer::parse`.
- `Splicing` models the in-place wrapping loop of `render` and its `Vec::insert` calls.
- `Accordion` holds the wrapper markup.
- `Docker` models `docker.rs`.
- `Rendering` models the `Renderer` object: `render`, `execute` and `clean_up`.
- `FileTrees` models `render_file_tree`.
- `Ws` holds the websocket library surface the handlers use (the sender, timeouts, frames), the timer handlers as functions, and runs of timer events.
- `Server` models `server.rs`. `LegacyParser`, `LegacyPage` and `LegacyServer` model the earlier server.

External libraries appear as function parameters:
- the markdown parser (`EventParser`) and the HTML writer (`HtmlWriter`), both from pulldown-cmark;
- the JSON decoders and encoder (`OptionsParser`, `AppDecoder`, `JsonEncoder`), from serde;
- `str::from_utf8` (`Utf8Decoder`) and the library's frame validation (`Validator`), from the websocket crate;
- `Path::canonicalize` (`Canonicalizer`) and running a process (`Runner`).

## Where the code and the design description differ (the model follows the code)

- `execute` pops the last block, so the blocks run from the last to the first, not in document order (`Rendering.ReverseOrder`).
- `Image::build` panics when the success message is missing from the build output. Only an io error (resolving a path, or spawning `docker`) gives the internal-error answer.
- When `Container::start` meets an io error it leaves no container, and the following `unwrap` panics. So the "no container" branch at `renderer.rs:302-303` cannot be reached, and the model has no such branch.
- The image is built and a container started on the first `execute`, even when no block has a command.
- A failed build changes nothing. So the execution loop of `server.rs` (`while !execution_finished()`) calls `execute` again and again, answering with the internal-error triple each time: one error is never the end (`Rendering.BuildFailureRepeats`).
- `on_frame` returns an error for a pong whose payload is not UTF-8 before it reschedules the expiry.
- `src/parser.rs` slices the info string at the language's byte length counted from the start of the untrimmed string. After leading whitespace that can fall inside a character and panic (`LegacyParser.LeadingWhitespacePanics`).
- When the event loop refuses commands, `on_new_timeout` has already taken the old handle out of its field and does not store the new one, so a handle is lost (`Ws.LostWhenRefused`). That is the way of losing a handle this model shows; a refusal partway through `on_close` loses one too, but the model does not capture it (see `Ws.Sender` under "## Left out").
- The renderer's folder is `env::current_dir()` (`renderer.rs:59`), not the notebook's own folder: a notebook opened from a subfolder still has its named blocks saved, its `Dockerfile` read and its mount taken from the server's working directory (`Renderer(nb.cwd)` in `Server`).

## Model

| member | source | states |
|---|---|---|
| Fs.Join | bashable_notes_server/src/renderer.rs:200 | An absolute name replaces the folder. Otherwise the joined path ends with the name. |
| Strings.NatToStringInjective | bashable_notes_server/src/renderer.rs:43-44 | Different naturals print as different decimal strings. |
| Strings.TrimKeepsMiddle | bashable_notes_server/src/docker.rs:70-73 | `trim` takes off exactly the leading and trailing whitespace, and keeps the middle as it is. |
| Strings.TrimIdempotent | bashable_notes_server/src/docker.rs:70-73 | Trimming a trimmed string changes nothing. |
| Strings.ContainsIff | bashable_notes_server/src/docker.rs:27-34 | `contains` holds exactly when the pattern starts at some position of the text. |
| Strings.FirstTokenShape | src/parser.rs:26-31 | The first token has no whitespace. Only whitespace comes before it, and whitespace or the end comes after it. |
| Strings.SliceFromPrefix | src/parser.rs:33 | Slicing off the byte length of a prefix gives the rest of the string. |
| CodeBlocks.BlockIdsDistinct | bashable_notes_server/src/renderer.rs:42-50 | Blocks opened at different event positions get different ids. |
| CodeBlocks.Parse | bashable_notes_server/src/renderer.rs:76-130 | The loop returns the events unchanged. Its blocks are those of the one-pass scan. |
| CodeBlocks.ParseCharacterised | bashable_notes_server/src/renderer.rs:84-127 | There is one block per start event, and block k is the block that opens at the k-th start. |
| CodeBlocks.ParsedBlockFacts | bashable_notes_server/src/renderer.rs:89-121 | Each block begins at a start event and is named after it. The blocks are ordered by start. Options and code come from the text runs up to the next delimiter: the first run is read as options when it decodes, and is code otherwise. The end index is that delimiter's position when it is an end event, and 0 otherwise. |
| CodeBlocks.EveryStartCollected | bashable_notes_server/src/renderer.rs:89-94 | Every start event opens a collected block. |
| CodeBlocks.WellFormedBlocksClose | bashable_notes_server/src/renderer.rs:114-121 | In a well-formed document every block ends, after its start, at an end event. |
| CodeBlocks.NestedStartKeepsEndZero | bashable_notes_server/src/renderer.rs:89-94 | A start inside an open block opens the next block; the open block keeps end index 0. |
| CodeBlocks.ParsedOrder | bashable_notes_server/src/renderer.rs:87-94 | The collected blocks are strictly increasing in start position. |
| Splicing.Fragments | bashable_notes_server/src/renderer.rs:225-252 | There are four insertions per block: two at its start index and two just after its end index. |
| Splicing.Insertions | bashable_notes_server/src/renderer.rs:218-253 | The loop makes four insertions per block. |
| Splicing.InsertAt | bashable_notes_server/src/renderer.rs:212-215 | `Vec::insert` panics exactly past the end. Otherwise the vector grows by one, with the fragment at the index. |
| Splicing.InsertAtShifts | bashable_notes_server/src/renderer.rs:212-215 | An insertion keeps the prefix and moves the tail one place along. |
| Splicing.RemoveInserted | bashable_notes_server/src/renderer.rs:212-215 | Removing the inserted event gives back the vector it was inserted into. |
| Splicing.WrapBlock | bashable_notes_server/src/renderer.rs:225-252 | The four `insert_html` calls of one block, each at its index plus the running offset, agree with applying the block's fragments. |
| Splicing.WrapCodeBlocks | bashable_notes_server/src/renderer.rs:210-253 | The in-place wrapping loop agrees with applying all insertions, with the offset growing by four per block. |
| Splicing.ApplyInsertionsFit | bashable_notes_server/src/renderer.rs:210-253 | When every target lies within the original vector, no insertion panics, and each one adds exactly one event. |
| Splicing.UnspliceInverse | bashable_notes_server/src/renderer.rs:210-253 | Removing the inserted fragments, latest first, gives back the original events. |
| Splicing.ParsedBlocksFit | bashable_notes_server/src/renderer.rs:193-253 | For any input, the blocks `parse` collects never make the wrapping loop panic. |
| Splicing.SpliceFacts | bashable_notes_server/src/renderer.rs:210-253 | For blocks that fit, the splice returns. It adds four events per block, and the original events can be recovered from it. |
| Splicing.SpliceSeparated | bashable_notes_server/src/renderer.rs:218-253 | For closed, ordered, disjoint blocks, the splice equals the independent layout: each block between its wrapper openings and closings. |
| Splicing.SplicePlacement | bashable_notes_server/src/renderer.rs:218-253 | In the spliced vector, block k sits inside its four fragments, moved on by four events for each earlier block. |
| Splicing.ParsedBlocksSeparated | bashable_notes_server/src/renderer.rs:89-121 | In a well-formed document the collected blocks are closed, ordered and disjoint. |
| Accordion.WrapperId | bashable_notes_server/src/renderer.rs:219-222 | An id read back from an outer wrapper opening rebuilds exactly that markup. |
| Accordion.HeaderName | bashable_notes_server/src/renderer.rs:132-139 | A name read back from an item header rebuilds exactly that header. |
| Accordion.WrapperIdOf | bashable_notes_server/src/renderer.rs:219-222 | The id of a block can be read back from its outer wrapper opening. |
| Accordion.HeaderNameOf | bashable_notes_server/src/renderer.rs:232-240 | A block's file name can be read back from its item header, as can the empty text when it has none. |
| Accordion.WrapperIdsDiffer | bashable_notes_server/src/renderer.rs:219-222 | Blocks with different ids get different wrapper openings. |
| Accordion.ParsedWrappersDistinct | bashable_notes_server/src/renderer.rs:218-222 | The wrappers of any two collected blocks carry different ids. |
| Docker.BuildArgsTag | bashable_notes_server/src/docker.rs:19-24 | The build command line tags the image with the name it is given. |
| Docker.RunArgsRequest | bashable_notes_server/src/docker.rs:52-58 | The run command line mounts the given folder on `/home` and runs the given image. |
| Docker.ExecArgsRequest | bashable_notes_server/src/docker.rs:95-110 | The exec command line runs the given command from `/home`, in the given container, with the code in `CODE`. |
| Docker.BuildOutcome | bashable_notes_server/src/docker.rs:11-39 | An image is returned exactly when the folder resolves (and the Dockerfile too, but only with info logging on, since that call sits inside `info!`), the process runs and its output contains the success message; the image has the requested name. It panics exactly when the message is missing. |
| Docker.QuietBuildIgnoresFile | bashable_notes_server/src/docker.rs:11-18 | With info logging off, the build depends on path resolution only through the folder: resolving the Dockerfile cannot fail it. |
| Docker.StartOutcome | bashable_notes_server/src/docker.rs:49-74 | A container is returned exactly when the folder resolves, the process runs and prints no error output. Its id is the output with its surrounding whitespace, and only that, removed. Any error output is a panic. |
| Docker.KillOutcome | bashable_notes_server/src/docker.rs:80-93 | Killing runs a command line that names the container, and succeeds whenever the process could be spawned, whatever it printed. |
| Docker.ExecOutcome | bashable_notes_server/src/docker.rs:95-116 | Exec runs a command line that asks for the given command and code in the given container, returns both outputs unchanged whatever the exit status, and fails only when spawning fails. |
| Rendering.LastWriter | bashable_notes_server/src/renderer.rs:198-207 | Finds the last block saved to a path: that block writes the path and no later block does. None means no block does. |
| Rendering.SavedContent | bashable_notes_server/src/renderer.rs:198-207 | After the save loop, a file holds the code of the last block saved to it. A file no block names is unchanged, present or absent. |
| Rendering.SaveFiles | bashable_notes_server/src/renderer.rs:198-207 | The save loop leaves the file system as the fold of the named blocks' writes. |
| Rendering.Page | bashable_notes_server/src/renderer.rs:210-253 | The page has the document's events plus four per collected block. |
| Rendering.PageRestores | bashable_notes_server/src/renderer.rs:193-253 | The document's events can be recovered from the page. |
| Rendering.PagePlacement | bashable_notes_server/src/renderer.rs:193-253 | In a well-formed document, block k appears on the page inside its accordion list and item, four places further on for each earlier block. |
| Rendering.Renderer.constructor | bashable_notes_server/src/renderer.rs:58-70 | A new renderer holds no container and no blocks. |
| Rendering.Renderer.Render | bashable_notes_server/src/renderer.rs:181-263 | A missing file panics and changes nothing. Otherwise the renderer keeps the parsed blocks and saves the named ones, and the page is written from the wrapped events. The container is untouched. |
| Rendering.Renderer.Execute | bashable_notes_server/src/renderer.rs:269-327 | One call of `execute`: its answer and the new container and blocks are those of `ExecuteStep`. Files change only by the default Dockerfile, before the first container. |
| Rendering.Renderer.CreateContainer | bashable_notes_server/src/renderer.rs:270-300 | Building and starting: an early answer matches `ExecuteStep`. Otherwise a container is held and running the last block completes the step. |
| Rendering.Renderer.RunNext | bashable_notes_server/src/renderer.rs:305-324 | Pops the last block and runs its command, when it has one. |
| Rendering.Renderer.CleanUp | bashable_notes_server/src/renderer.rs:72-74 | Kills the container exactly when one was started. |
| Rendering.ExecutePops | bashable_notes_server/src/renderer.rs:305-324 | With a container held, a call removes exactly the last block. It answers with the block's id and output exactly when the block has a command, and an exec io error panics. |
| Rendering.DockerfileWritten | bashable_notes_server/src/renderer.rs:272-281 | The default Dockerfile is written only when there is none. No other file changes. |
| Rendering.BuildFailureKeeps | bashable_notes_server/src/renderer.rs:284-291 | A build io error answers with the internal-error triple and leaves container and blocks unchanged. |
| Rendering.ReverseOrder | bashable_notes_server/src/renderer.rs:302-326 | With a container held, the k-th call answers for the k-th block from the end. After one call per block, execution has finished. |
| Rendering.BuildFailureRepeats | bashable_notes_server/src/server.rs:70-77 | While the build fails, every call of the execution loop answers with the internal-error triple and nothing progresses. |
| FileTrees.TreeShape | bashable_notes_server/src/renderer.rs:154-171 | One tree entry per listed entry, in order and with the same name: folders for directories with their subtrees, and files with the joined path. |
| FileTrees.TreeListing | bashable_notes_server/src/renderer.rs:154-171 | Taking the paths out of the tree gives back the listing. |
| FileTrees.RecurseDirectories | bashable_notes_server/src/renderer.rs:154-171 | The recursive loop builds the tree of the listing. |
| FileTrees.RenderFileTree | bashable_notes_server/src/renderer.rs:153-179 | The tree of the current directory has one entry per listed entry, lists it back, and gives each file its full path. |
| Ws.IntoText | bashable_notes_server/src/server.rs:53-59 | A text message is its text. A binary message is text only when its bytes are UTF-8. |
| Ws.NewTimeoutReplaces | bashable_notes_server/src/server.rs:128-144 | A new handle replaces the one of its kind, cancelling it, and the other field is untouched. |
| Ws.CloseClears | bashable_notes_server/src/server.rs:95-105 | After closing, both fields are empty, and exactly the held handles were cancelled. |
| Ws.FrameRearms | bashable_notes_server/src/server.rs:146-163 | Every frame past the UTF-8 check pushes the expiry back by 30 s, then goes to the default validation. |
| Ws.HandlesConserved | bashable_notes_server/src/server.rs:113-144 | Over any run of timer events, every handle handed over or held at the start is still held, was cancelled, or fired as the ping. |
| Ws.ClosedRunHoldsNothing | bashable_notes_server/src/server.rs:95-105 | A run ending in the close holds no handle. |
| Ws.LostWhenRefused | bashable_notes_server/src/server.rs:128-144 | For every slot pair, token and handle: when commands are refused and the token's slot holds a handle, that handle is taken out with no cancel sent, the new one is not kept, and the other slot stays. |
| Server.DispatchReplies | bashable_notes_server/src/server.rs:61-89 | Opening a notebook sends only its page, from which the document can be recovered; a missing file panics. The tree request sends one tree that lists the directory. Anything else sends nothing, and no output is ever sent here. |
| Server.Server.constructor | bashable_notes_server/src/server.rs:15-19 | A new handler holds no timeouts. |
| Server.Server.OnOpen | bashable_notes_server/src/server.rs:32-37 | Schedules the ping in 5 s and the expiry in 15 min, as `Ws.OnOpen` states. |
| Server.Server.OnMessage | bashable_notes_server/src/server.rs:39-93 | Non-text messages are ignored. A text message is decoded and dispatched, then greeted. Opening a notebook renders it with a fresh renderer that holds the parsed blocks and no container, and saves the named blocks. |
| Server.Server.OnClose | bashable_notes_server/src/server.rs:95-105 | Cancels and clears both timeouts, without shutting down. |
| Server.Server.OnError | bashable_notes_server/src/server.rs:107-111 | Shuts the server down. |
| Server.Server.OnTimeout | bashable_notes_server/src/server.rs:113-126 | A ping fires a ping and reschedules it. The expiry closes with `Away`. Any other token is an error. |
| Server.Server.OnNewTimeout | bashable_notes_server/src/server.rs:128-144 | Stores the handle in its token's field, cancelling the previous one. |
| Server.Server.OnFrame | bashable_notes_server/src/server.rs:146-163 | A non-UTF-8 pong is an error. Any other frame reschedules the expiry and is validated. |
| LegacyParser.RewriteAllPanics | src/parser.rs:24-47 | The event map panics exactly when some code block start's slice falls inside a character. |
| LegacyParser.RewriteAllKeeps | src/parser.rs:24-47 | The map keeps every event in place and cuts each code block start down to its language. |
| LegacyParser.LanguageIsFirstToken | src/parser.rs:26-31 | The language is the first whitespace-separated token of the info string, and is empty exactly for a blank one. |
| LegacyParser.ConfigurationAfterLanguage | src/parser.rs:33 | Without leading whitespace, the configuration is the text after the language. |
| LegacyParser.LeadingWhitespacePanics | src/parser.rs:33 | An info string starting with an ideographic space makes the slice panic. |
| LegacyPage.PageAfterHead | src/parser.rs:15-58 | The page is produced exactly when the map does not panic, and it is the fixed head followed by the written document. |
| LegacyServer.AnswerOrder | src/websocket.rs:36-59 | For any page renderer, `get document` is answered by the notice, then by the rendered page as a `document` message, or by the notice alone and the renderer's panic; a refused notice panics. Anything else gets `unknown message` alone, or the queue error. |
| LegacyServer.FreeRendererPage | src/websocket.rs:44-54 | With the free `parse_markdown` as the renderer, the `document` message exists exactly when the info-string map does not panic, and carries the fixed head followed by the written document. |
| LegacyServer.Server.constructor | src/websocket.rs:16-20 | A new handler holds no timeouts. |
| LegacyServer.Server.OnOpen | src/websocket.rs:29-34 | Schedules the ping in 5 s and the expiry in 30 s. |
| LegacyServer.Server.OnMessage | src/websocket.rs:36-59 | Answers as `Answer` states, with the handler's timeouts untouched. |
| LegacyServer.Server.OnClose | src/websocket.rs:61-74 | Cancels and clears both timeouts, then shuts the server down. |
| LegacyServer.Server.OnError | src/websocket.rs:76-80 | Shuts the server down. |
| LegacyServer.Server.OnTimeout | src/websocket.rs:82-98 | Same as the server's: ping and reschedule, or close on expiry. |
| LegacyServer.Server.OnNewTimeout | src/websocket.rs:100-116 | Stores the handle in its token's field, cancelling the previous one. |
| LegacyServer.Server.OnFrame | src/websocket.rs:118-135 | A non-UTF-8 pong is an error. Any other frame reschedules the expiry and is validated. |

## Left out

- Reading and writing files is a map from path to content. The open, create, write and `sync_all` errors, and non-UTF-8 contents and paths (`to_str().unwrap()`), are not modelled.
- `env::current_dir` is a parameter (`notebookDir`, `cwd`). So is the directory listing of `read_dir` (the `Node` tree), in the order the operating system gives. Its io errors, and the `is_dir` test on links, are not modelled.
- Running `docker` is the `Runner` parameter, and `from_utf8_lossy` is taken as already applied to the outputs. Logging (`info!`, `warn!`, `println!`) is left out, except that `Docker.Build` takes whether info logging is on (`Machine.logInfo`), because the Dockerfile is made canonical only inside its `info!` line.
- The `EXEC_CMD` environment variable that `Renderer::new` reads is only logged, so it is left out. The `hide` option is parsed but not used by the core, and is kept only as a field.
- Threads: `thread_send` and the execution thread of `server.rs:63-79` are not modelled as concurrent code. `Server.Server.OnMessage` returns the messages the sending threads get (`sent`) and the renderer handed to the execution thread (`executor`). `Rendering.Replies`/`Rendering.After` describe that thread's loop as a sequence of `execute` calls. The delivery order between threads, and the JSON encoding and send of each `Output`, are not modelled.
- The pong's round-trip time (a clock and a float) and the ping payload (the current time) are left out: a ping is the `Pinged` command.
- Ws.Sender: whether the event loop accepts commands is fixed for a sender's whole life (`connected`), so a sender that accepts one command and refuses the next (a full queue, or a loop that stops between two commands) is not modelled. The partial outcomes are therefore missing: `on_close` cancelling the ping and then panicking on the expiry's cancel with that handle already taken, `on_open` scheduling the ping but not the expiry, and `on_timeout(PING)` sending the ping but not rescheduling it.
- In `Ws`, the event loop's own behaviour (when timeouts fire, when new handles are delivered) is outside the model: runs of timer events are given as input. Error details from the library are empty strings, and the only close code is `Away`.
- Panic messages: every `unwrap` panics with one `UnwrapPanic` text, and `LegacyParser.SlicePanic` stands for the slice's message.
- `usize` overflow of the insertion index is not modelled; indices are unbounded naturals.
- `Splicing` takes the wrapper markup as a parameter (`Markup`); `Rendering` always passes `Accordion.BlockWrapper`.
- `Rendering.Renderer.CleanUp` returns the kill result, which the source discards (`clean_up` takes `self` by value).
- LegacyServer.Answer: `src/websocket.rs:44-45` calls `MarkdownRenderer::new().parse_markdown()`, but `src/parser.rs` defines no `MarkdownRenderer` (only the free `parse_markdown`), so that crate does not build as it stands. The renderer is the `PageRenderer` parameter of `Answer` and `Server.OnMessage`. `LegacyServer.FreeRendererPage` gives the page only on the assumption that the renderer behaves like the free function.
- LegacyServer.AnswerOrder: promises the page only as whatever the `PageRenderer` gives, because the real renderer type is missing from the source; `FreeRendererPage` states more under the free-function assumption.
- The crates' `main.rs`, `lib.rs` and `build.rs`, and the browser client, are not part of this model.

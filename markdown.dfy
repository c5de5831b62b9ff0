/**
 * The markdown event stream as the renderer sees it. The markdown parser that produces it
 * and the HTML writer that consumes it are external libraries and appear in this model
 * only as function parameters of these types.
 */
module Markdown {

  /** One parser event, reduced to the kinds the core tells apart. */
  datatype Event =
    | CodeStart(info: string)  // the start of a fenced code block, with its info string
    | CodeEnd(info: string)    // the end of a fenced code block
    | Text(text: string)       // a run of text
    | Html(html: string)       // raw HTML, passed to the output as it is
    | Other(kind: string)      // any other structural event (paragraph, heading, ...)

  /** The events that open or close a code block. */
  predicate IsDelimiter(e: Event)
  {
    e.CodeStart? || e.CodeEnd?
  }

  /** The markdown parser: document text to events. */
  type EventParser = string -> seq<Event>

  /** The HTML writer: events to markup. */
  type HtmlWriter = seq<Event> -> string
}

/** Paths and the files the program reads and writes. */
module Fs {
  import opened Wrappers

  /**
   * `Path::join`: an absolute `name` replaces `dir`; otherwise a separator is put
   * between them unless `dir` is empty or already ends in one.
   */
  function Join(dir: string, name: string): (p: string)
    ensures |name| > 0 && name[0] == '/' ==> p == name
    ensures |name| <= |p|
    ensures !(|name| > 0 && name[0] == '/') ==> p[|p| - |name|..] == name
  {
    if |name| > 0 && name[0] == '/' then name
    else if dir == [] || dir[|dir| - 1] == '/' then dir + name
    else dir + "/" + name
  }

  /** `Path::canonicalize`: the absolute path a path resolves to, or the io error. */
  type Canonicalizer = string -> Result<string>

  /** The file system: the content of every file, by path. */
  class FileSystem {
    var files: map<string, string>

    constructor (files: map<string, string>)
      ensures this.files == files
    {
      this.files := files;
    }
  }
}

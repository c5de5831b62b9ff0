/**
 * The earlier renderer (`src/parser.rs`): the fenced blocks' info strings are cut down to
 * their language before the page is written, and the page is the highlighting assets, the
 * style sheet and the rendered document.
 */
module LegacyParser {
  import opened Wrappers
  import opened Strings
  import opened Markdown

  /** The panic of `&s[n..]` when `n` falls inside a character; its exact text is not modelled. */
  const SlicePanic: string := "byte index is not a char boundary"

  /** The language of an info string: its first whitespace-separated token, or nothing. */
  function Language(settings: string): string
  {
    FirstToken(settings)
  }

  /** The configuration text: the info string without its first `len(language)` bytes. */
  function Configuration(settings: string): Option<string>
  {
    SliceFrom(settings, ByteLen(Language(settings)))
  }

  /** The event map of `parse_markdown`: a code block's start keeps only its language. */
  function Rewrite(e: Event): Outcome<Event>
  {
    match e
    case CodeStart(settings) =>
      if Configuration(settings).None? then Panicked(SlicePanic) else Returned(CodeStart(Language(settings)))
    case _ => Returned(e)
  }

  /** The mapped event stream, as the HTML writer draws it: the first panic ends it. */
  function RewriteAll(events: seq<Event>): Outcome<seq<Event>>
  {
    if events == [] then Returned([])
    else
      match RewriteAll(events[..|events| - 1])
      case Panicked(m) => Panicked(m)
      case Returned(init) =>
        match Rewrite(events[|events| - 1])
        case Panicked(m) => Panicked(m)
        case Returned(e) => Returned(init + [e])
  }

  /** A start whose configuration slice is refused. */
  predicate BadStart(e: Event)
  {
    e.CodeStart? && Configuration(e.info).None?
  }

  /** The map panics exactly when some start's slice is refused. */
  lemma {:induction false} RewriteAllPanics(events: seq<Event>)
    ensures RewriteAll(events).Panicked? <==> exists i :: 0 <= i < |events| && BadStart(events[i])
  {
    if events != [] {
      var init := events[..|events| - 1];
      RewriteAllPanics(init);
      if exists i :: 0 <= i < |init| && BadStart(init[i]) {
        var i :| 0 <= i < |init| && BadStart(init[i]);
        assert events[i] == init[i];
      } else {
        forall i | 0 <= i < |events| - 1
          ensures !BadStart(events[i])
        {
          assert events[i] == init[i];
        }
      }
    }
  }

  /** The map keeps every event in its place and changes only code block starts, each to its language. */
  lemma {:induction false} RewriteAllKeeps(events: seq<Event>)
    requires RewriteAll(events).Returned?
    ensures |RewriteAll(events).result| == |events|
    ensures forall i :: 0 <= i < |events| ==>
      RewriteAll(events).result[i] == if events[i].CodeStart? then CodeStart(Language(events[i].info)) else events[i]
  {
    if events != [] {
      var init := events[..|events| - 1];
      RewriteAllKeeps(init);
      forall i | 0 <= i < |events|
        ensures RewriteAll(events).result[i] == if events[i].CodeStart? then CodeStart(Language(events[i].info)) else events[i]
      {
        if i < |init| {
          assert events[i] == init[i];
          assert RewriteAll(events).result[i] == RewriteAll(init).result[i];
        }
      }
    }
  }

  /**
   * The language is the first token: it has no whitespace, only whitespace comes before
   * it, and whitespace or the end comes after it; it is empty exactly for a blank info string.
   */
  lemma LanguageIsFirstToken(settings: string)
    ensures NoWhitespace(Language(settings))
    ensures LeadLen(settings) + |Language(settings)| <= |settings|
    ensures settings[LeadLen(settings)..LeadLen(settings) + |Language(settings)|] == Language(settings)
    ensures AllWhitespace(settings[..LeadLen(settings)])
    ensures LeadLen(settings) + |Language(settings)| == |settings| || IsWhitespace(settings[LeadLen(settings) + |Language(settings)|])
    ensures Language(settings) == [] <==> AllWhitespace(settings)
  {
    FirstTokenShape(settings);
  }

  /** With no whitespace in front, the slice takes the language off and leaves the rest. */
  lemma ConfigurationAfterLanguage(settings: string)
    requires settings == [] || !IsWhitespace(settings[0])
    ensures |Language(settings)| <= |settings|
    ensures Configuration(settings) == Some(settings[|Language(settings)|..])
  {
    assert TrimStart(settings) == settings;
    var lang := TakeToken(settings);
    assert settings == lang + settings[|lang|..];
    SliceFromPrefix(lang, settings[|lang|..]);
  }

  /**
   * With whitespace in front the slice is taken literally from the start and can land
   * inside a character: after an ideographic space (three bytes) the language `a` has one
   * byte, and byte 1 is inside the space.
   */
  lemma LeadingWhitespacePanics()
    ensures Rewrite(CodeStart("\U{3000}a")) == Panicked(SlicePanic)
  {
    var s := "\U{3000}a";
    assert IsWhitespace(s[0]);
    assert s[1..] == "a";
    assert !IsWhitespace('a');
    assert TrimStart("a") == "a";
    assert TrimStart(s) == "a";
    assert "a"[1..] == [];
    assert TakeToken("a") == "a";
    assert ByteLen("a") == 1;
    assert Utf8Len(s[0]) == 3;
    assert SliceFrom(s, 1) == None;
  }
}

/** The page `parse_markdown` writes. */
module LegacyPage {
  import opened Wrappers
  import opened Strings
  import opened Markdown
  import opened LegacyParser

  /** The document the earlier server always renders. */
  const DocumentPath: string := "res/test.md"

  /** The highlighting style sheet and script, loaded from a CDN. */
  const CodeHighlighting: string :=
    "\n        <link rel=\"stylesheet\" href=\"//cdnjs.cloudflare.com/ajax/libs/highlight.js/9.12.0/styles/atom-one-dark.min.css\">\n        <script src=\"//cdnjs.cloudflare.com/ajax/libs/highlight.js/9.12.0/highlight.min.js\"></script>\n        <script>hljs.initHighlightingOnLoad();</script>"

  const Style: string := "<link rel=\"stylesheet\" type=\"text/css\" href=\"res/style.css\">"

  /** What comes before the rendered document. */
  function Head(): string
  {
    CodeHighlighting + "\n\n" + Style + "\n\n"
  }

  /**
   * `parse_markdown`: read the document (a missing file is an unwrap panic), map its
   * events and write the page.
   */
  function ParseMarkdown(files: map<string, string>, parse: EventParser, write: HtmlWriter): Outcome<string>
  {
    if DocumentPath !in files then Panicked(UnwrapPanic)
    else
      match RewriteAll(parse(files[DocumentPath]))
      case Panicked(m) => Panicked(m)
      case Returned(events) => Returned(Head() + write(events))
  }

  /** The rendered document is read back from the page after the fixed head. */
  lemma PageAfterHead(files: map<string, string>, parse: EventParser, write: HtmlWriter)
    requires DocumentPath in files
    ensures ParseMarkdown(files, parse, write).Returned? <==> RewriteAll(parse(files[DocumentPath])).Returned?
    ensures ParseMarkdown(files, parse, write).Returned? ==>
      Between(ParseMarkdown(files, parse, write).result, Head(), "") == Some(write(RewriteAll(parse(files[DocumentPath])).result))
  {
    if RewriteAll(parse(files[DocumentPath])).Returned? {
      var html := write(RewriteAll(parse(files[DocumentPath])).result);
      assert Head() + html == Head() + html + "";
      BetweenOf(Head(), html, "");
    }
  }
}

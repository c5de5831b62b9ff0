/**
 * The markup `Renderer::render` puts around each code block: a UIkit accordion list
 * (`<ul uk-accordion>`) named after the block, holding one open item whose header reads
 * "Input" followed by the block's file name.
 */
module Accordion {
  import opened Wrappers
  import opened Strings
  import opened Markdown
  import opened CodeBlocks
  import opened Splicing

  /** The text of the outer wrapper opening up to the block's id. */
  const UlPrefix: string := "<ul uk-accordion=\"multiple: true\" id=\""

  /** The text of the outer wrapper opening after the block's id. */
  const UlSuffix: string := "\">"

  /** `block_wrapper_begin`: the accordion list, with the block's id. */
  function UlBegin(id: string): string
  {
    UlPrefix + id + UlSuffix
  }

  /** `block_wrapper_end`. */
  const UlEnd: string := "</ul>"

  /** The item opening up to the header's title. */
  const ItemPrefix: string :=
    "\n            <li class=\"uk-open\">\n                <a class=\"uk-accordion-title uk-text-small\" href=\"#\"><span class=\"uk-text-bold\">"

  /** Between the header's title and its subtext. */
  const ItemMiddle: string := "</span> <span class=\"uk-text-muted\">"

  /** The item opening after the header's subtext. */
  const ItemSuffix: string := "</span></a>\n                <div class=\"uk-accordion-content\">"

  /** `collabsible_wrapper_begin(title, subtext)`: an open accordion item and its header. */
  function CollapsibleWrapperBegin(title: string, subtext: string): string
  {
    ItemPrefix + title + ItemMiddle + subtext + ItemSuffix
  }

  /** `collabsible_wrapper_end`. */
  const CollapsibleWrapperEnd: string := "\n                </div>\n            </li>"

  /** The title every block's header carries. */
  const InputTitle: string := "Input"

  /**
   * The four fragments `render` inserts for block `b`: the list named after the block,
   * the item headed "Input" and the block's file name (empty when it has none), and their
   * closings.
   */
  function BlockWrapper(b: CodeBlock): Wrapper
  {
    Wrapper(UlBegin(b.id), CollapsibleWrapperBegin(InputTitle, b.options.name.GetOr("")), CollapsibleWrapperEnd, UlEnd)
  }

  /** The id an outer wrapper opening carries, read back from its markup. */
  function WrapperId(html: string): (o: Option<string>)
    ensures o.Some? ==> UlBegin(o.value) == html
  {
    Between(html, UlPrefix, UlSuffix)
  }

  /** The file name an "Input" item header shows, read back from its markup. */
  function HeaderName(html: string): (o: Option<string>)
    ensures o.Some? ==> CollapsibleWrapperBegin(InputTitle, o.value) == html
  {
    var o := Between(html, ItemPrefix + InputTitle + ItemMiddle, ItemSuffix);
    if o.Some? then
      assert ItemPrefix + InputTitle + ItemMiddle + o.value + ItemSuffix == CollapsibleWrapperBegin(InputTitle, o.value);
      o
    else None
  }

  /** The id is read back from the outer wrapper of any block. */
  lemma {:induction false} WrapperIdOf(b: CodeBlock)
    ensures WrapperId(BlockWrapper(b).listOpen) == Some(b.id)
  {
    BetweenOf(UlPrefix, b.id, UlSuffix);
  }

  /** The file name (empty when there is none) is read back from the header of any block. */
  lemma {:induction false} HeaderNameOf(b: CodeBlock)
    ensures HeaderName(BlockWrapper(b).itemOpen) == Some(b.options.name.GetOr(""))
  {
    var name := b.options.name.GetOr("");
    var pre := ItemPrefix + InputTitle + ItemMiddle;
    assert CollapsibleWrapperBegin(InputTitle, name) == pre + name + ItemSuffix;
    BetweenOf(pre, name, ItemSuffix);
  }

  /** Blocks with different ids get different outer wrappers. */
  lemma {:induction false} WrapperIdsDiffer(b: CodeBlock, c: CodeBlock)
    requires b.id != c.id
    ensures BlockWrapper(b).listOpen != BlockWrapper(c).listOpen
  {
    WrapperIdOf(b);
    WrapperIdOf(c);
  }

  /** The blocks of one document get outer wrappers with pairwise different ids. */
  lemma {:induction false} ParsedWrappersDistinct(events: seq<Event>, parseOptions: OptionsParser, j: nat, k: nat)
    requires j < k < |ParsedBlocks(events, parseOptions)|
    ensures var blocks := ParsedBlocks(events, parseOptions);
      BlockWrapper(blocks[j]).listOpen != BlockWrapper(blocks[k]).listOpen
  {
    var blocks := ParsedBlocks(events, parseOptions);
    ParsedBlockFacts(events, parseOptions, j);
    ParsedBlockFacts(events, parseOptions, k);
    ParsedOrder(events, parseOptions, j, k);
    BlockIdsDistinct(blocks[j].startIndex, blocks[k].startIndex);
    WrapperIdsDiffer(blocks[j], blocks[k]);
  }
}

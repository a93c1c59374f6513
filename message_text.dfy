/** `_extract_text_from_message`: the displayable text of a message from the agent SDK, by a case
    analysis on the message's shape. */
module MessageText {
  import opened Wrappers
  import Seqs

  /** One element of a list `content`: a dict with optional `type` and `text` keys, or an object
      that may have a `text` attribute. */
  datatype Block =
    | DictBlock(blockType: Option<string>, text: Option<string>)
    | AttrBlock(textAttr: Option<string>)

  /** The value under `content`: a string, a list of blocks, or a value of another type. */
  datatype Content = StrContent(s: string) | ListContent(blocks: seq<Block>) | OtherContent

  /** A message: a string; a dict or an object with `__dict__` (both read as a mapping with
      optional `subtype`, `content` and `text` entries); or any other value, whose `str()` is
      `repr`. */
  datatype Message =
    | Str(s: string)
    | Mapping(subtype: Option<string>, content: Option<Content>, text: Option<string>)
    | Other(repr: string)

  /** The subtypes of internal tool traffic, which show no text. */
  predicate Internal(subtype: Option<string>) {
    subtype.Some? && subtype.value in ["init", "tool_use", "tool_result"]
  }

  /** The text a block adds to `text_parts`: the `text` of a "text" dict block (or "" without
      one), the `text` attribute of an object, and nothing otherwise. */
  function BlockParts(b: Block): seq<string> {
    match b
    case DictBlock(t, text) => if t == Some("text") then [text.GetOr("")] else []
    case AttrBlock(a) => if a.Some? then [a.value] else []
  }

  /** `text_parts` after the loop over `blocks`. */
  function TextParts(blocks: seq<Block>): seq<string> {
    if blocks == [] then [] else TextParts(blocks[..|blocks| - 1]) + BlockParts(blocks[|blocks| - 1])
  }

  /** `"".join(parts)`. */
  function Concat(parts: seq<string>): string {
    if parts == [] then "" else Concat(parts[..|parts| - 1]) + parts[|parts| - 1]
  }

  /** `_extract_text_from_message`. */
  function ExtractText(m: Message): (r: string)
    ensures m.Str? ==> r == m.s
    ensures m.Mapping? && Internal(m.subtype) ==> r == ""
    ensures m.Mapping? && m.content.None? && m.text.None? ==> r == ""
  {
    match m
    case Str(s) => s
    case Other(repr) => repr
    case Mapping(subtype, content, text) =>
      if Internal(subtype) then ""
      else
        match content
        case Some(StrContent(s)) => s
        case Some(ListContent(blocks)) => Concat(TextParts(blocks))
        case _ => text.GetOr("")
  }

  lemma {:induction false} ConcatAppend(p: seq<string>, q: seq<string>)
    ensures Concat(p + q) == Concat(p) + Concat(q)
    decreases |q|
  {
    if q == [] {
      assert p + q == p;
    } else {
      ConcatAppend(p, q[..|q| - 1]);
      Seqs.AppendInit(p, q);
    }
  }

  lemma {:induction false} TextPartsAppend(a: seq<Block>, b: seq<Block>)
    ensures TextParts(a + b) == TextParts(a) + TextParts(b)
    decreases |b|
  {
    if b == [] {
      assert a + b == a;
    } else {
      TextPartsAppend(a, b[..|b| - 1]);
      Seqs.AppendInit(a, b);
    }
  }

  /** The text of a list of blocks is the texts of its parts one after the other: splitting the
      list anywhere splits the text at the same place. */
  lemma BlocksTextAppend(a: seq<Block>, b: seq<Block>)
    ensures Concat(TextParts(a + b)) == Concat(TextParts(a)) + Concat(TextParts(b))
  {
    TextPartsAppend(a, b);
    ConcatAppend(TextParts(a), TextParts(b));
  }

  /** A block that is neither a "text" dict nor an object with `text` adds nothing. */
  lemma {:induction false} NonTextBlocksIgnored(blocks: seq<Block>)
    requires forall i :: 0 <= i < |blocks| ==> BlockParts(blocks[i]) == []
    ensures TextParts(blocks) == [] && Concat(TextParts(blocks)) == ""
  {
    if blocks != [] {
      var init := blocks[..|blocks| - 1];
      assert forall i :: 0 <= i < |init| ==> init[i] == blocks[i];
      NonTextBlocksIgnored(init);
      assert BlockParts(blocks[|blocks| - 1]) == [];
    }
  }

  /** A single "text" block gives its text. */
  lemma TextBlock(b: Block)
    requires b.DictBlock? && b.blockType == Some("text")
    ensures Concat(TextParts([b])) == b.text.GetOr("")
  {
    assert [b][..0] == [];
    assert TextParts([b]) == [b.text.GetOr("")];
    assert [b.text.GetOr("")][..0] == [];
  }

  /** The cases of the analysis, in the order they are tried: a string is itself; any other
      non-mapping is its `str()`; internal tool traffic is ""; then string content, list content,
      the `text` entry, and "" when there is neither. */
  lemma ExtractCases(m: Message)
    ensures m.Str? ==> ExtractText(m) == m.s
    ensures m.Other? ==> ExtractText(m) == m.repr
    ensures m.Mapping? && Internal(m.subtype) ==> ExtractText(m) == ""
    ensures m.Mapping? && !Internal(m.subtype) && m.content.Some? && m.content.value.StrContent? ==>
              ExtractText(m) == m.content.value.s
    ensures m.Mapping? && !Internal(m.subtype) && m.content.Some? && m.content.value.ListContent? ==>
              ExtractText(m) == Concat(TextParts(m.content.value.blocks))
    ensures m.Mapping? && !Internal(m.subtype) && (m.content.None? || m.content.value.OtherContent?) ==>
              ExtractText(m) == m.text.GetOr("")
  {
  }

  /** Test 1: a plain string comes back unchanged. */
  lemma PlainString()
    ensures ExtractText(Str("Hello, world!")) == "Hello, world!"
  {
  }

  /** Test 2: two text blocks are joined. */
  lemma TwoTextBlocks()
    ensures ExtractText(Mapping(None, Some(ListContent([DictBlock(Some("text"), Some("This is ")),
                                                        DictBlock(Some("text"), Some("a test."))])), None))
            == "This is a test."
  {
    var first := DictBlock(Some("text"), Some("This is "));
    var second := DictBlock(Some("text"), Some("a test."));
    assert [first, second] == [first] + [second];
    BlocksTextAppend([first], [second]);
    TextBlock(first);
    TextBlock(second);
    assert "This is " + "a test." == "This is a test.";
  }

  /** Test 3: a `text` entry without content. */
  lemma DirectText()
    ensures ExtractText(Mapping(None, None, Some("Direct text"))) == "Direct text"
  {
  }

  /** Test 4: string content. */
  lemma StringContent()
    ensures ExtractText(Mapping(None, Some(StrContent("String content")), None)) == "String content"
  {
  }

  /** Tests 5 and 6: tool use and init messages show nothing, whatever their content. */
  lemma InternalFiltered()
    ensures ExtractText(Mapping(Some("tool_use"), Some(StrContent("Some tool data")), None)) == ""
    ensures ExtractText(Mapping(Some("init"), Some(StrContent("Init data")), None)) == ""
  {
  }

  /** Test 7: an object whose `__dict__` holds one text block. */
  lemma ObjectMessage()
    ensures ExtractText(Mapping(None, Some(ListContent([DictBlock(Some("text"), Some("Object message"))])), None))
            == "Object message"
  {
    TextBlock(DictBlock(Some("text"), Some("Object message")));
  }
}

/** `_layout_chunking` (loaders/document_ai_common.py:9-207): the
    hierarchical chunker. It walks the shards, their pages, and each page's
    blocks in visual order, keeping the current rule, chapter, section,
    content type, a pending bare number and the accumulated text, and emits
    a chunk whenever a heading, a section title, a rule header or a change
    of content type closes the accumulation.

    The behaviour is given twice: as a fold of pure step functions
    (`StepBlock`, `EnterPage`, `RunBlocks`, `RunPages`, `RunShards`,
    `LayoutChunks`), about which the properties are proved, and as the
    method `LayoutChunking`, the nested loops of the source, proved to
    compute that fold. */
module Chunker {
  import opened Wrappers
  import opened Text
  import opened Geometry
  import opened Patterns

  const Source: string := "PDF (DocAI-Layout)"
  const NotApplicable: string := "N/A"
  const Body: string := "body"
  const General: string := "General"

  datatype Metadata = Metadata(
    source: string,
    rule: string,
    variant: string,
    chapter: string,
    section: string,
    page: int,
    contentType: string)

  /** A LangChain `Document`: the chunk text and its metadata. */
  datatype Chunk = Chunk(content: string, metadata: Metadata)

  /** `page_config`: page number to a dict of page settings. */
  type PageConfig = map<int, map<string, string>>

  /** `(page_config or {}).get(n, {}).get("content_type", "body")`. */
  function PageContentType(config: Option<PageConfig>, n: int): (ct: string)
    ensures config.None? ==> ct == Body
    ensures config.Some? && n in config.value && "content_type" in config.value[n] ==>
      ct == config.value[n]["content_type"]
    ensures config.Some? && (n !in config.value || "content_type" !in config.value[n]) ==> ct == Body
  {
    var table := config.GetOr(map[]);
    var info := if n in table then table[n] else map[];
    if "content_type" in info then info["content_type"] else Body
  }

  /** The chunker's loop variables. */
  datatype State = State(
    text: string,
    rule: string,
    chapter: string,
    section: string,
    contentType: string,
    pending: Option<string>,
    chunks: seq<Chunk>)

  const Initial: State := State("", "Front Matter", General, General, Body, None, [])

  /** The chunk the current accumulation becomes: stripped text, and "N/A"
      for rule and section outside the body. */
  function NewChunk(text: string, rule: string, chapter: string, section: string,
                    contentType: string, variant: string, page: int): Chunk
  {
    var isBody := contentType == Body;
    Chunk(Strip(text), Metadata(Source, if isBody then rule else NotApplicable, variant, chapter,
                                if isBody then section else NotApplicable, page, contentType))
  }

  function ChunkOf(st: State, variant: string, page: int): Chunk {
    NewChunk(st.text, st.rule, st.chapter, st.section, st.contentType, variant, page)
  }

  /** What a flush emits: a chunk when the accumulation is not blank. */
  function Emitted(st: State, variant: string, page: int): seq<Chunk> {
    if Strip(st.text) != [] then [ChunkOf(st, variant, page)] else []
  }

  /** The flush used by headings, section titles and content-type changes:
      a non-blank accumulation becomes a chunk and the accumulation restarts. */
  function Flush(st: State, variant: string, page: int): State {
    if Strip(st.text) != [] then st.(text := "", chunks := st.chunks + [ChunkOf(st, variant, page)]) else st
  }

  /** What the four patterns say of a block's text. */
  datatype Kinds = Kinds(chapter: bool, section: bool, header: Option<string>, number: bool)

  function KindsOf(bt: string): Kinds {
    Kinds(IsChapter(bt), IsSectionHeading(bt), HeaderMatch(bt), IsSectionNumber(bt))
  }

  /** The text after a pending number is its title when it is not a heading
      of another kind, has at most 40 characters and does not end in a
      period. */
  predicate IsSectionTitle(bt: string, k: Kinds) {
    var isSpecial := k.chapter || k.header.Some? || k.number;
    var looksLikeContent := |bt| > 40 || EndsWith(Strip(bt), ".");
    !isSpecial && !looksLikeContent
  }

  /** A pending number that is not a section number after all goes into the
      content, followed by a newline. */
  function ReleasePending(st: State): State {
    if st.pending.Some? then st.(text := st.text + st.pending.value + "\n", pending := None) else st
  }

  /** The hierarchy and rule detection of one non-empty block. */
  function Classify(st: State, variant: string, page: int, bt: string, k: Kinds, inZone: bool): State {
    if k.chapter then
      Flush(st, variant, page).(chapter := bt, rule := General)
    else if k.section then
      Flush(st, variant, page).(section := bt, rule := General)
    else if inZone && k.header.Some? then
      var kept := if |st.text| > 20 then st.chunks + [ChunkOf(st, variant, page)] else st.chunks;
      st.(chunks := kept, rule := k.header.value, text := bt + " ")
    else if k.number then
      st.(pending := Some(bt))
    else
      st.(text := st.text + bt + "\n")
  }

  /** One block, given its stripped text, what the patterns say of it, and
      whether it lies in the content zone. */
  function StepBlock(st: State, variant: string, page: int, bt: string, k: Kinds, inZone: bool): State {
    if bt == [] then st
    else if st.pending.Some? && IsSectionTitle(bt, k) then
      Flush(st, variant, page).(section := st.pending.value + " " + bt, pending := None)
    else
      Classify(ReleasePending(st), variant, page, bt, k, inZone)
  }

  /** A block's stripped anchor text. */
  function BlockText(text: string, b: Block): string {
    Strip(AnchorText(text, b.segments))
  }

  /** Outside the top of the page band: no vertex lower than 0.95, or no
      vertices at all. */
  predicate InContentZone(b: Block) {
    b.vertices == [] || MaxOf(Ys(b.vertices)) <= 0.95
  }

  /** The blocks of one page, in the order given. */
  function RunBlocks(st: State, variant: string, page: int, text: string, blocks: seq<Block>): State {
    if blocks == [] then st
    else
      var last := blocks[|blocks| - 1];
      var bt := BlockText(text, last);
      StepBlock(RunBlocks(st, variant, page, text, blocks[..|blocks| - 1]), variant, page,
                bt, KindsOf(bt), InContentZone(last))
  }

  /** Entering page `n` of content type `ct`: a change of content type
      flushes under the outgoing type, dated to the previous page. */
  function EnterPage(st: State, variant: string, n: int, ct: string): State {
    if ct != st.contentType then
      Flush(st, variant, if n > 1 then n - 1 else 1).(contentType := ct)
    else st
  }

  function RunPage(st: State, variant: string, config: Option<PageConfig>, text: string, page: Page): State {
    RunBlocks(EnterPage(st, variant, page.number, PageContentType(config, page.number)),
              variant, page.number, text, VisualOrder(page.blocks))
  }

  function RunPages(st: State, variant: string, config: Option<PageConfig>, text: string, pages: seq<Page>): State {
    if pages == [] then st
    else RunPage(RunPages(st, variant, config, text, pages[..|pages| - 1]), variant, config, text, pages[|pages| - 1])
  }

  function RunShards(st: State, variant: string, config: Option<PageConfig>, shards: seq<Shard>): State {
    if shards == [] then st
    else
      var last := shards[|shards| - 1];
      RunPages(RunShards(st, variant, config, shards[..|shards| - 1]), variant, config, last.text, last.pages)
  }

  /** The page the last flush is dated to: the last page of the last shard,
      or 0 when that shard has none. */
  function FinalPage(shards: seq<Shard>): int {
    if shards == [] then 0
    else
      var last := shards[|shards| - 1];
      if last.pages == [] then 0 else last.pages[|last.pages| - 1].number
  }

  /** The chunks of the whole document: the fold, then the final flush of
      any non-empty accumulation. A pending number is not part of it. */
  function LayoutChunks(shards: seq<Shard>, variant: string, config: Option<PageConfig>): seq<Chunk> {
    var st := RunShards(Initial, variant, config, shards);
    if st.text != [] then st.chunks + [ChunkOf(st, variant, FinalPage(shards))] else st.chunks
  }

  // ---------------------------------------------------------------------
  // Well-formed chunks

  /** What every emitted chunk satisfies. */
  predicate WellFormed(c: Chunk, variant: string) {
    && c.content != [] && IsStripped(c.content)
    && c.metadata.source == Source
    && c.metadata.variant == variant
    && (c.metadata.contentType != Body ==>
          c.metadata.rule == NotApplicable && c.metadata.section == NotApplicable)
  }

  /** The invariant of the loop variables: the accumulation is empty or not
      blank, a pending value is a bare number, and every chunk so far is
      well formed. */
  predicate Consistent(st: State, variant: string) {
    && (st.text == [] || Strip(st.text) != [])
    && (st.pending.Some? ==> IsSectionNumber(st.pending.value))
    && (forall k :: 0 <= k < |st.chunks| ==> WellFormed(st.chunks[k], variant))
  }

  lemma ChunkOfWellFormed(st: State, variant: string, page: int)
    requires Strip(st.text) != []
    ensures WellFormed(ChunkOf(st, variant, page), variant)
    ensures ChunkOf(st, variant, page).content == Strip(st.text)
  {
    StripShape(st.text);
  }

  /** A line of block text appended to the accumulation is not blank. */
  lemma LineVisible(text: string, bt: string)
    requires bt != [] && IsStripped(bt)
    ensures Strip(text + bt + "\n") != []
  {
    assert (text + bt + "\n")[|text|] == bt[0];
    VisibleNotBlank(text + bt + "\n", |text|);
  }

  /** A rule header followed by a space is not blank. */
  lemma HeaderVisible(bt: string)
    requires bt != [] && IsStripped(bt)
    ensures Strip(bt + " ") != []
  {
    assert (bt + " ")[0] == bt[0];
    VisibleNotBlank(bt + " ", 0);
  }

  /** A flush of a consistent state empties the accumulation and appends
      what `Emitted` says. */
  lemma FlushShape(st: State, variant: string, page: int)
    requires Consistent(st, variant)
    ensures Flush(st, variant, page).text == []
    ensures Flush(st, variant, page).chunks == st.chunks + Emitted(st, variant, page)
  {
  }

  lemma FlushConsistent(st: State, variant: string, page: int)
    requires Consistent(st, variant)
    ensures Consistent(Flush(st, variant, page), variant)
  {
    if Strip(st.text) != [] {
      ChunkOfWellFormed(st, variant, page);
      AppendWellFormed(st.chunks, ChunkOf(st, variant, page), variant);
    }
  }

  lemma AppendWellFormed(cs: seq<Chunk>, c: Chunk, variant: string)
    requires forall k :: 0 <= k < |cs| ==> WellFormed(cs[k], variant)
    requires WellFormed(c, variant)
    ensures forall k :: 0 <= k < |cs + [c]| ==> WellFormed((cs + [c])[k], variant)
  {
    forall k | 0 <= k < |cs + [c]| ensures WellFormed((cs + [c])[k], variant) {
      if k < |cs| {
        assert (cs + [c])[k] == cs[k];
      }
    }
  }

  /** A bare number starts with a digit, so it is never blank. */
  lemma NumberVisible(text: string, n: string)
    requires IsSectionNumber(n)
    ensures Strip(text + n + "\n") != []
  {
    if !AllDigits(n) {
      assert n[..|n| - 1][0] == n[0];
    }
    DigitIsNotSpace(n[0]);
    assert (text + n + "\n")[|text|] == n[0];
    VisibleNotBlank(text + n + "\n", |text|);
  }

  lemma ReleasePendingConsistent(st: State, variant: string)
    requires Consistent(st, variant)
    ensures Consistent(ReleasePending(st), variant)
    ensures ReleasePending(st).pending == None
    ensures ReleasePending(st).chunks == st.chunks
  {
    if st.pending.Some? {
      NumberVisible(st.text, st.pending.value);
    }
  }

  lemma ClassifyConsistent(st: State, variant: string, page: int, bt: string, k: Kinds, inZone: bool)
    requires Consistent(st, variant) && bt != [] && IsStripped(bt)
    requires k.number ==> IsSectionNumber(bt)
    ensures Consistent(Classify(st, variant, page, bt, k, inZone), variant)
  {
    if k.chapter || k.section {
      FlushConsistent(st, variant, page);
    } else if inZone && k.header.Some? {
      HeaderVisible(bt);
      if |st.text| > 20 {
        ChunkOfWellFormed(st, variant, page);
        AppendWellFormed(st.chunks, ChunkOf(st, variant, page), variant);
      }
    } else if !k.number {
      LineVisible(st.text, bt);
    }
  }

  /** Each block keeps the invariant. */
  lemma StepBlockConsistent(st: State, variant: string, page: int, bt: string, inZone: bool)
    requires Consistent(st, variant) && IsStripped(bt)
    ensures Consistent(StepBlock(st, variant, page, bt, KindsOf(bt), inZone), variant)
  {
    var k := KindsOf(bt);
    if bt != [] {
      if st.pending.Some? && IsSectionTitle(bt, k) {
        FlushConsistent(st, variant, page);
      } else {
        ReleasePendingConsistent(st, variant);
        ClassifyConsistent(ReleasePending(st), variant, page, bt, k, inZone);
      }
    }
  }

  lemma EnterPageConsistent(st: State, variant: string, n: int, ct: string)
    requires Consistent(st, variant)
    ensures Consistent(EnterPage(st, variant, n, ct), variant)
  {
    if ct != st.contentType {
      var f := Flush(st, variant, if n > 1 then n - 1 else 1);
      FlushConsistent(st, variant, if n > 1 then n - 1 else 1);
      assert EnterPage(st, variant, n, ct) == f.(contentType := ct);
    }
  }

  lemma {:induction false} RunBlocksConsistent(st: State, variant: string, page: int, text: string, blocks: seq<Block>)
    requires Consistent(st, variant)
    ensures Consistent(RunBlocks(st, variant, page, text, blocks), variant)
  {
    if blocks != [] {
      var last := blocks[|blocks| - 1];
      RunBlocksConsistent(st, variant, page, text, blocks[..|blocks| - 1]);
      StripShape(AnchorText(text, last.segments));
      StepBlockConsistent(RunBlocks(st, variant, page, text, blocks[..|blocks| - 1]), variant, page,
                          BlockText(text, last), InContentZone(last));
    }
  }

  lemma {:induction false} RunPagesConsistent(st: State, variant: string, config: Option<PageConfig>, text: string, pages: seq<Page>)
    requires Consistent(st, variant)
    ensures Consistent(RunPages(st, variant, config, text, pages), variant)
  {
    if pages != [] {
      var page := pages[|pages| - 1];
      RunPagesConsistent(st, variant, config, text, pages[..|pages| - 1]);
      var before := RunPages(st, variant, config, text, pages[..|pages| - 1]);
      EnterPageConsistent(before, variant, page.number, PageContentType(config, page.number));
      RunBlocksConsistent(EnterPage(before, variant, page.number, PageContentType(config, page.number)),
                          variant, page.number, text, VisualOrder(page.blocks));
    }
  }

  lemma {:induction false} RunShardsConsistent(st: State, variant: string, config: Option<PageConfig>, shards: seq<Shard>)
    requires Consistent(st, variant)
    ensures Consistent(RunShards(st, variant, config, shards), variant)
  {
    if shards != [] {
      var last := shards[|shards| - 1];
      RunShardsConsistent(st, variant, config, shards[..|shards| - 1]);
      RunPagesConsistent(RunShards(st, variant, config, shards[..|shards| - 1]), variant, config, last.text, last.pages);
    }
  }

  /** Every chunk of a document has non-empty stripped content, the fixed
      source, the given variant, and "N/A" for rule and section outside the
      body. */
  lemma LayoutChunksWellFormed(shards: seq<Shard>, variant: string, config: Option<PageConfig>)
    ensures forall k :: 0 <= k < |LayoutChunks(shards, variant, config)| ==>
      WellFormed(LayoutChunks(shards, variant, config)[k], variant)
  {
    RunShardsConsistent(Initial, variant, config, shards);
    var st := RunShards(Initial, variant, config, shards);
    if st.text != [] {
      ChunkOfWellFormed(st, variant, FinalPage(shards));
      AppendWellFormed(st.chunks, ChunkOf(st, variant, FinalPage(shards)), variant);
    }
  }

  // ---------------------------------------------------------------------
  // Chunks once emitted stay

  lemma PrefixTransitive(a: seq<Chunk>, b: seq<Chunk>, c: seq<Chunk>)
    requires a <= b && b <= c
    ensures a <= c
  {
    assert c[..|a|] == b[..|a|];
  }

  lemma StepBlockAppends(st: State, variant: string, page: int, bt: string, k: Kinds, inZone: bool)
    ensures var r := StepBlock(st, variant, page, bt, k, inZone);
      st.chunks <= r.chunks && |r.chunks| <= |st.chunks| + 1
  {
    if bt != [] {
      if st.pending.Some? && IsSectionTitle(bt, k) {
        FlushAppends(st, variant, page);
      } else {
        assert ReleasePending(st).chunks == st.chunks;
        ClassifyAppends(ReleasePending(st), variant, page, bt, k, inZone);
      }
    }
  }

  lemma FlushAppends(st: State, variant: string, page: int)
    ensures var r := Flush(st, variant, page);
      st.chunks <= r.chunks && |r.chunks| <= |st.chunks| + 1
  {
  }

  lemma ClassifyAppends(st: State, variant: string, page: int, bt: string, k: Kinds, inZone: bool)
    ensures var r := Classify(st, variant, page, bt, k, inZone);
      st.chunks <= r.chunks && |r.chunks| <= |st.chunks| + 1
  {
    if k.chapter || k.section {
      FlushAppends(st, variant, page);
    }
  }

  lemma EnterPageAppends(st: State, variant: string, n: int, ct: string)
    ensures var r := EnterPage(st, variant, n, ct);
      st.chunks <= r.chunks && |r.chunks| <= |st.chunks| + 1
  {
  }

  lemma {:induction false} RunBlocksAppends(st: State, variant: string, page: int, text: string, blocks: seq<Block>)
    ensures st.chunks <= RunBlocks(st, variant, page, text, blocks).chunks
    ensures |RunBlocks(st, variant, page, text, blocks).chunks| <= |st.chunks| + |blocks|
  {
    if blocks != [] {
      var last := blocks[|blocks| - 1];
      var bt := BlockText(text, last);
      var prev := RunBlocks(st, variant, page, text, blocks[..|blocks| - 1]);
      var r := StepBlock(prev, variant, page, bt, KindsOf(bt), InContentZone(last));
      assert RunBlocks(st, variant, page, text, blocks) == r;
      RunBlocksAppends(st, variant, page, text, blocks[..|blocks| - 1]);
      StepBlockAppends(prev, variant, page, bt, KindsOf(bt), InContentZone(last));
      PrefixTransitive(st.chunks, prev.chunks, r.chunks);
    }
  }

  /** Processing more pages only appends chunks: a chunk once emitted is
      never changed or removed. */
  lemma {:induction false} RunPagesAppends(st: State, variant: string, config: Option<PageConfig>, text: string, pages: seq<Page>)
    ensures st.chunks <= RunPages(st, variant, config, text, pages).chunks
  {
    if pages != [] {
      var page := pages[|pages| - 1];
      RunPagesAppends(st, variant, config, text, pages[..|pages| - 1]);
      var before := RunPages(st, variant, config, text, pages[..|pages| - 1]);
      var ct := PageContentType(config, page.number);
      EnterPageAppends(before, variant, page.number, ct);
      RunBlocksAppends(EnterPage(before, variant, page.number, ct), variant, page.number, text, VisualOrder(page.blocks));
    }
  }

  // ---------------------------------------------------------------------
  // One block at a time

  /** A block whose text is empty after stripping changes nothing. */
  lemma EmptyBlockSkipped(st: State, variant: string, page: int, inZone: bool)
    ensures StepBlock(st, variant, page, "", KindsOf(""), inZone) == st
  {
  }

  lemma NotAChapter(bt: string)
    requires IsSectionHeading(bt) || IsSectionNumber(bt) || HeaderMatch(bt).Some?
    ensures !IsChapter(bt)
  {
    if IsChapter(bt) {
      ChapterIsNothingElse(bt);
    }
  }

  /** A chapter title closes the accumulation (the pending number, if any,
      included), becomes the chapter and resets the rule; the section stays
      and the title is not content. */
  lemma ChapterStep(st: State, variant: string, page: int, bt: string, inZone: bool)
    requires Consistent(st, variant) && IsChapter(bt)
    ensures var r := StepBlock(st, variant, page, bt, KindsOf(bt), inZone);
      && r.chapter == bt && r.rule == General
      && r.section == st.section && r.contentType == st.contentType
      && r.text == [] && r.pending == None
      && r.chunks == st.chunks + Emitted(ReleasePending(st), variant, page)
  {
    ChapterIsNothingElse(bt);
    ReleasePendingConsistent(st, variant);
    FlushShape(ReleasePending(st), variant, page);
  }

  /** A section heading closes the accumulation, becomes the section and
      resets the rule; the chapter stays and the heading is not content.
      (After a pending number a short heading is that number's title
      instead: see `PendingTitleStep`.) */
  lemma SectionHeadingStep(st: State, variant: string, page: int, bt: string, inZone: bool)
    requires Consistent(st, variant) && IsSectionHeading(bt)
    requires st.pending.Some? ==> !IsSectionTitle(bt, KindsOf(bt))
    ensures var r := StepBlock(st, variant, page, bt, KindsOf(bt), inZone);
      && r.section == bt && r.rule == General
      && r.chapter == st.chapter && r.contentType == st.contentType
      && r.text == [] && r.pending == None
      && r.chunks == st.chunks + Emitted(ReleasePending(st), variant, page)
  {
    SectionHeadingIsNothingElse(bt);
    NotAChapter(bt);
    ReleasePendingConsistent(st, variant);
    FlushShape(ReleasePending(st), variant, page);
  }

  /** A rule header in the content zone sets the rule to the matched token
      and restarts the accumulation with the block text and a space; the
      previous text becomes a chunk only when it is longer than 20
      characters, and is otherwise dropped. */
  lemma RuleHeaderStep(st: State, variant: string, page: int, bt: string)
    requires HeaderMatch(bt).Some?
    ensures var r := StepBlock(st, variant, page, bt, KindsOf(bt), true);
      var before := ReleasePending(st);
      && r.rule == HeaderMatch(bt).value
      && r.text == bt + " "
      && r.chunks == st.chunks + (if |before.text| > 20 then [ChunkOf(before, variant, page)] else [])
      && r.chapter == st.chapter && r.section == st.section && r.contentType == st.contentType
      && r.pending == None
  {
    NotAChapter(bt);
    if IsSectionHeading(bt) {
      SectionHeadingIsNothingElse(bt);
    }
  }

  /** Outside the content zone a rule header is plain content: the rule
      stays and the text is appended with a newline. */
  lemma RuleHeaderOutsideZoneStep(st: State, variant: string, page: int, bt: string)
    requires HeaderMatch(bt).Some?
    ensures var r := StepBlock(st, variant, page, bt, KindsOf(bt), false);
      && r.rule == st.rule
      && r.text == ReleasePending(st).text + bt + "\n"
      && r.chunks == st.chunks
      && r.chapter == st.chapter && r.section == st.section && r.pending == None
  {
    NotAChapter(bt);
    SectionNumberNotHeader(bt);
    if IsSectionHeading(bt) {
      SectionHeadingIsNothingElse(bt);
    }
  }

  lemma SectionNumberNotHeader(bt: string)
    requires HeaderMatch(bt).Some?
    ensures !IsSectionNumber(bt)
  {
    if IsSectionNumber(bt) {
      SectionNumberIsNotHeader(bt);
    }
  }

  /** A bare number, in any zone, is held back as the pending number and not
      added to the content; a number already pending goes into the content
      first. */
  lemma NumberStep(st: State, variant: string, page: int, bt: string, inZone: bool)
    requires IsSectionNumber(bt)
    ensures var r := StepBlock(st, variant, page, bt, KindsOf(bt), inZone);
      && r.pending == Some(bt)
      && r.text == ReleasePending(st).text
      && r.chunks == st.chunks
      && r.rule == st.rule && r.chapter == st.chapter && r.section == st.section
  {
    NotAChapter(bt);
    SectionNumberIsNotHeader(bt);
    if IsSectionHeading(bt) {
      SectionHeadingIsNothingElse(bt);
    }
  }

  /** A short title after a pending number closes the accumulation and
      becomes the section "<number> <title>"; it is not content. */
  lemma PendingTitleStep(st: State, variant: string, page: int, bt: string, inZone: bool)
    requires Consistent(st, variant) && st.pending.Some? && bt != []
    requires IsSectionTitle(bt, KindsOf(bt))
    ensures var r := StepBlock(st, variant, page, bt, KindsOf(bt), inZone);
      && r.section == st.pending.value + " " + bt
      && r.pending == None && r.text == []
      && r.chunks == st.chunks + Emitted(st, variant, page)
      && r.rule == st.rule && r.chapter == st.chapter && r.contentType == st.contentType
  {
    TitleStep(st, variant, page, bt, KindsOf(bt), inZone);
  }

  lemma TitleStep(st: State, variant: string, page: int, bt: string, k: Kinds, inZone: bool)
    requires Consistent(st, variant) && st.pending.Some? && bt != []
    requires IsSectionTitle(bt, k)
    ensures var r := StepBlock(st, variant, page, bt, k, inZone);
      && r.section == st.pending.value + " " + bt
      && r.pending == None && r.text == []
      && r.chunks == st.chunks + Emitted(st, variant, page)
      && r.rule == st.rule && r.chapter == st.chapter && r.contentType == st.contentType
  {
    var f := Flush(st, variant, page);
    FlushShape(st, variant, page);
    assert StepBlock(st, variant, page, bt, k, inZone) == f.(section := st.pending.value + " " + bt, pending := None);
  }

  /** Any other block after a pending number: the number turns out to be
      content, and the block is handled as if the number had been text
      followed by a newline. */
  lemma PendingFallbackStep(st: State, variant: string, page: int, bt: string, inZone: bool)
    requires st.pending.Some? && bt != []
    requires !IsSectionTitle(bt, KindsOf(bt))
    ensures StepBlock(st, variant, page, bt, KindsOf(bt), inZone)
         == StepBlock(st.(text := st.text + st.pending.value + "\n", pending := None), variant, page, bt, KindsOf(bt), inZone)
  {
  }

  /** Ordinary text is appended to the accumulation with a newline. */
  lemma ContentStep(st: State, variant: string, page: int, bt: string, inZone: bool)
    requires st.pending.None? && bt != []
    requires !IsChapter(bt) && !IsSectionHeading(bt) && !IsSectionNumber(bt)
    requires !inZone || HeaderMatch(bt).None?
    ensures StepBlock(st, variant, page, bt, KindsOf(bt), inZone) == st.(text := st.text + bt + "\n")
  {
  }

  /** A change of content type flushes under the outgoing type, dated to the
      previous page (page 1 for the first), and keeps rule, chapter, section
      and the pending number; the same type changes nothing. */
  lemma EnterPageStep(st: State, variant: string, n: int, ct: string)
    requires Consistent(st, variant)
    ensures var r := EnterPage(st, variant, n, ct);
      && r.contentType == ct
      && r.rule == st.rule && r.chapter == st.chapter && r.section == st.section
      && r.pending == st.pending
      && (ct == st.contentType ==> r == st)
      && (ct != st.contentType ==>
            r.text == [] && r.chunks == st.chunks + Emitted(st, variant, if n > 1 then n - 1 else 1))
  {
    if ct != st.contentType {
      var f := Flush(st, variant, if n > 1 then n - 1 else 1);
      FlushShape(st, variant, if n > 1 then n - 1 else 1);
      assert EnterPage(st, variant, n, ct) == f.(contentType := ct);
    }
  }

  /** What the patterns say of a line that none of them matches. */
  const PlainKinds: Kinds := Kinds(false, false, None, false)

  /** A stripped, non-empty line of text. */
  predicate Line(bt: string) {
    bt != [] && IsStripped(bt)
  }

  /** A stripped, non-empty line that none of the four patterns matches. */
  predicate PlainLine(bt: string) {
    Line(bt) && KindsOf(bt) == PlainKinds
  }

  /** A state whose accumulation a heading would flush into a chunk. */
  predicate Open(st: State) {
    Strip(st.text) != [] && st.pending == None
  }

  /** The block loop over lines of text already stripped and classified,
      all in the content zone, as a test drives it with the visual sort and
      `_get_text` passed over. */
  function StepLines(st: State, variant: string, page: int, lines: seq<(string, Kinds)>): State
    decreases |lines|
  {
    if lines == [] then st
    else StepLines(StepBlock(st, variant, page, lines[0].0, lines[0].1, true), variant, page, lines[1..])
  }

  /** The stripped texts of a page's blocks, each with what the patterns
      say of it. */
  function LinesOf(text: string, blocks: seq<Block>): seq<(string, Kinds)> {
    if blocks == [] then []
    else
      var bt := BlockText(text, blocks[|blocks| - 1]);
      LinesOf(text, blocks[..|blocks| - 1]) + [(bt, KindsOf(bt))]
  }

  lemma {:induction false} StepLinesSnoc(st: State, variant: string, page: int, lines: seq<(string, Kinds)>,
                                         x: (string, Kinds))
    ensures StepLines(st, variant, page, lines + [x])
         == StepBlock(StepLines(st, variant, page, lines), variant, page, x.0, x.1, true)
    decreases |lines|
  {
    if lines == [] {
      assert [] + [x] == [x];
    } else {
      assert (lines + [x])[1..] == lines[1..] + [x];
      StepLinesSnoc(StepBlock(st, variant, page, lines[0].0, lines[0].1, true), variant, page, lines[1..], x);
    }
  }

  /** On a page whose blocks all lie in the content zone, the block loop is
      the loop over their stripped texts. */
  lemma {:induction false} RunBlocksAsLines(st: State, variant: string, page: int, text: string, blocks: seq<Block>)
    requires forall k :: 0 <= k < |blocks| ==> InContentZone(blocks[k])
    ensures RunBlocks(st, variant, page, text, blocks) == StepLines(st, variant, page, LinesOf(text, blocks))
    decreases |blocks|
  {
    if blocks != [] {
      var n := |blocks| - 1;
      var bt := BlockText(text, blocks[n]);
      RunBlocksAsLines(st, variant, page, text, blocks[..n]);
      StepLinesSnoc(st, variant, page, LinesOf(text, blocks[..n]), (bt, KindsOf(bt)));
    }
  }

  /** What the patterns say of a chapter title and of a section heading. */
  const ChapterKinds: Kinds := Kinds(true, false, None, false)
  const SectionKinds: Kinds := Kinds(false, true, None, false)

  /** A rule header, a line, a chapter title, a line, a section heading and
      a line on one body page give three chunks, the last one from the
      final flush: the first under the rule, the second under the chapter
      with the rule reset to "General", the third under the section with
      the rule still "General". By `RunBlocksAsLines` this is what
      `RunBlocks` gives for a page of six such blocks in the content zone. */
  lemma RuleResetting(variant: string, page: int, rule: string, token: string, line1: string, chapter: string,
                      line2: string, section: string, line3: string)
    requires Line(rule) && KindsOf(rule) == Kinds(false, false, Some(token), false)
    requires chapter != [] && KindsOf(chapter) == ChapterKinds
    requires section != [] && KindsOf(section) == SectionKinds
    requires PlainLine(line1) && PlainLine(line2) && PlainLine(line3)
    ensures var st := StepLines(Initial, variant, page,
                                [(rule, Kinds(false, false, Some(token), false)), (line1, PlainKinds)]
                                + ([(chapter, ChapterKinds), (line2, PlainKinds)]
                                   + [(section, SectionKinds), (line3, PlainKinds)]));
      && st.text != []
      && st.chunks + [ChunkOf(st, variant, page)]
         == [NewChunk(rule + " " + line1 + "\n", token, General, General, Body, variant, page),
             NewChunk(line2 + "\n", General, chapter, General, Body, variant, page),
             NewChunk(line3 + "\n", General, chapter, section, Body, variant, page)]
  {
    var s2, s4, s6 := RuleResettingRun(variant, page, rule, token, line1, chapter, line2, section, line3);
    ThreeChunks(variant, page, rule, token, line1, chapter, line2, section, line3, s2, s4, s6);
  }

  /** The chunks of those accumulations, the last one from the final flush. */
  lemma ThreeChunks(variant: string, page: int, rule: string, token: string, line1: string, chapter: string,
                    line2: string, section: string, line3: string, s2: State, s4: State, s6: State)
    requires s2 == State(rule + " " + line1 + "\n", token, General, General, Body, None, [])
    requires s4 == s2.(text := line2 + "\n", rule := General, chapter := chapter, chunks := [ChunkOf(s2, variant, page)])
    requires s6 == s4.(text := line3 + "\n", section := section, chunks := s4.chunks + [ChunkOf(s4, variant, page)])
    ensures s6.chunks + [ChunkOf(s6, variant, page)]
         == [NewChunk(rule + " " + line1 + "\n", token, General, General, Body, variant, page),
             NewChunk(line2 + "\n", General, chapter, General, Body, variant, page),
             NewChunk(line3 + "\n", General, chapter, section, Body, variant, page)]
  {
  }

  /** The three accumulations of the scenario above, the last one not yet
      flushed. */
  lemma RuleResettingRun(variant: string, page: int, rule: string, token: string, line1: string, chapter: string,
                         line2: string, section: string, line3: string) returns (s2: State, s4: State, s6: State)
    requires Line(rule) && chapter != [] && section != []
    requires Line(line1) && Line(line2) && Line(line3)
    ensures s2 == State(rule + " " + line1 + "\n", token, General, General, Body, None, [])
    ensures s4 == s2.(text := line2 + "\n", rule := General, chapter := chapter, chunks := [ChunkOf(s2, variant, page)])
    ensures s6 == s4.(text := line3 + "\n", section := section, chunks := s4.chunks + [ChunkOf(s4, variant, page)])
    ensures StepLines(Initial, variant, page,
                      [(rule, Kinds(false, false, Some(token), false)), (line1, PlainKinds)]
                      + ([(chapter, ChapterKinds), (line2, PlainKinds)]
                         + [(section, SectionKinds), (line3, PlainKinds)])) == s6
  {
    var l3 := [(section, SectionKinds), (line3, PlainKinds)];
    s2, s4 := RuleThenChapter(variant, page, rule, token, line1, chapter, line2, l3);
    assert l3 == l3 + [];
    s6 := HeadingAndLine(s4, variant, page, section, line3, false, []);
  }

  /** The first two accumulations of the scenario, and the lines after them. */
  lemma RuleThenChapter(variant: string, page: int, rule: string, token: string, line1: string, chapter: string,
                        line2: string, rest: seq<(string, Kinds)>) returns (s2: State, s4: State)
    requires Line(rule) && chapter != [] && Line(line1) && Line(line2)
    ensures s2 == State(rule + " " + line1 + "\n", token, General, General, Body, None, [])
    ensures s4 == s2.(text := line2 + "\n", rule := General, chapter := chapter, chunks := [ChunkOf(s2, variant, page)])
    ensures Open(s4)
    ensures StepLines(Initial, variant, page,
                      [(rule, Kinds(false, false, Some(token), false)), (line1, PlainKinds)]
                      + ([(chapter, ChapterKinds), (line2, PlainKinds)] + rest)) == StepLines(s4, variant, page, rest)
  {
    s2 := RuleAndLine(variant, page, rule, token, line1, [(chapter, ChapterKinds), (line2, PlainKinds)] + rest);
    s4 := HeadingAndLine(s2, variant, page, chapter, line2, true, rest);
  }

  /** A rule header and a plain line at the start of a document. */
  lemma RuleAndLine(variant: string, page: int, rule: string, token: string, line: string,
                    rest: seq<(string, Kinds)>) returns (r: State)
    requires Line(rule) && Line(line)
    ensures r == State(rule + " " + line + "\n", token, General, General, Body, None, [])
    ensures Open(r)
    ensures StepLines(Initial, variant, page, [(rule, Kinds(false, false, Some(token), false)), (line, PlainKinds)] + rest)
         == StepLines(r, variant, page, rest)
  {
    var s1 := StepBlock(Initial, variant, page, rule, Kinds(false, false, Some(token), false), true);
    r := StepBlock(s1, variant, page, line, PlainKinds, true);
    LineVisible(rule + " ", line);
    TwoLines(Initial, variant, page, rule, Kinds(false, false, Some(token), false), line, rest, r);
  }

  /** A chapter title (`chapter`) or a section heading (`!chapter`) and a
      plain line after a non-blank accumulation: the accumulation becomes a
      chunk, the rule is reset, and the line starts the next accumulation. */
  lemma HeadingAndLine(st: State, variant: string, page: int, heading: string, line: string, chapter: bool,
                       rest: seq<(string, Kinds)>) returns (r: State)
    requires Open(st) && heading != [] && Line(line)
    ensures r == st.(text := line + "\n", rule := General,
                     chapter := if chapter then heading else st.chapter,
                     section := if chapter then st.section else heading,
                     chunks := st.chunks + [ChunkOf(st, variant, page)])
    ensures Open(r)
    ensures StepLines(st, variant, page, [(heading, Kinds(chapter, !chapter, None, false)), (line, PlainKinds)] + rest)
         == StepLines(r, variant, page, rest)
  {
    var s1 := HeadingFlushes(st, variant, page, heading, chapter);
    assert [] + line + "\n" == line + "\n";
    r := s1.(text := line + "\n");
    LineVisible([], line);
    TwoLines(st, variant, page, heading, Kinds(chapter, !chapter, None, false), line, rest, r);
  }

  lemma HeadingFlushes(st: State, variant: string, page: int, heading: string, chapter: bool) returns (r: State)
    requires Open(st) && heading != []
    ensures r == StepBlock(st, variant, page, heading, Kinds(chapter, !chapter, None, false), true)
    ensures r == st.(text := "", rule := General,
                     chapter := if chapter then heading else st.chapter,
                     section := if chapter then st.section else heading,
                     chunks := st.chunks + [ChunkOf(st, variant, page)])
  {
    r := StepBlock(st, variant, page, heading, Kinds(chapter, !chapter, None, false), true);
  }

  /** A heading (or rule header) and a plain line of the loop, then the
      rest. */
  lemma TwoLines(st: State, variant: string, page: int, a: string, ka: Kinds, b: string,
                 rest: seq<(string, Kinds)>, r: State)
    requires r == StepBlock(StepBlock(st, variant, page, a, ka, true), variant, page, b, PlainKinds, true)
    ensures StepLines(st, variant, page, [(a, ka), (b, PlainKinds)] + rest) == StepLines(r, variant, page, rest)
  {
    var lines := [(a, ka), (b, PlainKinds)] + rest;
    assert lines[1..] == [(b, PlainKinds)] + rest;
    assert lines[1..][1..] == rest;
  }

  /** The chunk a flush emits carries the outgoing content type. */
  lemma EmittedCarriesState(st: State, variant: string, page: int)
    requires Strip(st.text) != []
    ensures var c := ChunkOf(st, variant, page);
      && c.content == Strip(st.text)
      && c.metadata.contentType == st.contentType && c.metadata.chapter == st.chapter
      && c.metadata.page == page
      && (st.contentType == Body ==> c.metadata.rule == st.rule && c.metadata.section == st.section)
  {
  }

  // ---------------------------------------------------------------------
  // The loops

  lemma RunBlocksNext(st: State, variant: string, page: int, text: string, blocks: seq<Block>, k: nat)
    requires k < |blocks|
    ensures var bt := BlockText(text, blocks[k]);
      RunBlocks(st, variant, page, text, blocks[..k + 1])
        == StepBlock(RunBlocks(st, variant, page, text, blocks[..k]), variant, page, bt, KindsOf(bt), InContentZone(blocks[k]))
  {
    assert blocks[..k + 1][..k] == blocks[..k];
  }

  lemma RunPagesNext(st: State, variant: string, config: Option<PageConfig>, text: string, pages: seq<Page>, k: nat)
    requires k < |pages|
    ensures RunPages(st, variant, config, text, pages[..k + 1])
         == RunPage(RunPages(st, variant, config, text, pages[..k]), variant, config, text, pages[k])
  {
    assert pages[..k + 1][..k] == pages[..k];
  }

  lemma RunShardsNext(st: State, variant: string, config: Option<PageConfig>, shards: seq<Shard>, k: nat)
    requires k < |shards|
    ensures RunShards(st, variant, config, shards[..k + 1])
         == RunPages(RunShards(st, variant, config, shards[..k]), variant, config, shards[k].text, shards[k].pages)
  {
    assert shards[..k + 1][..k] == shards[..k];
  }

  /** One block of the innermost loop of `_layout_chunking`, on the loop
      variables: the pending-number check, then the classification. */
  method ProcessBlock(st: State, variant: string, page: int, text: string, block: Block)
    returns (r: State)
    ensures var bt := BlockText(text, block);
      r == StepBlock(st, variant, page, bt, KindsOf(bt), InContentZone(block))
  {
    r := st;
    var raw := GetText(text, block.segments);
    var blockText := Strip(raw);
    if blockText == "" {
      return;
    }
    var kinds := KindsOf(blockText);
    var titled;
    r, titled := PendingBlock(r, variant, page, blockText, kinds);
    if titled {
      return;
    }
    r := ClassifyBlock(r, variant, page, blockText, kinds, block);
  }

  /** The pending-number case of one block: the block becomes the title of
      the pending number, or the number is released into the content. */
  method PendingBlock(st: State, variant: string, page: int, blockText: string, kinds: Kinds)
    returns (r: State, titled: bool)
    requires blockText != []
    ensures titled <==> st.pending.Some? && IsSectionTitle(blockText, kinds)
    ensures titled ==> r == StepBlock(st, variant, page, blockText, kinds, true)
    ensures !titled ==> r == ReleasePending(st)
  {
    r := st;
    titled := false;
    if r.pending.Some? {
      var isSpecial := kinds.chapter || kinds.header.Some? || kinds.number;
      var looksLikeContent := |blockText| > 40 || EndsWith(Strip(blockText), ".");
      if !isSpecial && !looksLikeContent {
        if Strip(r.text) != "" {
          r := r.(chunks := r.chunks + [ChunkOf(r, variant, page)], text := "");
        }
        r := r.(section := r.pending.value + " " + blockText, pending := None);
        titled := true;
        return;
      }
      r := r.(text := r.text + r.pending.value + "\n", pending := None);
    }
  }

  /** The hierarchy and rule detection of a non-empty block. */
  method ClassifyBlock(st: State, variant: string, page: int, blockText: string, kinds: Kinds, block: Block)
    returns (r: State)
    ensures r == Classify(st, variant, page, blockText, kinds, InContentZone(block))
  {
    r := st;
    if kinds.chapter {
      if Strip(r.text) != "" {
        r := r.(chunks := r.chunks + [ChunkOf(r, variant, page)], text := "");
      }
      r := r.(chapter := blockText, rule := General);
      return;
    }
    if kinds.section {
      if Strip(r.text) != "" {
        r := r.(chunks := r.chunks + [ChunkOf(r, variant, page)], text := "");
      }
      r := r.(section := blockText, rule := General);
      return;
    }
    var isInContentZone := true;
    if block.vertices != [] {
      var ys := Ys(block.vertices);
      var maxY := MaxOf(ys);
      if maxY > 0.95 {
        isInContentZone := false;
      }
    }
    assert isInContentZone == InContentZone(block);
    var matchHeader := if isInContentZone then kinds.header else None;
    if matchHeader.Some? {
      if |r.text| > 20 {
        r := r.(chunks := r.chunks + [ChunkOf(r, variant, page)]);
      }
      r := r.(rule := matchHeader.value, text := blockText + " ");
    } else if kinds.number {
      r := r.(pending := Some(blockText));
    } else {
      r := r.(text := r.text + blockText + "\n");
    }
  }

  /** The content-type switch at the top of each page: a change flushes the
      accumulation under the outgoing type, dated to the previous page. */
  method SwitchContentType(st: State, variant: string, n: int, pageContentType: string)
    returns (r: State)
    ensures r == EnterPage(st, variant, n, pageContentType)
  {
    r := st;
    if pageContentType != r.contentType {
      if Strip(r.text) != "" {
        var flushPage := if n > 1 then n - 1 else 1;
        r := r.(chunks := r.chunks + [ChunkOf(r, variant, flushPage)], text := "");
      }
      r := r.(contentType := pageContentType);
    }
  }

  /** One page of `_layout_chunking`: the content-type switch, the visual
      sort and the block loop. */
  method ProcessPage(st: State, variant: string, config: Option<PageConfig>, text: string, page: Page)
    returns (r: State)
    ensures r == RunPage(st, variant, config, text, page)
  {
    var entered := SwitchContentType(st, variant, page.number, PageContentType(config, page.number));
    var sortedBlocks := SortBlocksVisually(page.blocks);
    r := entered;
    BlocksStart(entered, variant, page.number, text, sortedBlocks);
    for k := 0 to |sortedBlocks|
      invariant r == RunBlocks(entered, variant, page.number, text, sortedBlocks[..k])
    {
      var r' := ProcessBlock(r, variant, page.number, text, sortedBlocks[k]);
      BlockStepped(entered, variant, page.number, text, sortedBlocks, k, r, r');
      r := r';
    }
    PageDone(st, variant, config, text, page, entered, sortedBlocks, r);
  }

  lemma BlocksStart(st: State, variant: string, page: int, text: string, blocks: seq<Block>)
    ensures RunBlocks(st, variant, page, text, blocks[..0]) == st
  {
    assert blocks[..0] == [];
  }

  /** After the block loop: the whole sorted page has been run. */
  lemma PageDone(st: State, variant: string, config: Option<PageConfig>, text: string, page: Page,
                 entered: State, sorted: seq<Block>, r: State)
    requires entered == EnterPage(st, variant, page.number, PageContentType(config, page.number))
    requires sorted == VisualOrder(page.blocks)
    requires r == RunBlocks(entered, variant, page.number, text, sorted[..|sorted|])
    ensures r == RunPage(st, variant, config, text, page)
  {
    assert sorted[..|sorted|] == sorted;
  }

  lemma PagesStart(st: State, variant: string, config: Option<PageConfig>, text: string, pages: seq<Page>)
    ensures RunPages(st, variant, config, text, pages[..0]) == st
  {
    assert pages[..0] == [];
  }

  /** After the page loop: every page of the shard has been run. */
  lemma PagesDone(st: State, variant: string, config: Option<PageConfig>, text: string, pages: seq<Page>, r: State)
    requires r == RunPages(st, variant, config, text, pages[..|pages|])
    ensures r == RunPages(st, variant, config, text, pages)
  {
    assert pages[..|pages|] == pages;
  }

  /** One iteration of the block loop, given what `ProcessBlock` returned. */
  lemma BlockStepped(st: State, variant: string, page: int, text: string, blocks: seq<Block>, k: nat,
                     r: State, r': State)
    requires k < |blocks|
    requires r == RunBlocks(st, variant, page, text, blocks[..k])
    requires var bt := BlockText(text, blocks[k]); r' == StepBlock(r, variant, page, bt, KindsOf(bt), InContentZone(blocks[k]))
    ensures r' == RunBlocks(st, variant, page, text, blocks[..k + 1])
  {
    RunBlocksNext(st, variant, page, text, blocks, k);
  }

  /** One iteration of the page loop, given what `ProcessPage` returned. */
  lemma PageStepped(st: State, variant: string, config: Option<PageConfig>, text: string, pages: seq<Page>, j: nat,
                    r: State, r': State)
    requires j < |pages|
    requires r == RunPages(st, variant, config, text, pages[..j])
    requires r' == RunPage(r, variant, config, text, pages[j])
    ensures r' == RunPages(st, variant, config, text, pages[..j + 1])
  {
    RunPagesNext(st, variant, config, text, pages, j);
  }

  /** The pages of one shard, in order. */
  method ProcessShard(st: State, variant: string, config: Option<PageConfig>, shard: Shard)
    returns (r: State)
    ensures r == RunPages(st, variant, config, shard.text, shard.pages)
  {
    r := st;
    PagesStart(st, variant, config, shard.text, shard.pages);
    for j := 0 to |shard.pages|
      invariant r == RunPages(st, variant, config, shard.text, shard.pages[..j])
    {
      var r' := ProcessPage(r, variant, config, shard.text, shard.pages[j]);
      PageStepped(st, variant, config, shard.text, shard.pages, j, r, r');
      r := r';
    }
    PagesDone(st, variant, config, shard.text, shard.pages, r);
  }

  lemma ShardsStart(variant: string, config: Option<PageConfig>, shards: seq<Shard>)
    ensures RunShards(Initial, variant, config, shards[..0]) == Initial
    ensures FinalPage(shards[..0]) == 0
  {
    assert shards[..0] == [];
  }

  /** One iteration of the shard loop, given what `ProcessShard` returned. */
  lemma ShardStepped(variant: string, config: Option<PageConfig>, shards: seq<Shard>, i: nat, st: State, st': State)
    requires i < |shards|
    requires st == RunShards(Initial, variant, config, shards[..i])
    requires st' == RunPages(st, variant, config, shards[i].text, shards[i].pages)
    ensures st' == RunShards(Initial, variant, config, shards[..i + 1])
  {
    RunShardsNext(Initial, variant, config, shards, i);
  }

  /** After the shard loop: the fold and the last page of the whole document. */
  lemma ShardsDone(variant: string, config: Option<PageConfig>, shards: seq<Shard>, st: State, lastPage: int)
    requires st == RunShards(Initial, variant, config, shards[..|shards|])
    requires lastPage == FinalPage(shards[..|shards|])
    ensures st == RunShards(Initial, variant, config, shards)
    ensures lastPage == FinalPage(shards)
  {
    assert shards[..|shards|] == shards;
  }

  lemma FinalPageNext(shards: seq<Shard>, i: nat)
    requires i < |shards|
    ensures var pages := shards[i].pages;
      FinalPage(shards[..i + 1]) == if pages != [] then pages[|pages| - 1].number else 0
  {
    assert shards[..i + 1][i] == shards[i];
  }

  /** `_layout_chunking(docai_shards, variant, page_config)`. */
  method LayoutChunking(shards: seq<Shard>, variant: string, config: Option<PageConfig>)
    returns (chunks: seq<Chunk>)
    ensures chunks == LayoutChunks(shards, variant, config)
    ensures forall k :: 0 <= k < |chunks| ==> WellFormed(chunks[k], variant)
  {
    var st := Initial;
    var lastPage := 0;
    ShardsStart(variant, config, shards);
    for i := 0 to |shards|
      invariant st == RunShards(Initial, variant, config, shards[..i])
      invariant lastPage == FinalPage(shards[..i])
    {
      FinalPageNext(shards, i);
      var st' := ProcessShard(st, variant, config, shards[i]);
      ShardStepped(variant, config, shards, i, st, st');
      st := st';
      var pages := shards[i].pages;
      lastPage := if pages != [] then pages[|pages| - 1].number else 0;
    }
    ShardsDone(variant, config, shards, st, lastPage);
    chunks := st.chunks;
    if st.text != "" {
      chunks := chunks + [ChunkOf(st, variant, lastPage)];
    }
    LayoutChunksWellFormed(shards, variant, config);
  }
}

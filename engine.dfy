/** The orchestration of `rag_engine.py` (`FIHRulesEngine`): ingestion of a
    rulebook into the store, the jurisdiction list, and the query pipeline.
    The language model, the embedding model, the ranking service, the PDF
    loaders and the store's scoped operations are collaborators whose
    answers are parameters. */
module Engine {
  import opened Wrappers
  import opened Text
  import opened Sorting
  import opened Store
  import Chunker

  /** The keys of `config.VARIANTS`, in order. */
  const Variants: seq<string> := ["outdoor", "indoor", "hockey5s"]
  /** The variant a query falls back to. */
  const DefaultVariant: string := "outdoor"
  /** `config.RETRIEVAL_K`: results per retrieval path. */
  const RetrievalK: nat := 15
  /** `config.RANKING_TOP_N`: documents kept after reranking. */
  const RankingTopN: nat := 10

  /** A LangChain `Document`. */
  datatype Doc = Doc(content: string, metadata: Meta)

  /** Python truthiness of an optional string argument such as
      `country_code`. */
  predicate Given(s: Option<string>) {
    s.Some? && s.value != []
  }

  // ---------------------------------------------------------------------
  // ingest_pdf

  function Quote(name: string): string {
    "'" + name + "'"
  }

  /** `repr` of a list of strings free of quotes and backslashes. */
  function ReprList(names: seq<string>): string {
    "[" + Join(", ", Map(names, Quote)) + "]"
  }

  function InvalidVariantMessage(variant: string): string {
    "Invalid variant '" + variant + "'. Allowed: " + ReprList(Variants)
  }

  lemma AllowedVariantsText()
    ensures ReprList(Variants) == "['outdoor', 'indoor', 'hockey5s']"
  {
    var quoted := Map(Variants, Quote);
    assert quoted == [Quote("outdoor"), Quote("indoor"), Quote("hockey5s")];
    JoinThree(", ", Quote("outdoor"), Quote("indoor"), Quote("hockey5s"));
    VariantListText();
  }

  lemma VariantListText()
    ensures "[" + (Quote("outdoor") + ", " + Quote("indoor") + ", " + Quote("hockey5s")) + "]"
         == "['outdoor', 'indoor', 'hockey5s']"
  {
    QuotedVariantsText();
    BracketedVariantsText();
  }

  lemma QuotedVariantsText()
    ensures Quote("outdoor") + ", " + Quote("indoor") + ", " + Quote("hockey5s")
         == "'outdoor', 'indoor', 'hockey5s'"
  {
    var a := Quote("outdoor") + ", ";
    assert a == "'outdoor', ";
    var b := a + Quote("indoor") + ", ";
    assert b == "'outdoor', 'indoor', ";
  }

  lemma BracketedVariantsText()
    ensures "[" + "'outdoor', 'indoor', 'hockey5s'" + "]" == "['outdoor', 'indoor', 'hockey5s']"
  {
    var d := "[" + "'outdoor', 'indoor', 'hockey5s'";
    assert d == "['outdoor', 'indoor', 'hockey5s'";
  }

  /** The message of the `ValueError` for an unknown variant. */
  lemma InvalidVariantMessageText(variant: string)
    ensures InvalidVariantMessage(variant)
         == "Invalid variant '" + variant + "'. Allowed: " + "['outdoor', 'indoor', 'hockey5s']"
  {
    AllowedVariantsText();
  }

  const CountryKey: string := "country"
  const TypeKey: string := "type"

  /** The metadata tag `ingest_pdf` puts on one loaded document. */
  function Tagged(d: Doc, country: Option<string>): Doc {
    if Given(country) then
      d.(metadata := d.metadata[CountryKey := Str(country.value)][TypeKey := Str("local")])
    else
      d.(metadata := d.metadata[TypeKey := Str("official")])
  }

  /** A call `ingest_pdf` makes on the store. */
  datatype StoreCall =
    | EnsureSchema
    | DeleteScoped(variant: string, country: Option<string>)
    | InsertBatch(texts: seq<string>, vectors: seq<seq<real>>, variant: string, metadatas: seq<Meta>)

  /** What `ingest_pdf` does: raise `ValueError`, or return a count after a
      sequence of store calls. */
  datatype IngestOutcome =
    | Rejected(message: string)
    | Ingested(count: nat, calls: seq<StoreCall>)

  function ContentOf(d: Doc): string { d.content }
  function MetadataOf(d: Doc): Meta { d.metadata }

  function TagWith(country: Option<string>): Doc -> Doc {
    (d: Doc) => Tagged(d, country)
  }

  /** `ingest_pdf(file, variant, country_code, clear_existing)`, given what
      the local loader and the Document AI loader return for the file and
      the embedding model. */
  function Ingest(variant: string, country: Option<string>, clearExisting: bool,
                  localDocs: seq<Doc>, officialDocs: seq<Doc>, embed: seq<string> -> seq<seq<real>>)
    : (r: IngestOutcome)
    ensures r.Rejected? <==> variant !in Variants
  {
    if variant !in Variants then Rejected(InvalidVariantMessage(variant))
    else
      var docs := Map(if Given(country) then localDocs else officialDocs, TagWith(country));
      if docs == [] then Ingested(0, [EnsureSchema])
      else
        var texts := Map(docs, ContentOf);
        Ingested(|docs|,
                 [EnsureSchema]
                 + (if clearExisting then [DeleteScoped(variant, country)] else [])
                 + [InsertBatch(texts, embed(texts), variant, Map(docs, MetadataOf))])
  }

  /** The loop of `ingest_pdf` that tags every loaded document. */
  method TagDocuments(loaded: seq<Doc>, country: Option<string>) returns (docs: seq<Doc>)
    ensures docs == Map(loaded, TagWith(country))
  {
    docs := loaded;
    var i := 0;
    if Given(country) {
      while i < |docs|
        invariant 0 <= i <= |docs| == |loaded|
        invariant forall k :: 0 <= k < i ==> docs[k] == Tagged(loaded[k], country)
        invariant forall k :: i <= k < |docs| ==> docs[k] == loaded[k]
      {
        var d := docs[i];
        d := d.(metadata := d.metadata[CountryKey := Str(country.value)]);
        d := d.(metadata := d.metadata[TypeKey := Str("local")]);
        docs := docs[i := d];
        i := i + 1;
      }
    } else {
      while i < |docs|
        invariant 0 <= i <= |docs| == |loaded|
        invariant forall k :: 0 <= k < i ==> docs[k] == Tagged(loaded[k], country)
        invariant forall k :: i <= k < |docs| ==> docs[k] == loaded[k]
      {
        var d := docs[i];
        docs := docs[i := d.(metadata := d.metadata[TypeKey := Str("official")])];
        i := i + 1;
      }
    }
  }

  method IngestPdf(variant: string, country: Option<string>, clearExisting: bool,
                   localDocs: seq<Doc>, officialDocs: seq<Doc>, embed: seq<string> -> seq<seq<real>>)
    returns (outcome: IngestOutcome)
    ensures outcome == Ingest(variant, country, clearExisting, localDocs, officialDocs, embed)
  {
    if variant !in Variants {
      return Rejected(InvalidVariantMessage(variant));
    }
    var calls := [EnsureSchema];
    var docs;
    if Given(country) {
      docs := TagDocuments(localDocs, country);
    } else {
      docs := TagDocuments(officialDocs, country);
    }
    if docs == [] {
      return Ingested(0, calls);
    }
    if clearExisting {
      calls := calls + [DeleteScoped(variant, country)];
    }
    var texts := Map(docs, ContentOf);
    var metadatas := Map(docs, MetadataOf);
    var vectors := embed(texts);
    calls := calls + [InsertBatch(texts, vectors, variant, metadatas)];
    return Ingested(|docs|, calls);
  }

  /** An invalid variant is refused before any store call, with the message
      listing the allowed ones. */
  lemma IngestRejectsInvalidVariant(variant: string, country: Option<string>, clearExisting: bool,
                                    localDocs: seq<Doc>, officialDocs: seq<Doc>, embed: seq<string> -> seq<seq<real>>)
    requires variant !in Variants
    ensures Ingest(variant, country, clearExisting, localDocs, officialDocs, embed)
         == Rejected("Invalid variant '" + variant + "'. Allowed: " + "['outdoor', 'indoor', 'hockey5s']")
  {
    InvalidVariantMessageText(variant);
  }

  /** A document tagged for a country carries that country and type
      "local"; one tagged without carries type "official"; the content
      and every other key are kept. */
  lemma TaggedMetadata(d: Doc, country: Option<string>, key: string)
    ensures Tagged(d, country).content == d.content
    ensures Get(Tagged(d, country).metadata, TypeKey) == if Given(country) then Str("local") else Str("official")
    ensures Given(country) ==> Get(Tagged(d, country).metadata, CountryKey) == Str(country.value)
    ensures key != TypeKey && (Given(country) ==> key != CountryKey) ==>
      Get(Tagged(d, country).metadata, key) == Get(d.metadata, key)
  {
  }

  /** No loaded document: nothing is deleted or inserted and 0 is
      returned. */
  lemma IngestNothingLoaded(variant: string, country: Option<string>, clearExisting: bool,
                            localDocs: seq<Doc>, officialDocs: seq<Doc>, embed: seq<string> -> seq<seq<real>>)
    requires variant in Variants
    requires (if Given(country) then localDocs else officialDocs) == []
    ensures Ingest(variant, country, clearExisting, localDocs, officialDocs, embed) == Ingested(0, [EnsureSchema])
  {
  }

  /** Otherwise the loaded documents are counted, and the scoped delete
      happens exactly when `clear_existing` is set and always before the one
      insert, which is the last call. */
  lemma IngestCallOrder(variant: string, country: Option<string>, clearExisting: bool,
                        localDocs: seq<Doc>, officialDocs: seq<Doc>, embed: seq<string> -> seq<seq<real>>)
    requires variant in Variants
    requires (if Given(country) then localDocs else officialDocs) != []
    ensures var loaded := if Given(country) then localDocs else officialDocs;
      var r := Ingest(variant, country, clearExisting, localDocs, officialDocs, embed);
      && r.Ingested? && r.count == |loaded|
      && r.calls[0] == EnsureSchema
      && ((exists i :: 0 <= i < |r.calls| && r.calls[i].DeleteScoped?) <==> clearExisting)
      && (forall i, j :: 0 <= i < |r.calls| && 0 <= j < |r.calls| && r.calls[i].DeleteScoped? && r.calls[j].InsertBatch? ==> i < j)
      && (forall i :: 0 <= i < |r.calls| && r.calls[i].DeleteScoped? ==> r.calls[i] == DeleteScoped(variant, country))
      && r.calls[|r.calls| - 1].InsertBatch?
  {
    var r := Ingest(variant, country, clearExisting, localDocs, officialDocs, embed);
    if clearExisting {
      assert |r.calls| == 3 && r.calls[1].DeleteScoped?;
    } else {
      assert |r.calls| == 2;
    }
  }

  /** The insert writes every loaded document under the variant: its text,
      and its metadata tagged with the country or as official. */
  lemma IngestInsertContents(variant: string, country: Option<string>, clearExisting: bool,
                             localDocs: seq<Doc>, officialDocs: seq<Doc>, embed: seq<string> -> seq<seq<real>>)
    requires variant in Variants
    requires (if Given(country) then localDocs else officialDocs) != []
    ensures var loaded := if Given(country) then localDocs else officialDocs;
      var r := Ingest(variant, country, clearExisting, localDocs, officialDocs, embed);
      var insert := r.calls[|r.calls| - 1];
      && r.Ingested? && insert.InsertBatch?
      && insert.variant == variant
      && insert.texts == Map(loaded, ContentOf)
      && |insert.metadatas| == |loaded|
      && (forall k :: 0 <= k < |loaded| ==> insert.metadatas[k] == Tagged(loaded[k], country).metadata)
  {
    var loaded := if Given(country) then localDocs else officialDocs;
    var docs := Map(loaded, TagWith(country));
    forall k | 0 <= k < |loaded| ensures docs[k].content == loaded[k].content {
      TaggedMetadata(loaded[k], country, "");
    }
    assert Map(docs, ContentOf) == Map(loaded, ContentOf);
  }

  // ---------------------------------------------------------------------
  // list_jurisdictions

  /** `config.TOP_50_NATIONS` as its items in order: name, then code or
      `None`. */
  type Nations = seq<(string, Option<string>)>

  /** `{v: k for k, v in TOP_50_NATIONS.items() if v is not None}`: a code
      shared by several names keeps the last of them. */
  function CodeToName(nations: Nations): (r: map<string, string>)
    ensures forall code :: code in r <==> exists i :: 0 <= i < |nations| && nations[i].1 == Some(code)
    ensures forall code :: code in r ==> (r[code], Some(code)) in nations
  {
    if nations == [] then map[]
    else
      var init := nations[..|nations| - 1];
      var prev := CodeToName(init);
      var last := nations[|nations| - 1];
      assert forall i :: 0 <= i < |init| ==> init[i] == nations[i];
      assert forall x :: x in init ==> x in nations;
      if last.1.Some? then prev[last.1.value := last.0] else prev
  }

  /** The name a code maps to is that of the last nation with the code. */
  lemma {:induction false} CodeToNameLastWins(nations: Nations, i: nat)
    requires i < |nations| && nations[i].1.Some?
    requires forall j :: i < j < |nations| ==> nations[j].1 != nations[i].1
    ensures CodeToName(nations)[nations[i].1.value] == nations[i].0
  {
    var init := nations[..|nations| - 1];
    if i < |nations| - 1 {
      assert init[i] == nations[i];
      CodeToNameLastWins(init, i);
    }
  }

  datatype Jurisdiction = Jurisdiction(code: string, name: string)

  function UnknownName(code: string): string {
    "Unknown (" + code + ")"
  }

  /** `{"code": code, "name": code_to_name.get(code, f"Unknown ({code})")}`. */
  function EntryFor(names: map<string, string>): string -> Jurisdiction {
    (code: string) => Jurisdiction(code, if code in names then names[code] else UnknownName(code))
  }

  /** `sort(key=lambda x: x["name"])`. */
  function ByName(): (Jurisdiction, Jurisdiction) -> bool {
    (a: Jurisdiction, b: Jurisdiction) => StrLessEq(a.name, b.name)
  }

  lemma ByNameIsTotalPreorder()
    ensures TotalPreorder(ByName())
  {
    forall a: Jurisdiction, b: Jurisdiction ensures ByName()(a, b) || ByName()(b, a) {
      if StrLess(a.name, b.name) && StrLess(b.name, a.name) {
        StrLessTransitive(a.name, b.name, a.name);
        StrLessIrreflexive(a.name);
      }
    }
    forall a: Jurisdiction, b: Jurisdiction, c: Jurisdiction | ByName()(a, b) && ByName()(b, c)
      ensures ByName()(a, c)
    {
      if StrLess(c.name, a.name) {
        StrLessTrichotomy(a.name, b.name);
        if StrLess(a.name, b.name) {
          StrLessTransitive(c.name, a.name, b.name);
        }
      }
    }
  }

  /** The jurisdictions for the active codes, in order of name. */
  function Jurisdictions(active: seq<string>, nations: Nations): seq<Jurisdiction> {
    SortBy(Map(active, EntryFor(CodeToName(nations))), ByName())
  }

  /** `list_jurisdictions()`, given the codes the store reports active. */
  method ListJurisdictions(active: seq<string>, nations: Nations) returns (results: seq<Jurisdiction>)
    ensures results == Jurisdictions(active, nations)
  {
    var codeToName := ReverseNations(nations);
    results := [];
    for i := 0 to |active|
      invariant results == Map(active[..i], EntryFor(codeToName))
    {
      var code := active[i];
      var name := if code in codeToName then codeToName[code] else UnknownName(code);
      MapNext(active, EntryFor(codeToName), i);
      results := results + [Jurisdiction(code, name)];
    }
    assert active[..|active|] == active;
    assert results == Map(active, EntryFor(CodeToName(nations)));
    results := SortBy(results, ByName());
  }

  /** The dict comprehension that reverses `TOP_50_NATIONS`. */
  method ReverseNations(nations: Nations) returns (codeToName: map<string, string>)
    ensures codeToName == CodeToName(nations)
  {
    codeToName := map[];
    for n := 0 to |nations|
      invariant codeToName == CodeToName(nations[..n])
    {
      assert nations[..n + 1][..n] == nations[..n];
      if nations[n].1.Some? {
        codeToName := codeToName[nations[n].1.value := nations[n].0];
      }
    }
    assert nations[..|nations|] == nations;
  }

  function CodeOf(j: Jurisdiction): string { j.code }

  /** One entry per active code: the listing is a permutation of the codes
      the store reported. */
  lemma JurisdictionsCodes(active: seq<string>, nations: Nations)
    ensures multiset(Map(Jurisdictions(active, nations), CodeOf)) == multiset(active)
  {
    var entries := Map(active, EntryFor(CodeToName(nations)));
    MapPermutation(Jurisdictions(active, nations), entries, CodeOf);
    assert Map(entries, CodeOf) == active;
  }

  /** The listing is in non-decreasing order of name. */
  lemma JurisdictionsSorted(active: seq<string>, nations: Nations)
    ensures var r := Jurisdictions(active, nations);
      forall i, j :: 0 <= i < j < |r| ==> StrLessEq(r[i].name, r[j].name)
  {
    var entries := Map(active, EntryFor(CodeToName(nations)));
    var r := Jurisdictions(active, nations);
    ByNameIsTotalPreorder();
    SortBySorted(entries, ByName());
    forall i, j | 0 <= i < j < |r| ensures StrLessEq(r[i].name, r[j].name) {
      assert ByName()(r[i], r[j]);
    }
  }

  /** Each entry is named after the last nation with its code, or
      "Unknown (code)" when no nation has it. */
  lemma JurisdictionsNamed(active: seq<string>, nations: Nations)
    ensures var r := Jurisdictions(active, nations);
      forall k :: 0 <= k < |r| ==>
        r[k].name == if r[k].code in CodeToName(nations) then CodeToName(nations)[r[k].code] else UnknownName(r[k].code)
  {
    var entries := Map(active, EntryFor(CodeToName(nations)));
    var r := Jurisdictions(active, nations);
    forall k | 0 <= k < |r|
      ensures r[k].name == if r[k].code in CodeToName(nations) then CodeToName(nations)[r[k].code] else UnknownName(r[k].code)
    {
      assert r[k] in multiset(entries);
      var j :| 0 <= j < |entries| && entries[j] == r[k];
    }
  }

  /** Entries with equal names keep the order the store reported their
      codes in. */
  lemma JurisdictionsStable(active: seq<string>, nations: Nations, v: Jurisdiction)
    ensures Filter(Jurisdictions(active, nations), EquivalentTo(ByName(), v))
         == Filter(Map(active, EntryFor(CodeToName(nations))), EquivalentTo(ByName(), v))
  {
    ByNameIsTotalPreorder();
    SortByStable(Map(active, EntryFor(CodeToName(nations))), ByName(), v);
  }

  // ---------------------------------------------------------------------
  // _contextualize_query and _route_query

  datatype Turn = Turn(role: string, text: string)

  /** `history[-4:]`. */
  function LastTurns(history: seq<Turn>): (r: seq<Turn>)
    ensures |r| == if |history| <= 4 then |history| else 4
    ensures r == history[|history| - |r|..]
  {
    PySlice(history, -4, |history|)
  }

  function TurnLine(t: Turn): string {
    t.role + ": " + t.text
  }

  /** `"\n".join(f"{role}: {txt}" for role, txt in history[-4:])`. */
  function HistoryString(history: seq<Turn>): string {
    Join("\n", Map(LastTurns(history), TurnLine))
  }

  /** The jurisdiction named in the contextualization prompt. */
  function ContextLabel(country: Option<string>, nations: Nations): string {
    if Given(country) then
      var names := CodeToName(nations);
      if country.value in names then names[country.value] else country.value + " National"
    else "International"
  }

  /** `_contextualize_query(history, query, country_code)`, where `rewrite`
      is the model's answer to the contextualization prompt for a history
      string, a query and a jurisdiction label. */
  function ContextualizeQuery(history: seq<Turn>, query: string, country: Option<string>, nations: Nations,
                              rewrite: (string, string, string) -> string): (r: string)
    ensures history == [] ==> r == query
    ensures history != [] ==> IsStripped(r)
  {
    if history == [] then query
    else
      var answer := rewrite(HistoryString(history), query, ContextLabel(country, nations));
      StripShape(answer);
      Strip(answer)
  }

  /** Two histories that agree on their last four turns give the same
      standalone query. */
  lemma ContextualizeUsesLastFourTurns(h1: seq<Turn>, h2: seq<Turn>, query: string, country: Option<string>,
                                       nations: Nations, rewrite: (string, string, string) -> string)
    requires h1 != [] && h2 != []
    requires |h1| >= 4 && |h2| >= 4 && h1[|h1| - 4..] == h2[|h2| - 4..]
    ensures ContextualizeQuery(h1, query, country, nations, rewrite) == ContextualizeQuery(h2, query, country, nations, rewrite)
  {
    assert LastTurns(h1) == LastTurns(h2);
  }

  /** `_route_query` as written: strip, lower-case, then remove both quote
      characters. */
  function RouteQueryAsWritten(answer: string): string {
    RemoveChar(RemoveChar(Lower(Strip(answer)), '\''), '"')
  }

  /** The routing normalisation with the strip applied after the quotes
      are removed, so that whitespace inside quotes is removed too. */
  function RouteQuery(answer: string): string {
    Strip(RouteQueryAsWritten(answer))
  }

  lemma InRemoveChar(s: string, c: char, x: char)
    requires x in RemoveChar(s, c)
    ensures x in s && x != c
  {
    assert multiset(RemoveChar(s, c))[x] == multiset(s)[x];
  }

  lemma InStrip(s: string, x: char)
    requires x in Strip(s)
    ensures x in s
  {
    var t := TrimStart(s);
    var k :| 0 <= k < |Strip(s)| && Strip(s)[k] == x;
    assert Strip(s)[k] == t[k];
    assert t[k] == s[|s| - |t| + k];
  }

  /** As written, the routed label is quote-free and has no upper-case
      ASCII letter; it need not be stripped. */
  lemma RouteQueryAsWrittenNormalised(answer: string)
    ensures var r := RouteQueryAsWritten(answer);
      && '\'' !in r && '"' !in r
      && forall k :: 0 <= k < |r| ==> !IsAsciiUpper(r[k])
  {
    var lowered := Lower(Strip(answer));
    var once := RemoveChar(lowered, '\'');
    var r := RemoveChar(once, '"');
    forall x | x in r ensures x != '\'' && x != '"' && !IsAsciiUpper(x) {
      InRemoveChar(once, '"', x);
      InRemoveChar(lowered, '\'', x);
    }
    forall k | 0 <= k < |r| ensures !IsAsciiUpper(r[k]) {
      assert r[k] in r;
    }
  }

  /** The routed label is stripped, quote-free and has no upper-case ASCII
      letter. */
  lemma RouteQueryNormalised(answer: string)
    ensures var r := RouteQuery(answer);
      && IsStripped(r) && '\'' !in r && '"' !in r
      && forall k :: 0 <= k < |r| ==> !IsAsciiUpper(r[k])
  {
    var w := RouteQueryAsWritten(answer);
    var r := Strip(w);
    StripShape(w);
    RouteQueryAsWrittenNormalised(answer);
    forall x | x in r ensures x != '\'' && x != '"' && !IsAsciiUpper(x) {
      InStrip(w, x);
      var k :| 0 <= k < |w| && w[k] == x;
    }
    forall k | 0 <= k < |r| ensures !IsAsciiUpper(r[k]) {
      assert r[k] in r;
    }
  }

  lemma QuotedAnswerUnchangedByStripAndLower()
    ensures Lower(Strip("' indoor'")) == "' indoor'"
  {
    var s := "' indoor'";
    StrippedIsFixed(s);
    assert Lower(s) == s;
  }

  lemma QuotesRemoved()
    ensures RemoveChar(RemoveChar("' indoor'", '\''), '"') == " indoor"
  {
    var u := " indoor";
    assert '\'' !in u && '"' !in u;
    assert ['\''] + u + ['\''] == "' indoor'";
    RemoveEnclosing('\'', u);
  }

  lemma RemoveEnclosing(c: char, u: string)
    requires c !in u
    ensures RemoveChar([c] + u + [c], c) == u
  {
    RemoveCharConcat([c] + u, [c], c);
    RemoveCharConcat([c], u, c);
    assert RemoveChar([c], c) == [];
  }

  /** As written, an answer whose quotes enclose a space keeps it: "' indoor'"
      becomes " indoor", which is not a variant, and the query falls back
      to outdoor rules. */
  lemma RouteQueryQuotedSpace()
    ensures RouteQueryAsWritten("' indoor'") == " indoor"
    ensures !IsStripped(RouteQueryAsWritten("' indoor'"))
    ensures ResolveVariant(RouteQueryAsWritten("' indoor'")) == DefaultVariant
  {
    QuotedAnswerUnchangedByStripAndLower();
    QuotesRemoved();
    LeadingSpaceLabel();
  }

  lemma LeadingSpaceLabel()
    ensures !IsStripped(" indoor")
    ensures " indoor" !in Variants
  {
    assert IsSpace(" indoor"[0]);
    assert " indoor"[0] != Variants[0][0] && " indoor"[0] != Variants[1][0] && " indoor"[0] != Variants[2][0];
  }

  /** With the strip after the quote removal the same answer routes to
      "indoor". */
  lemma RouteQueryQuotedSpaceCorrected()
    ensures RouteQuery("' indoor'") == "indoor"
    ensures ResolveVariant(RouteQuery("' indoor'")) == "indoor"
  {
    RouteQueryQuotedSpace();
    StripLeadingSpace();
    assert Variants[1] == "indoor";
  }

  lemma StripLeadingSpace()
    ensures Strip(" indoor") == "indoor"
  {
    var u := "indoor";
    assert !IsSpace(u[0]) && !IsSpace(u[|u| - 1]);
    assert [' '] + u == " indoor";
    StripOneLeadingSpace(' ', u);
  }

  lemma StripOneLeadingSpace(c: char, u: string)
    requires IsSpace(c) && u != [] && !IsSpace(u[0]) && !IsSpace(u[|u| - 1])
    ensures Strip([c] + u) == u
  {
    TrimStartIs([c] + u, 1);
    assert ([c] + u)[1..] == u;
    StrippedIsFixed(u);
    TrimStartIs(u, 0);
    assert u[0..] == u;
  }

  /** `detected_variant if detected_variant in VARIANTS else "outdoor"`. */
  function ResolveVariant(detected: string): (r: string)
    ensures r in Variants
    ensures detected in Variants ==> r == detected
    ensures detected !in Variants ==> r == DefaultVariant
  {
    if detected in Variants then detected else DefaultVariant
  }

  // ---------------------------------------------------------------------
  // The "[VARIANT: ...]" tag

  const VariantTag: string := "[VARIANT:"

  /** Where the lazy `.*?\]` of the tag pattern stops: the first `]` at or
      after `i`, provided no line break comes before it (`.` does not match
      a line break). */
  function TagClose(q: string, i: nat): (r: Option<nat>)
    requires i <= |q|
    ensures r.Some? ==> i <= r.value < |q| && q[r.value] == ']'
    ensures r.Some? ==> forall k :: i <= k < r.value ==> q[k] != ']' && q[k] != '\n'
    ensures r.None? ==> forall k :: i <= k < |q| && q[k] == ']' ==> exists m :: i <= m < k && q[m] == '\n'
    decreases |q| - i
  {
    if i == |q| then None
    else if q[i] == ']' then Some(i)
    else if q[i] == '\n' then None
    else TagClose(q, i + 1)
  }

  /** `re.sub(r"^\[VARIANT:.*?\]\s*", "", q, flags=re.IGNORECASE)`: the tag
      at the very start, and the whitespace after it, removed once. */
  function StripVariantTag(q: string): (r: string)
    ensures |r| <= |q| && r == q[|q| - |r|..]
    ensures !StartsWithIgnoringCase(q, VariantTag) ==> r == q
    ensures r != q ==> r == [] || !IsSpace(r[0])
  {
    if StartsWithIgnoringCase(q, VariantTag) then
      match TagClose(q, |VariantTag|)
      case None => q
      case Some(j) => TrimStart(q[j + 1..])
    else q
  }

  /** A matched tag is removed up to its first `]`, with every whitespace
      character after it, line breaks included. */
  lemma StripVariantTagMatched(q: string)
    requires StartsWithIgnoringCase(q, VariantTag) && TagClose(q, |VariantTag|).Some?
    ensures var j := TagClose(q, |VariantTag|).value;
      var r := StripVariantTag(q);
      && q[..|VariantTag|] != [] && q[j] == ']'
      && r == q[|q| - |r|..] && |q| - |r| > j
      && (forall k :: j < k < |q| - |r| ==> IsSpace(q[k]))
      && (r == [] || !IsSpace(r[0]))
  {
  }

  /** The close search passes over characters that are neither `]` nor a
      line break. */
  lemma {:induction false} TagCloseSkips(q: string, i: nat, j: nat)
    requires i <= j <= |q|
    requires forall k :: i <= k < j ==> q[k] != ']' && q[k] != '\n'
    ensures TagClose(q, i) == TagClose(q, j)
    decreases j - i
  {
    if i < j {
      TagCloseSkips(q, i + 1, j);
    }
  }

  lemma TagPrefix(head: string, rest: string)
    requires |head| == |VariantTag| && StartsWithIgnoringCase(head, VariantTag)
    ensures StartsWithIgnoringCase(head + rest, VariantTag)
  {
    forall k | 0 <= k < |VariantTag| ensures SameLetterIgnoringCase((head + rest)[k], VariantTag[k]) {
      assert (head + rest)[k] == head[k];
    }
  }

  /** A tag closed on its own line is removed with the whitespace after it. */
  lemma {:induction false} TagRemoved(head: string, inner: string, rest: string)
    requires |head| == |VariantTag| && StartsWithIgnoringCase(head, VariantTag)
    requires ']' !in inner && '\n' !in inner
    ensures StripVariantTag(head + inner + "]" + rest) == TrimStart(rest)
  {
    var q := head + inner + "]" + rest;
    assert q == head + (inner + "]" + rest);
    TagPrefix(head, inner + "]" + rest);
    var j := |head| + |inner|;
    forall k | |head| <= k < j ensures q[k] != ']' && q[k] != '\n' {
      assert q[k] == inner[k - |head|];
    }
    TagCloseSkips(q, |head|, j);
    assert q[j] == ']';
    assert q[j + 1..] == rest;
  }

  /** A tag whose line ends before any `]` is left in place. */
  lemma {:induction false} TagUnclosed(head: string, inner: string, rest: string)
    requires |head| == |VariantTag| && StartsWithIgnoringCase(head, VariantTag)
    requires ']' !in inner && '\n' !in inner
    ensures StripVariantTag(head + inner + "\n" + rest) == head + inner + "\n" + rest
  {
    var q := head + inner + "\n" + rest;
    assert q == head + (inner + "\n" + rest);
    TagPrefix(head, inner + "\n" + rest);
    var j := |head| + |inner|;
    forall k | |head| <= k < j ensures q[k] != ']' && q[k] != '\n' {
      assert q[k] == inner[k - |head|];
    }
    TagCloseSkips(q, |head|, j);
    assert q[j] == '\n';
  }

  /** A tag without a closing bracket on its line is left alone. */
  lemma StripVariantTagUnclosed()
    ensures StripVariantTag("[VARIANT: indoor\n] Rule") == "[VARIANT: indoor\n] Rule"
  {
    var inner := " indoor";
    assert ']' !in inner && '\n' !in inner;
    assert StartsWithIgnoringCase(VariantTag, VariantTag);
    assert VariantTag + inner + "\n" + "] Rule" == "[VARIANT: indoor\n] Rule";
    TagUnclosed(VariantTag, inner, "] Rule");
  }

  lemma LowerTagMatches()
    ensures StartsWithIgnoringCase("[variant:", VariantTag)
  {
    var h := "[variant:";
    assert LowerChar('V') == 'v' && LowerChar('A') == 'a' && LowerChar('R') == 'r';
    assert LowerChar('I') == 'i' && LowerChar('N') == 'n' && LowerChar('T') == 't';
    assert forall k :: 0 <= k < |VariantTag| ==> SameLetterIgnoringCase(h[k], VariantTag[k]);
  }

  /** The tag is matched ignoring case and the whitespace after it includes
      line breaks. */
  lemma StripVariantTagExample()
    ensures StripVariantTag("[variant: indoor]\n Penalty?") == "Penalty?"
  {
    var inner := " indoor";
    var rest := "\n Penalty?";
    assert ']' !in inner && '\n' !in inner;
    LowerTagMatches();
    assert "[variant:" + inner + "]" + rest == "[variant: indoor]\n Penalty?";
    TagRemoved("[variant:", inner, rest);
    TrimBreakAndSpace();
  }

  lemma TrimBreakAndSpace()
    ensures TrimStart("\n Penalty?") == "Penalty?"
  {
    var u := "Penalty?";
    assert !IsSpace(u[0]);
    assert ['\n', ' '] + u == "\n Penalty?";
    TrimTwoSpaces('\n', ' ', u);
  }

  lemma TrimTwoSpaces(a: char, b: char, u: string)
    requires IsSpace(a) && IsSpace(b) && u != [] && !IsSpace(u[0])
    ensures TrimStart([a, b] + u) == u
  {
    var s := [a, b] + u;
    TrimStartIs(s, 2);
    assert s[2..] == u;
  }

  // ---------------------------------------------------------------------
  // _rerank_documents

  /** `docs[idx]` with a Python index: negative ones count from the end. */
  function PyIndex(n: nat, idx: int): Option<nat> {
    if 0 <= idx < n then Some(idx)
    else if -(n as int) <= idx < 0 then Some((n as int + idx) as nat)
    else None
  }

  predicate AllIndexable(n: nat, ids: seq<int>) {
    forall k :: 0 <= k < |ids| ==> PyIndex(n, ids[k]).Some?
  }

  function PickAll(docs: seq<Doc>, ids: seq<int>): (r: seq<Doc>)
    requires AllIndexable(|docs|, ids)
    ensures |r| == |ids|
    ensures forall k :: 0 <= k < |ids| ==> r[k] == docs[PyIndex(|docs|, ids[k]).value]
  {
    seq(|ids|, k requires 0 <= k < |ids| => docs[PyIndex(|docs|, ids[k]).value])
  }

  /** The documents in the order of the ranking service's record ids, or
      the input unchanged when the service raised or returned an id that is
      not an index. */
  function Reranked(docs: seq<Doc>, response: Option<seq<int>>): seq<Doc> {
    if response.Some? && AllIndexable(|docs|, response.value) then PickAll(docs, response.value)
    else docs
  }

  /** `_rerank_documents(query, docs)`, given the record ids of the ranking
      response, `None` when the call raised. */
  method RerankDocuments(docs: seq<Doc>, response: Option<seq<int>>) returns (r: seq<Doc>)
    ensures r == Reranked(docs, response)
  {
    if response.None? {
      return docs;
    }
    var ids := response.value;
    var newDocs: seq<Doc> := [];
    var i := 0;
    while i < |ids|
      invariant 0 <= i <= |ids|
      invariant AllIndexable(|docs|, ids[..i])
      invariant newDocs == PickAll(docs, ids[..i])
    {
      var idx := PyIndex(|docs|, ids[i]);
      if idx.None? {
        assert !AllIndexable(|docs|, ids);
        return docs;
      }
      assert ids[..i + 1][..i] == ids[..i];
      newDocs := newDocs + [docs[idx.value]];
      i := i + 1;
    }
    assert ids[..i] == ids;
    return newDocs;
  }

  /** Reranking only reorders and selects: every output document is an
      input document, and the response's ids decide the order; a failed
      call returns the input. */
  lemma RerankedFromInput(docs: seq<Doc>, response: Option<seq<int>>)
    ensures forall k :: 0 <= k < |Reranked(docs, response)| ==> Reranked(docs, response)[k] in docs
    ensures response.None? ==> Reranked(docs, response) == docs
    ensures response.Some? && AllIndexable(|docs|, response.value) ==>
      |Reranked(docs, response)| == |response.value|
  {
  }

  /** The record ids the ranking service is given: "0" to "n-1". */
  function RecordIds(n: nat): (r: seq<int>)
    ensures |r| == n && forall k :: 0 <= k < n ==> r[k] == k
  {
    seq(n, k => k)
  }

  function PickOr(docs: seq<Doc>): int -> Doc {
    (i: int) => if 0 <= i < |docs| then docs[i] else Doc([], map[])
  }

  /** When the response lists every record once, reranking is a
      permutation of the input. */
  lemma RerankedPermutation(docs: seq<Doc>, ids: seq<int>)
    requires multiset(ids) == multiset(RecordIds(|docs|))
    ensures multiset(Reranked(docs, Some(ids))) == multiset(docs)
  {
    forall k | 0 <= k < |ids| ensures 0 <= ids[k] < |docs| {
      assert ids[k] in multiset(RecordIds(|docs|));
    }
    var r := Reranked(docs, Some(ids));
    assert r == Map(ids, PickOr(docs));
    MapPermutation(ids, RecordIds(|docs|), PickOr(docs));
    assert Map(RecordIds(|docs|), PickOr(docs)) == docs;
  }

  // ---------------------------------------------------------------------
  // The citation header of `query`

  /** `str()` of a metadata value inside an f-string. */
  function Format(v: Value): string {
    match v
    case Null => "None"
    case Bool(b) => if b then "True" else "False"
    case Num(n) => IntToString(n)
    case Str(s) => s
  }

  /** `meta.get(key, default)`. */
  function GetOr(meta: Meta, key: string, default: Value): Value {
    if key in meta then meta[key] else default
  }

  const LocalPrefix: string := "[SOURCE: LOCAL ("
  const OfficialTag: string := "[SOURCE: OFFICIAL]"

  /** The origin tag: local with the country when the document has one,
      official otherwise. */
  function Origin(country: Value): string {
    if Truthy(country) then LocalPrefix + Format(country) + ")]" else OfficialTag
  }

  /** The file and page part of a citation, with their defaults. */
  function FileTag(meta: Meta): string {
    " [File: " + Format(GetOr(meta, "source_file", Str("unknown"))) + " p." + Format(GetOr(meta, "page", Str("?"))) + "]"
  }

  /** The rule part, present when the document has a rule. */
  function RuleTag(meta: Meta): string {
    var rule := GetOr(meta, "rule", Str(""));
    if Truthy(rule) then " [Rule: " + Format(rule) + "]" else ""
  }

  /** The chapter part, present when the document has a chapter or a
      section. */
  function ChapterTag(meta: Meta): string {
    var chapter := GetOr(meta, "chapter", Str(""));
    var section := GetOr(meta, "section", Str(""));
    if Truthy(chapter) || Truthy(section) then " [Chapter: " + Format(chapter) + " > " + Format(section) + "]" else ""
  }

  /** The citation line of one document: the origin tag, the file and page,
      the rule when there is one, and chapter and section when either is
      set. */
  function CitationHeader(meta: Meta): string {
    Origin(Get(meta, "country")) + FileTag(meta) + RuleTag(meta) + ChapterTag(meta)
  }

  /** The header opens with the local tag exactly when the document has a
      country, and with the official tag exactly when it has none. */
  lemma CitationOrigin(meta: Meta)
    ensures StartsWith(CitationHeader(meta), LocalPrefix) <==> Truthy(Get(meta, "country"))
    ensures StartsWith(CitationHeader(meta), OfficialTag) <==> !Truthy(Get(meta, "country"))
  {
    var h := CitationHeader(meta);
    var country := Get(meta, "country");
    var o := Origin(country);
    ConcatStartsWith(o, FileTag(meta));
    ConcatStartsWith(o + FileTag(meta), RuleTag(meta));
    ConcatStartsWith(o + FileTag(meta) + RuleTag(meta), ChapterTag(meta));
    StartsWithTransitive(o + FileTag(meta) + RuleTag(meta), o + FileTag(meta), o);
    StartsWithTransitive(h, o + FileTag(meta) + RuleTag(meta), o);
    if Truthy(country) {
      assert StartsWith(LocalPrefix, LocalPrefix);
      StartsWithExtended(LocalPrefix, LocalPrefix, Format(country));
      StartsWithExtended(LocalPrefix + Format(country), LocalPrefix, ")]");
      StartsWithTransitive(h, o, LocalPrefix);
      if StartsWith(h, OfficialTag) {
        PrefixesAgree(h, LocalPrefix, OfficialTag, 9);
        assert false;
      }
    } else {
      assert StartsWith(o, OfficialTag);
      if StartsWith(h, LocalPrefix) {
        PrefixesAgree(h, LocalPrefix, OfficialTag, 9);
        assert false;
      }
    }
  }

  /** The header is the origin tag, then the file and page (with their
      defaults), then the rule tag exactly when the document has a rule,
      and it ends with the chapter tag when it has a chapter or a section.
      Nothing else is in it. */
  lemma HeaderOpensWithOrigin(meta: Meta)
    ensures var h := CitationHeader(meta);
      var o := Origin(Get(meta, "country"));
      var base := o + FileTag(meta);
      var rule := GetOr(meta, "rule", Str(""));
      var chapter := GetOr(meta, "chapter", Str(""));
      var section := GetOr(meta, "section", Str(""));
      && StartsWith(h, o)
      && StartsWith(h, base)
      && (StartsWith(h[|base|..], " [Rule: ") <==> Truthy(rule))
      && (Truthy(rule) ==> StartsWith(h, base + (" [Rule: " + Format(rule) + "]")))
      && (Truthy(chapter) || Truthy(section) ==> EndsWith(h, " [Chapter: " + Format(chapter) + " > " + Format(section) + "]"))
      && |h| == |base| + (if Truthy(rule) then |Format(rule)| + 9 else 0)
                       + (if Truthy(chapter) || Truthy(section) then |Format(chapter)| + |Format(section)| + 15 else 0)
  {
    var rule := GetOr(meta, "rule", Str(""));
    var chapter := GetOr(meta, "chapter", Str(""));
    var section := GetOr(meta, "section", Str(""));
    assert CitationHeader(meta) == Origin(Get(meta, "country")) + FileTag(meta) + RuleTag(meta) + ChapterTag(meta);
    HeaderLayout(Origin(Get(meta, "country")), FileTag(meta), RuleTag(meta), ChapterTag(meta), Truthy(rule), Format(rule),
                 Truthy(chapter) || Truthy(section), Format(chapter), Format(section));
  }

  /** The layout of a header assembled from its parts. */
  lemma HeaderLayout(o: string, rest: string, rp: string, cp: string,
                     hasRule: bool, rule: string, hasChapter: bool, chapter: string, section: string)
    requires rp == if hasRule then " [Rule: " + rule + "]" else ""
    requires cp == if hasChapter then " [Chapter: " + chapter + " > " + section + "]" else ""
    ensures var base := o + rest;
      var h := base + rp + cp;
      && StartsWith(h, o) && StartsWith(h, base)
      && (StartsWith(h[|base|..], " [Rule: ") <==> hasRule)
      && (hasRule ==> StartsWith(h, base + rp))
      && (hasChapter ==> EndsWith(h, cp))
      && |h| == |base| + (if hasRule then |rule| + 9 else 0) + (if hasChapter then |chapter| + |section| + 15 else 0)
  {
    var base := o + rest;
    var h := base + rp + cp;
    ConcatStartsWith(base + rp, cp);
    ConcatStartsWith(base, rp);
    StartsWithTransitive(h, base + rp, base);
    ConcatStartsWith(o, rest);
    StartsWithTransitive(h, base, o);
    assert h[|base|..] == rp + cp;
    RuleTagIff(hasRule, rule, hasChapter, chapter, section);
    if hasChapter {
      assert h[|h| - |cp|..] == cp;
    }
  }

  /** What follows file and page starts with the rule tag exactly when there
      is a rule. */
  lemma RuleTagIff(hasRule: bool, rule: string, hasChapter: bool, chapter: string, section: string)
    ensures var rp := if hasRule then " [Rule: " + rule + "]" else "";
      var cp := if hasChapter then " [Chapter: " + chapter + " > " + section + "]" else "";
      StartsWith(rp + cp, " [Rule: ") <==> hasRule
  {
    var rp := if hasRule then " [Rule: " + rule + "]" else "";
    var cp := if hasChapter then " [Chapter: " + chapter + " > " + section + "]" else "";
    if hasRule {
      assert (rp + cp)[..8] == " [Rule: ";
    } else if hasChapter {
      assert rp + cp == cp;
      assert cp[2] == 'C';
    }
  }

  /** The metadata a chunk of the layout chunker is stored with, after
      ingestion tagged it as official. */
  function ChunkMeta(m: Chunker.Metadata): Meta {
    map["source" := Str(m.source), "rule" := Str(m.rule), "variant" := Str(m.variant),
        "chapter" := Str(m.chapter), "section" := Str(m.section), "page" := Num(m.page),
        "content_type" := Str(m.contentType), TypeKey := Str("official")]
  }

  /** A chunk of the official rulebook is cited with its page, rule,
      chapter and section, and without a file name. */
  lemma ChunkCitation(m: Chunker.Metadata)
    requires m.rule != [] && m.chapter != []
    ensures CitationHeader(ChunkMeta(m))
         == OfficialTag + (" [File: " + "unknown" + " p." + IntToString(m.page) + "]")
            + (" [Rule: " + m.rule + "]") + (" [Chapter: " + m.chapter + " > " + m.section + "]")
  {
    var meta := ChunkMeta(m);
    assert "country" !in meta && "source_file" !in meta;
    assert "rule" in meta && "chapter" in meta && "section" in meta && "page" in meta;
  }

  function Snippet(d: Doc): string {
    "---Snippet Start---\n" + CitationHeader(d.metadata) + "\n" + d.content + "\n---Snippet End---"
  }

  /** The loop of `query` that builds one snippet per document. */
  method ContextPieces(docs: seq<Doc>) returns (pieces: seq<string>)
    ensures pieces == Map(docs, Snippet)
  {
    pieces := [];
    for i := 0 to |docs|
      invariant pieces == Map(docs[..i], Snippet)
    {
      var meta := docs[i].metadata;
      var rule := GetOr(meta, "rule", Str(""));
      var chapter := GetOr(meta, "chapter", Str(""));
      var section := GetOr(meta, "section", Str(""));
      var sourceFile := GetOr(meta, "source_file", Str("unknown"));
      var country := Get(meta, "country");
      var originTag;
      if Truthy(country) {
        originTag := LocalPrefix + Format(country) + ")]";
      } else {
        originTag := OfficialTag;
      }
      var pageNum := GetOr(meta, "page", Str("?"));
      var contextString := originTag + (" [File: " + Format(sourceFile) + " p." + Format(pageNum) + "]");
      if Truthy(rule) {
        contextString := contextString + (" [Rule: " + Format(rule) + "]");
      }
      if Truthy(chapter) || Truthy(section) {
        contextString := contextString + (" [Chapter: " + Format(chapter) + " > " + Format(section) + "]");
      }
      assert contextString == CitationHeader(meta);
      pieces := pieces + ["---Snippet Start---\n" + contextString + "\n" + docs[i].content + "\n---Snippet End---"];
      assert docs[..i + 1] == docs[..i] + [docs[i]];
    }
    assert docs[..|docs|] == docs;
  }

  // ---------------------------------------------------------------------
  // query

  /** The collaborators of `query`, as the answers they give. */
  datatype Services = Services(
    /** The contextualization model: history string, query, label. */
    rewrite: (string, string, string) -> string,
    /** The routing model's raw answer for a standalone query. */
    route: string -> string,
    /** `search_hybrid(clean_query, embed(clean_query), variant, country_code=…, k=RETRIEVAL_K)`. */
    retrieve: (string, string, Option<string>) -> seq<Hit>,
    /** The ranking service's record ids for a query and documents; `None` when it raises. */
    rank: (string, seq<Doc>) -> Option<seq<int>>,
    /** The answer model: variant, jurisdiction label, country, context, standalone query. */
    answer: (string, string, Option<string>, string, string) -> string,
    /** The reformatting model: first answer, context. */
    reformat: (string, string) -> string)

  /** What `query` returns; `originalAnswer` is absent from the no-answer
      response. */
  datatype Response = Response(answer: string, originalAnswer: Option<string>, standaloneQuery: string,
                               variant: string, sourceDocs: seq<Doc>)

  function DocOf(h: Hit): Doc { Doc(h.content, h.metadata) }

  /** Global results, then local results when a country is given; no
      deduplication. */
  function Retrieved(s: Services, clean: string, variant: string, country: Option<string>): seq<Doc> {
    var global := s.retrieve(clean, variant, None);
    var local := if Given(country) then s.retrieve(clean, variant, country) else [];
    Map(global + local, DocOf)
  }

  /** Reranked and cut to `RANKING_TOP_N`; an empty retrieval skips the
      reranker. */
  function Selected(s: Services, clean: string, docs: seq<Doc>): seq<Doc> {
    if docs == [] then [] else Limit(Reranked(docs, s.rank(clean, docs)), RankingTopN)
  }

  function NoAnswerText(variant: string): string {
    "I checked the **" + variant + "** rules but couldn't find an answer."
  }

  function JurisdictionLabel(country: Option<string>): string {
    if Given(country) then country.value + " National" else "International"
  }

  /** `query(user_input, history, country_code)`, with the router's answer
      normalised by `normalise`: `RouteQueryAsWritten` is the program, and
      `RouteQuery` the corrected order of its steps. */
  function QueryResult(s: Services, userInput: string, history: seq<Turn>, country: Option<string>, nations: Nations,
                       normalise: string -> string)
    : Response
  {
    var standalone := ContextualizeQuery(history, userInput, country, nations, s.rewrite);
    var variant := ResolveVariant(normalise(s.route(standalone)));
    var clean := StripVariantTag(standalone);
    var docs := Selected(s, clean, Retrieved(s, clean, variant, country));
    var contextText := Join("\n\n", Map(docs, Snippet));
    if contextText == [] then Response(NoAnswerText(variant), None, standalone, variant, [])
    else
      var first := s.answer(variant, JurisdictionLabel(country), country, contextText, standalone);
      Response(s.reformat(first, contextText), Some(first), standalone, variant, docs)
  }

  method Query(s: Services, userInput: string, history: seq<Turn>, country: Option<string>, nations: Nations)
    returns (r: Response)
    ensures r == QueryResult(s, userInput, history, country, nations, RouteQueryAsWritten)
  {
    var standalone := ContextualizeQuery(history, userInput, country, nations, s.rewrite);
    var detected := RouteQueryAsWritten(s.route(standalone));
    if detected !in Variants {
      detected := DefaultVariant;
    }
    var clean := StripVariantTag(standalone);
    var resultsGlobal := s.retrieve(clean, detected, None);
    var resultsLocal: seq<Hit> := [];
    if Given(country) {
      resultsLocal := s.retrieve(clean, detected, country);
    }
    var docs := Map(resultsGlobal + resultsLocal, DocOf);
    if docs != [] {
      docs := RerankDocuments(docs, s.rank(clean, docs));
      docs := Limit(docs, RankingTopN);
    }
    var pieces := ContextPieces(docs);
    var contextText := Join("\n\n", pieces);
    if contextText == [] {
      return Response(NoAnswerText(detected), None, standalone, detected, []);
    }
    var answer := s.answer(detected, JurisdictionLabel(country), country, contextText, standalone);
    var finalAnswer := s.reformat(answer, contextText);
    return Response(finalAnswer, Some(answer), standalone, detected, docs);
  }

  /** Whichever normalisation is used, the answer is always for an allowed
      variant, the one routed when the router names one. */
  lemma QueryVariant(s: Services, userInput: string, history: seq<Turn>, country: Option<string>, nations: Nations,
                     normalise: string -> string)
    ensures var r := QueryResult(s, userInput, history, country, nations, normalise);
      && r.standaloneQuery == ContextualizeQuery(history, userInput, country, nations, s.rewrite)
      && r.variant in Variants
      && (normalise(s.route(r.standaloneQuery)) in Variants ==> r.variant == normalise(s.route(r.standaloneQuery)))
      && (normalise(s.route(r.standaloneQuery)) !in Variants ==> r.variant == DefaultVariant)
  {
  }

  /** When the router answers "' indoor'", the program answers from the
      outdoor rules; the corrected normalisation answers from the indoor
      rules. */
  lemma QueryQuotedSpace(s: Services, userInput: string, history: seq<Turn>, country: Option<string>, nations: Nations)
    requires s.route(ContextualizeQuery(history, userInput, country, nations, s.rewrite)) == "' indoor'"
    ensures QueryResult(s, userInput, history, country, nations, RouteQueryAsWritten).variant == DefaultVariant
    ensures QueryResult(s, userInput, history, country, nations, RouteQuery).variant == "indoor"
  {
    RouteQueryQuotedSpace();
    RouteQueryQuotedSpaceCorrected();
    QueryVariant(s, userInput, history, country, nations, RouteQueryAsWritten);
    QueryVariant(s, userInput, history, country, nations, RouteQuery);
  }

  /** The retrieved list is the global results followed by the local ones,
      which are fetched only for a given country. */
  lemma DualPath(s: Services, clean: string, variant: string, country: Option<string>)
    ensures var global := Map(s.retrieve(clean, variant, None), DocOf);
      var docs := Retrieved(s, clean, variant, country);
      && docs[..|global|] == global
      && (!Given(country) ==> docs == global)
      && (Given(country) ==> docs[|global|..] == Map(s.retrieve(clean, variant, country), DocOf))
  {
    var g := s.retrieve(clean, variant, None);
    var l := if Given(country) then s.retrieve(clean, variant, country) else [];
    MapConcat(g, l, DocOf);
  }

  /** At most `RANKING_TOP_N` documents are selected, each one of the
      retrieved documents; when the reranker fails they are the first
      retrieved ones. */
  lemma SelectedFromRetrieved(s: Services, clean: string, docs: seq<Doc>)
    ensures var sel := Selected(s, clean, docs);
      && |sel| <= RankingTopN
      && (forall k :: 0 <= k < |sel| ==> sel[k] in docs)
      && (docs != [] && s.rank(clean, docs).None? ==> sel == Limit(docs, RankingTopN))
  {
    if docs != [] {
      RerankedFromInput(docs, s.rank(clean, docs));
    }
  }

  /** The joined context is empty exactly when no document is selected. */
  lemma ContextEmptyIff(docs: seq<Doc>)
    ensures Join("\n\n", Map(docs, Snippet)) == [] <==> docs == []
  {
    var pieces := Map(docs, Snippet);
    if Join("\n\n", pieces) == [] {
      JoinEmpty("\n\n", pieces);
    }
  }

  /** The sources of an answer are the selected documents; the no-answer
      response, given exactly when nothing is selected, has none. */
  lemma QuerySources(s: Services, userInput: string, history: seq<Turn>, country: Option<string>, nations: Nations,
                     normalise: string -> string)
    ensures var r := QueryResult(s, userInput, history, country, nations, normalise);
      var clean := StripVariantTag(r.standaloneQuery);
      var sel := Selected(s, clean, Retrieved(s, clean, r.variant, country));
      && (r.originalAnswer.None? <==> sel == [])
      && (r.originalAnswer.None? ==> r.sourceDocs == [] && r.answer == NoAnswerText(r.variant))
      && (r.originalAnswer.Some? ==> r.sourceDocs == sel)
  {
    var r := QueryResult(s, userInput, history, country, nations, normalise);
    var clean := StripVariantTag(r.standaloneQuery);
    ContextEmptyIff(Selected(s, clean, Retrieved(s, clean, r.variant, country)));
  }
}

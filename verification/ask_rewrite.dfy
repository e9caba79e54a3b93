/** The outbound "ask" rewrite (`alterQueries`) and the one-shot override
    (`alterNextQuery`) of `WebpageMessageInterceptors.ts`.

    Everything the source reads from outside the message (user settings, the
    query-box stores, the query cache) arrives as an `AskContext`. */
module AskRewrite {
  import opened Base
  import opened JsValue
  import opened Wire
  import opened Lists

  /** `generalSettings.queryBoxSelectors` of the user settings. */
  datatype Selectors = Selectors(languageModel: bool, spaceNFocus: bool)

  /** The file-inclusion toggles of one query-box store. */
  datatype FileToggles = FileToggles(includeSpaceFiles: bool, includeOrgFiles: bool)

  /** A cached thread message; `collectionUuid` is the uuid of its
      `collection_info`, absent when that field is falsy. */
  datatype ThreadMessage = ThreadMessage(collectionUuid: Option<string>)

  datatype AskContext = AskContext(
    selectors: Selectors,
    selectedSpaceUuid: Option<string>,      // query-box store
    selectedLanguageModel: Value,           // query-box store
    focusMode: Value,                       // main query-box store
    mainToggles: FileToggles,               // main query-box store
    followUpToggles: FileToggles,           // follow-up query-box store
    spaceFileCounts: map<string, nat>,      // cached ["space-files", uuid] -> files.length
    threadInfo: Option<seq<ThreadMessage>>) // cached ["threadInfo", <thread id from the URL>]

  const AskEvent := "perplexity_ask"
  const Writing := Str("writing")
  const Internet := Str("internet")

  /** Query sources of a new question: the first switch group. */
  predicate IsHomeSource(qs: Value) {
    qs == Str("home") || qs == Str("modal") || qs == Str("collection")
  }

  /** Query sources inside an existing thread: the second switch group. */
  predicate IsFollowupSource(qs: Value) {
    qs == Str("followup") || qs == Str("edit") || qs == Str("retry")
  }

  /** `selectedSpaceUuid` is truthy. */
  predicate SpaceSelected(ctx: AskContext) {
    ctx.selectedSpaceUuid.Some? && ctx.selectedSpaceUuid.value != ""
  }

  /** The query cache holds a non-empty file list for the space `uuid`. */
  predicate HasCachedFiles(ctx: AskContext, uuid: string) {
    uuid in ctx.spaceFileCounts && ctx.spaceFileCounts[uuid] > 0
  }

  /** Indexing `currentThreadInfo[0]` does not throw. */
  predicate ThreadInfoReadable(ctx: AskContext) {
    ctx.threadInfo.Some? ==> |ctx.threadInfo.value| > 0
  }

  const OrgSource := Str("org")
  const SpaceSource := Str("space")
  const WebSource := Str("web")

  /** `new Set(v)` accepts `v`: it is `null`, `undefined`, an array or a
      string. A number, a boolean or a plain object is not iterable and
      throws. */
  predicate Iterable(v: Value) {
    Nullish(v) || v.Arr? || v.Str?
  }

  /** `push` can follow `v ??= []`: `v` is nullish or an array. */
  predicate Pushable(v: Value) {
    Nullish(v) || v.Arr?
  }

  /** The values `new Set(v)` inserts: an array's items, a string's
      characters one by one, nothing for `null` and `undefined`. */
  function Items(v: Value): seq<Value> {
    match v
    case Arr(items) => items
    case Str(s) => Chars(s)
    case _ => []
  }

  /** The `sources` field of the original payload, as a set built from it
      would see it. */
  function OriginalSources(ask: Value): seq<Value> {
    Items(Prop(ask, "sources"))
  }

  /** The rewritten `sources` value lists `x`. */
  predicate Listed(v: Value, x: Value) {
    v.Arr? && x in v.items
  }

  /** `filteredSources`: the deduplicated list, listed in order of first
      occurrence, or `null` when it is empty. */
  function FinalSources(s: seq<Value>): (v: Value)
    ensures v.Null? || (v.Arr? && |v.items| > 0)
    ensures forall x :: Listed(v, x) <==> x in s
    ensures v.Arr? ==> NoDuplicates(v.items) && forall i :: 0 <= i < |v.items| ==> v.items[i] in s
    ensures v.Arr? ==>
      forall i, j :: 0 <= i < j < |v.items| ==> FirstIndex(s, v.items[i]) < FirstIndex(s, v.items[j])
  {
    var f := Dedup(s);
    if |f| == 0 then Null else Arr(f)
  }

  /** The match condition reads properties of `data[1]` of every parsed ask
      without a check. The home rewrite builds a set from `sources` and
      pushes onto it when a file step fires; the followup rewrite reads the
      first cached thread message and builds a set from `sources` unless a
      file step replaced it. A caller must not hand it a message on which one
      of these throws. */
  predicate AskReadable(p: ParseResult, ctx: AskContext) {
    p.Parsed? && p.envelope.event == AskEvent ==>
      && HasAskPayload(p.envelope)
      && var ask := p.envelope.data.value[1];
         var qs := Prop(ask, "query_source");
         qs != Str("default_search") && Prop(ask, "ignore_interceptor") != Bool(true) ==>
           && (IsHomeSource(qs) ==> HomeSourcesReadable(ask, ctx))
           && (IsFollowupSource(qs) ==> ThreadInfoReadable(ctx) && FollowupSourcesReadable(ask, ctx))
  }

  /** `newModelPreference`: the selected model when the model selector is
      enabled and the query is not a retry, else the payload's own. */
  function ModelPreference(ask: Value, ctx: AskContext): Value {
    if ctx.selectors.languageModel && Prop(ask, "query_source") != Str("retry")
    then ctx.selectedLanguageModel
    else Prop(ask, "model_preference")
  }

  // ---------------------------------------------------------------------
  // The home/modal/collection branch

  /** The working focus and `newSources` while the rule runs. */
  datatype Draft = Draft(focus: Value, sources: Value)

  /** A collection query with a focus other than writing or internet is sent
      with the internet focus. */
  function CollectionFocus(qs: Value, focus: Value): Value {
    if qs == Str("collection") && focus != Writing && focus != Internet then Internet else focus
  }

  /** Including organisation files: append "org", drop every "space" listed so
      far, then append "web" unless the focus is writing, which becomes internet. */
  function OrgStep(included: bool, d: Draft): Draft
    requires included ==> Pushable(d.sources)
  {
    if !included then d
    else
      var s := Without(Items(d.sources) + [OrgSource], SpaceSource);
      if d.focus != Writing then Draft(d.focus, Arr(s + [WebSource]))
      else Draft(Internet, Arr(s))
  }

  /** Including the selected space's files: append "space", then "web" unless
      the focus is writing, in which case the focus becomes internet and every
      "web" is dropped. */
  function SpaceStep(fires: bool, d: Draft): Draft
    requires fires ==> Pushable(d.sources)
  {
    if !fires then d
    else
      var s := Items(d.sources) + [SpaceSource];
      if d.focus != Writing then Draft(d.focus, Arr(s + [WebSource]))
      else Draft(Internet, Arr(Without(s, WebSource)))
  }

  /** The space-files step runs only for a selected space whose cached file
      list is non-empty while space files are included. */
  predicate HomeSpaceFires(ctx: AskContext) {
    SpaceSelected(ctx) && ctx.mainToggles.includeSpaceFiles
    && HasCachedFiles(ctx, ctx.selectedSpaceUuid.value)
  }

  /** The home branch does not throw on `sources`: a file step that fires
      pushes onto it, so it must be nullish or an array then, and the set is
      built from it in any case. */
  predicate HomeSourcesReadable(ask: Value, ctx: AskContext) {
    var v := Prop(ask, "sources");
    Iterable(v) && (ctx.mainToggles.includeOrgFiles || HomeSpaceFires(ctx) ==> Pushable(v))
  }

  /** The focus the rule starts from: the query box's when the
      space-and-focus selector is enabled, else the payload's. */
  function InitialFocus(ask: Value, ctx: AskContext): Value {
    if ctx.selectors.spaceNFocus then ctx.focusMode else Prop(ask, "search_focus")
  }

  function HomeDraft(ask: Value, ctx: AskContext): Draft
    requires HomeSourcesReadable(ask, ctx)
  {
    var qs := Prop(ask, "query_source");
    var d0 := Draft(CollectionFocus(qs, InitialFocus(ask, ctx)), Prop(ask, "sources"));
    SpaceStep(HomeSpaceFires(ctx), OrgStep(ctx.mainToggles.includeOrgFiles, d0))
  }

  /** The rewritten `data[1]` of a home, modal or collection ask. */
  function RewriteHome(ask: Value, ctx: AskContext): (r: Value)
    requires ask.Obj? && HomeSourcesReadable(ask, ctx)
    requires IsHomeSource(Prop(ask, "query_source"))
    ensures r.Obj? && r.fields.Keys == ask.fields.Keys + HomeKeys
    ensures Prop(r, "model_preference")
            == (if ctx.selectors.languageModel then ctx.selectedLanguageModel else Prop(ask, "model_preference"))
    ensures Prop(r, "query_source")
            == (if SpaceSelected(ctx) then Str("collection") else Prop(ask, "query_source"))
    ensures Prop(r, "target_collection_uuid")
            == (if ctx.selectors.spaceNFocus && SpaceSelected(ctx) then Str(ctx.selectedSpaceUuid.value)
                else Prop(ask, "target_collection_uuid"))
    ensures forall k :: k !in HomeKeys ==> Prop(r, k) == Prop(ask, k)
  {
    var d := HomeDraft(ask, ctx);
    var selected := SpaceSelected(ctx);
    Obj(ask.fields["model_preference" := ModelPreference(ask, ctx)]
                  ["search_focus" := d.focus]
                  ["query_source" := if selected then Str("collection") else Prop(ask, "query_source")]
                  ["target_collection_uuid" := if ctx.selectors.spaceNFocus && selected
                                               then Str(ctx.selectedSpaceUuid.value)
                                               else Prop(ask, "target_collection_uuid")]
                  ["sources" := FinalSources(Items(d.sources))])
  }

  const HomeKeys: set<string> :=
    {"model_preference", "search_focus", "query_source", "target_collection_uuid", "sources"}

  // ---------------------------------------------------------------------
  // The followup/edit/retry branch

  /** The thread's space whose files are attached: the first cached thread
      message has collection info, the cache holds files for that space, and
      space files are included. */
  function ThreadSpace(ctx: AskContext): Option<string>
    requires ThreadInfoReadable(ctx)
  {
    if ctx.threadInfo.Some? && ctx.threadInfo.value[0].collectionUuid.Some?
       && HasCachedFiles(ctx, ctx.threadInfo.value[0].collectionUuid.value)
       && ctx.followUpToggles.includeSpaceFiles
    then ctx.threadInfo.value[0].collectionUuid
    else None
  }

  /** A followup file step that fires first replaces a `sources` that is not
      an array by `[]`. */
  function ArrayItems(v: Value): seq<Value> {
    if v.Arr? then v.items else []
  }

  /** `newSources` of a followup when the set is built from it. */
  function FollowupSources(ask: Value, ctx: AskContext): Value
    requires ThreadInfoReadable(ctx)
  {
    var s0 := Prop(ask, "sources");
    var s1 := if ctx.followUpToggles.includeOrgFiles then Arr(ArrayItems(s0) + [OrgSource]) else s0;
    if ThreadSpace(ctx).Some? then Arr(ArrayItems(s1) + [SpaceSource]) else s1
  }

  /** The followup branch does not throw on `sources`: when no file step
      fires, the set is built from the payload's own value. */
  predicate FollowupSourcesReadable(ask: Value, ctx: AskContext)
    requires ThreadInfoReadable(ctx)
  {
    ctx.followUpToggles.includeOrgFiles || ThreadSpace(ctx).Some? || Iterable(Prop(ask, "sources"))
  }

  /** `filteredSources` of a followup. */
  function FollowupFinalSources(ask: Value, ctx: AskContext): Value
    requires ThreadInfoReadable(ctx)
  {
    FinalSources(Items(FollowupSources(ask, ctx)))
  }

  /** `data[1]` of a followup with its four keys rewritten and `sources`
      set to the given list. */
  function FollowupPayload(ask: Value, ctx: AskContext, sources: Value): (r: Value)
    requires ask.Obj? && ThreadInfoReadable(ctx)
    ensures r.Obj? && r.fields.Keys == ask.fields.Keys + FollowupKeys
    ensures Prop(r, "model_preference")
            == (if ctx.selectors.languageModel && Prop(ask, "query_source") != Str("retry")
                then ctx.selectedLanguageModel else Prop(ask, "model_preference"))
    ensures Prop(r, "query_source")
            == (if ThreadSpace(ctx).Some? && Prop(ask, "query_source") == Str("retry") then Str("edit")
                else Prop(ask, "query_source"))
    ensures Prop(r, "target_collection_uuid")
            == (if ThreadSpace(ctx).Some? then Str(ThreadSpace(ctx).value) else Prop(ask, "target_collection_uuid"))
    ensures forall k :: k !in FollowupKeys ==> Prop(r, k) == Prop(ask, k)
    ensures Prop(r, "sources") == sources
  {
    var space := ThreadSpace(ctx);
    var qs := Prop(ask, "query_source");
    Obj(ask.fields["model_preference" := ModelPreference(ask, ctx)]
                  ["query_source" := if space.Some? && qs == Str("retry") then Str("edit") else qs]
                  ["target_collection_uuid" := if space.Some? then Str(space.value)
                                               else Prop(ask, "target_collection_uuid")]
                  ["sources" := sources])
  }

  /** The rewritten `data[1]` of a followup, edit or retry ask. */
  function RewriteFollowup(ask: Value, ctx: AskContext): (r: Value)
    requires ask.Obj? && ThreadInfoReadable(ctx) && FollowupSourcesReadable(ask, ctx)
    requires IsFollowupSource(Prop(ask, "query_source"))
    ensures r.Obj? && r.fields.Keys == ask.fields.Keys + FollowupKeys
    ensures Prop(r, "model_preference")
            == (if ctx.selectors.languageModel && Prop(ask, "query_source") != Str("retry")
                then ctx.selectedLanguageModel else Prop(ask, "model_preference"))
    ensures Prop(r, "query_source")
            == (if ThreadSpace(ctx).Some? && Prop(ask, "query_source") == Str("retry") then Str("edit")
                else Prop(ask, "query_source"))
    ensures Prop(r, "target_collection_uuid")
            == (if ThreadSpace(ctx).Some? then Str(ThreadSpace(ctx).value) else Prop(ask, "target_collection_uuid"))
    ensures forall k :: k !in FollowupKeys ==> Prop(r, k) == Prop(ask, k)
  {
    FollowupPayload(ask, ctx, FollowupFinalSources(ask, ctx))
  }

  /** What the org step does to the focus and to the set of listed sources. */
  lemma OrgStepEffect(d: Draft)
    requires Pushable(d.sources)
    ensures var d1 := OrgStep(true, d);
      && d1.focus == (if d.focus == Writing then Internet else d.focus)
      && forall x :: x in Items(d1.sources) <==>
           x == OrgSource || (x == WebSource && d.focus != Writing) || (x != SpaceSource && x in Items(d.sources))
  {
  }

  /** What the space-files step does to the focus and to the set of listed sources. */
  lemma SpaceStepEffect(d: Draft)
    requires Pushable(d.sources)
    ensures var d2 := SpaceStep(true, d);
      && d2.focus == (if d.focus == Writing then Internet else d.focus)
      && forall x :: x in Items(d2.sources) <==>
           if d.focus != Writing then x == SpaceSource || x == WebSource || x in Items(d.sources)
           else x != WebSource && (x == SpaceSource || x in Items(d.sources))
  {
  }

  /** The home draft lists `x` exactly when the combined rule says so. */
  lemma HomeDraftSources(ask: Value, ctx: AskContext, x: Value)
    requires HomeSourcesReadable(ask, ctx)
    ensures var orig := OriginalSources(ask);
      var org := ctx.mainToggles.includeOrgFiles;
      var sp := HomeSpaceFires(ctx);
      var f1 := CollectionFocus(Prop(ask, "query_source"), InitialFocus(ask, ctx));
      && HomeDraft(ask, ctx).focus == (if f1 == Writing && (org || sp) then Internet else f1)
      && (x in Items(HomeDraft(ask, ctx).sources) <==>
            if x == OrgSource then org || x in orig
            else if x == SpaceSource then sp || (!org && x in orig)
            else if x == WebSource then
              (if sp && f1 == Writing && !org then false
               else x in orig || (org && f1 != Writing) || (sp && (f1 != Writing || org)))
            else x in orig)
  {
    var org := ctx.mainToggles.includeOrgFiles;
    var sp := HomeSpaceFires(ctx);
    var f1 := CollectionFocus(Prop(ask, "query_source"), InitialFocus(ask, ctx));
    var d0 := Draft(f1, Prop(ask, "sources"));
    var d1 := OrgStep(org, d0);
    if org {
      OrgStepEffect(d0);
    }
    if sp {
      SpaceStepEffect(d1);
    }
  }

  /** The source and focus rule of the home branch, stated as which sources
      end up listed instead of how the list is built; `f1` is the focus after
      the collection rule. A string `sources` is split into its characters. */
  lemma HomeSourcesRule(ask: Value, ctx: AskContext)
    requires ask.Obj? && HomeSourcesReadable(ask, ctx) && IsHomeSource(Prop(ask, "query_source"))
    ensures var r := RewriteHome(ask, ctx);
      var orig := OriginalSources(ask);
      var org := ctx.mainToggles.includeOrgFiles;
      var sp := HomeSpaceFires(ctx);
      var f1 := CollectionFocus(Prop(ask, "query_source"), InitialFocus(ask, ctx));
      && Prop(r, "search_focus") == (if f1 == Writing && (org || sp) then Internet else f1)
      && (Listed(Prop(r, "sources"), OrgSource) <==> org || OrgSource in orig)
      && (Listed(Prop(r, "sources"), SpaceSource) <==> sp || (!org && SpaceSource in orig))
      && (Listed(Prop(r, "sources"), WebSource) <==>
            if sp && f1 == Writing && !org then false
            else WebSource in orig || (org && f1 != Writing) || (sp && (f1 != Writing || org)))
      && (forall x :: x != OrgSource && x != SpaceSource && x != WebSource ==>
            (Listed(Prop(r, "sources"), x) <==> x in orig))
  {
    var r := RewriteHome(ask, ctx);
    assert Prop(r, "sources") == FinalSources(Items(HomeDraft(ask, ctx).sources));
    assert Prop(r, "search_focus") == HomeDraft(ask, ctx).focus;
    HomeDraftSources(ask, ctx, OrgSource);
    HomeDraftSources(ask, ctx, SpaceSource);
    HomeDraftSources(ask, ctx, WebSource);
    forall x | x != OrgSource && x != SpaceSource && x != WebSource
      ensures Listed(Prop(r, "sources"), x) <==> x in OriginalSources(ask)
    {
      HomeDraftSources(ask, ctx, x);
    }
  }

  /** The comment in the org step says org and space files are exclusive, but
      the space-files step runs after it: with both toggles on and cached
      files present, both sources are sent. */
  lemma OrgAndSpaceCoexist(ask: Value, ctx: AskContext)
    requires ask.Obj? && HomeSourcesReadable(ask, ctx) && IsHomeSource(Prop(ask, "query_source"))
    requires ctx.mainToggles.includeOrgFiles && HomeSpaceFires(ctx)
    ensures Listed(Prop(RewriteHome(ask, ctx), "sources"), OrgSource)
    ensures Listed(Prop(RewriteHome(ask, ctx), "sources"), SpaceSource)
  {
    HomeSourcesRule(ask, ctx);
  }

  /** `sources` is typed as a string array, but a plain string is accepted
      when no file step fires: the set splits it into its characters, so
      `"web"` is sent as `["w", "e", "b"]`. */
  lemma StringSourcesSplit(ask: Value, ctx: AskContext)
    requires ask.Obj? && IsHomeSource(Prop(ask, "query_source")) && Prop(ask, "sources") == Str("web")
    requires !ctx.mainToggles.includeOrgFiles && !HomeSpaceFires(ctx)
    ensures Prop(RewriteHome(ask, ctx), "sources") == Arr([Str("w"), Str("e"), Str("b")])
  {
    var items := Items(Str("web"));
    assert items == [Str("w"), Str("e"), Str("b")];
    DedupOfDistinct(items);
  }

  /** A followup file step that fires keeps the payload's own sources only
      when they are an array. */
  predicate FollowupKeeps(ask: Value, ctx: AskContext)
    requires ThreadInfoReadable(ctx)
  {
    Prop(ask, "sources").Arr? || (!ctx.followUpToggles.includeOrgFiles && ThreadSpace(ctx).None?)
  }

  /** The followup source list holds `x` exactly when the rule says so. */
  lemma FollowupSourcesMember(ask: Value, ctx: AskContext, x: Value)
    requires ThreadInfoReadable(ctx) && FollowupSourcesReadable(ask, ctx)
    ensures x in Items(FollowupSources(ask, ctx)) <==>
      (x == OrgSource && ctx.followUpToggles.includeOrgFiles) || (x == SpaceSource && ThreadSpace(ctx).Some?)
      || (FollowupKeeps(ask, ctx) && x in OriginalSources(ask))
  {
  }

  /** The sent followup list holds `x` exactly when the rule says so. */
  lemma FollowupFinalListed(ask: Value, ctx: AskContext)
    requires ThreadInfoReadable(ctx) && FollowupSourcesReadable(ask, ctx)
    ensures forall x :: Listed(FollowupFinalSources(ask, ctx), x) <==>
      (x == OrgSource && ctx.followUpToggles.includeOrgFiles) || (x == SpaceSource && ThreadSpace(ctx).Some?)
      || (FollowupKeeps(ask, ctx) && x in OriginalSources(ask))
  {
    forall x {
      FollowupSourcesMember(ask, ctx, x);
    }
  }

  /** A followup never touches the search focus. */
  lemma FollowupFocusKept(ask: Value, ctx: AskContext)
    requires ask.Obj? && ThreadInfoReadable(ctx) && FollowupSourcesReadable(ask, ctx)
    requires IsFollowupSource(Prop(ask, "query_source"))
    ensures Prop(RewriteFollowup(ask, ctx), "search_focus") == Prop(ask, "search_focus")
  {
    assert "search_focus" !in FollowupKeys;
  }

  /** The source rule of the followup branch: "org" and "space" are added on
      their conditions, an array of sources loses nothing, and the focus is
      left alone. A `sources` that is not an array is dropped when a file
      step fires, and split into characters when it is a string and none
      does. */
  lemma FollowupSourcesRule(ask: Value, ctx: AskContext)
    requires ask.Obj? && ThreadInfoReadable(ctx) && FollowupSourcesReadable(ask, ctx)
    requires IsFollowupSource(Prop(ask, "query_source"))
    ensures var r := RewriteFollowup(ask, ctx);
      var orig := OriginalSources(ask);
      var kept := FollowupKeeps(ask, ctx);
      && Prop(r, "search_focus") == Prop(ask, "search_focus")
      && (Listed(Prop(r, "sources"), OrgSource) <==>
            ctx.followUpToggles.includeOrgFiles || (kept && OrgSource in orig))
      && (Listed(Prop(r, "sources"), SpaceSource) <==> ThreadSpace(ctx).Some? || (kept && SpaceSource in orig))
      && (forall x :: x != OrgSource && x != SpaceSource ==> (Listed(Prop(r, "sources"), x) <==> kept && x in orig))
  {
    FollowupFocusKept(ask, ctx);
    assert Prop(RewriteFollowup(ask, ctx), "sources") == FollowupFinalSources(ask, ctx);
    FollowupFinalListed(ask, ctx);
  }

  const FollowupKeys: set<string> := {"model_preference", "query_source", "target_collection_uuid", "sources"}

  // ---------------------------------------------------------------------
  // The interceptors

  /** The ask payload of a parsed ask message. */
  function AskOf(p: ParseResult): Value
    requires p.Parsed? && HasAskPayload(p.envelope)
  {
    p.envelope.data.value[1]
  }

  /** `alterQueries`: rewrites asks from the six known query sources that are
      neither default searches nor flagged to be ignored; never suppresses.
      A `data[1]` that is not an object has no `query_source` and falls
      through to no match. */
  function AlterQueries(p: ParseResult, ctx: AskContext): (v: Verdict)
    requires AskReadable(p, ctx)
    ensures !p.Parsed? ==> v.NoMatch?
    ensures p.Parsed? && p.envelope.event != AskEvent ==> v.NoMatch?
    ensures p.Parsed? && p.envelope.event == AskEvent ==>
      (v.Match? <==>
        && AskOf(p).Obj?
        && Prop(AskOf(p), "query_source") != Str("default_search")
        && Prop(AskOf(p), "ignore_interceptor") != Bool(true)
        && (IsHomeSource(Prop(AskOf(p), "query_source")) || IsFollowupSource(Prop(AskOf(p), "query_source"))))
    ensures v.Match? ==>
      && v.effects == []
      && v.action.Replace?
      && v.action.envelope == WithData(p.envelope, 1,
           if IsHomeSource(Prop(AskOf(p), "query_source")) then RewriteHome(AskOf(p), ctx)
           else RewriteFollowup(AskOf(p), ctx))
  {
    if !p.Parsed? || p.envelope.event != AskEvent then NoMatch
    else
      var ask := AskOf(p);
      var qs := Prop(ask, "query_source");
      if qs == Str("default_search") then NoMatch
      else if Prop(ask, "ignore_interceptor") == Bool(true) then NoMatch
      else if IsHomeSource(qs) then Match(Replace(WithData(p.envelope, 1, RewriteHome(ask, ctx))), [])
      else if IsFollowupSource(qs) then Match(Replace(WithData(p.envelope, 1, RewriteFollowup(ask, ctx))), [])
      else NoMatch
  }

  /** `alterNextQuery`: overrides the model (even with `undefined`) and, when
      pro search is requested, the mode of any parsed ask that is not a
      default search. The ignore flag is not consulted. `data[1]` is spread
      into a fresh object, so one that is not an object still matches and is
      replaced by an object. */
  function AlterNextQuery(p: ParseResult, languageModel: Option<string>, proSearchState: Option<bool>): (v: Verdict)
    requires p.Parsed? && p.envelope.event == AskEvent ==> HasAskPayload(p.envelope)
    ensures v.Match? <==>
      p.Parsed? && p.envelope.event == AskEvent && Prop(AskOf(p), "query_source") != Str("default_search")
    ensures v.Match? ==>
      && v.effects == [] && v.action.Replace?
      && var e := v.action.envelope;
         var ask := AskOf(p);
         && e.messageCode == p.envelope.messageCode && e.event == p.envelope.event
         && e.data.Some? && |e.data.value| == |p.envelope.data.value|
         && (forall j :: 0 <= j < |e.data.value| && j != 1 ==> e.data.value[j] == p.envelope.data.value[j])
         && var ask' := e.data.value[1];
            && ask'.Obj?
            && ask'.fields.Keys == Spread(ask).Keys + {"model_preference", "mode"}
            && Prop(ask', "model_preference") == (if languageModel.Some? then Str(languageModel.value) else Undefined)
            && Prop(ask', "mode") == (if proSearchState == Some(true) then Str("copilot") else Prop(ask, "mode"))
            && (forall k :: k != "model_preference" && k != "mode" ==> Prop(ask', k) == Prop(Obj(Spread(ask)), k))
  {
    if !p.Parsed? || p.envelope.event != AskEvent then NoMatch
    else
      var ask := AskOf(p);
      if Prop(ask, "query_source") == Str("default_search") then NoMatch
      else
        var model := if languageModel.Some? then Str(languageModel.value) else Undefined;
        var mode := if proSearchState == Some(true) then Str("copilot") else Prop(ask, "mode");
        var ask' := WithProp(WithProp(Obj(Spread(ask)), "model_preference", model), "mode", mode);
        Match(Replace(WithData(p.envelope, 1, ask')), [])
  }
}

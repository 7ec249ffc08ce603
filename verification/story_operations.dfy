/** The `useStoryOperations` hook: loading the catalogue and answering a
    story request by telling the best-matching existing story or generating
    a new one. Each asynchronous handler is modelled as one step from the
    hook state before the call to the state while it awaits (`busy`) and the
    state after it (`final`), with the backend results as parameters and the
    notifications it raises recorded in order. */
module StoryOperations {
  import opened Wrappers
  import opened Text
  import opened StoryModel
  import opened StringMatching
  import opened StoryService

  datatype LoadingAction = Fetching | Searching | Generating

  /** The hook's React state. */
  datatype HookState = HookState(stories: seq<Story>, isLoading: bool, loadingAction: LoadingAction)

  /** The toasts the hook raises (their wording is not modelled). */
  datatype Notice =
    | StoriesLoaded(count: nat)
    | StoriesFallback
    | StoryDetailsFailed
    | GeneratingAbout(storyName: string)
    | GeneratingRandom
    | GenerationFailed

  /** The hook's state right after mounting with `availableStories`. */
  function Initial(availableStories: seq<Story>): (s: HookState)
    ensures s.stories == availableStories && !s.isLoading && s.loadingAction == Fetching
  {
    HookState(availableStories, false, Fetching)
  }

  // ---------------------------------------------------------------------------
  // loadStories

  datatype LoadOutcome = LoadOutcome(busy: HookState, final: HookState, notices: seq<Notice>)

  /** `loadStories`: fetch the catalogue (falling back to the samples), put it
      in state, and announce either the count or the fallback. */
  function LoadStories(state: HookState, query: Query<Story>): (r: LoadOutcome)
    ensures r.busy == state.(isLoading := true, loadingAction := Fetching)
    ensures r.final == HookState(FetchStories(query).stories, false, Fetching)
    ensures |r.final.stories| > 0
    ensures HasRows(query) ==> r.final.stories == query.data.value && r.notices == [StoriesLoaded(|query.data.value|)]
    ensures !HasRows(query) ==> r.final.stories == SampleStories && r.notices == [StoriesFallback]
  {
    var fetched := FetchStories(query);
    var notice := if fetched.succeeded then StoriesLoaded(|fetched.stories|) else StoriesFallback;
    LoadOutcome(state.(isLoading := true, loadingAction := Fetching), HookState(fetched.stories, false, Fetching), [notice])
  }

  // ---------------------------------------------------------------------------
  // handleStoryRequest

  /** `stories.find(...)` from position `k` on: the first story whose
      lower-cased title in the active language equals the lower-cased
      `title`. */
  function FindByTitleFrom(stories: seq<Story>, lang: Language, title: string, k: nat): (r: Option<nat>)
    requires k <= |stories|
    ensures r.Some? ==> k <= r.value < |stories| && ToLower(TitleFor(stories[r.value], lang)) == ToLower(title)
    ensures r.Some? ==> forall j :: k <= j < r.value ==> ToLower(TitleFor(stories[j], lang)) != ToLower(title)
    ensures r.None? ==> forall j :: k <= j < |stories| ==> ToLower(TitleFor(stories[j], lang)) != ToLower(title)
    decreases |stories| - k
  {
    if k == |stories| then None
    else if ToLower(TitleFor(stories[k], lang)) == ToLower(title) then Some(k)
    else FindByTitleFrom(stories, lang, title, k + 1)
  }

  function FindByTitle(stories: seq<Story>, lang: Language, title: string): (r: Option<nat>)
    ensures r.Some? ==> r.value < |stories| && ToLower(TitleFor(stories[r.value], lang)) == ToLower(title)
    ensures r.Some? ==> forall j :: 0 <= j < r.value ==> ToLower(TitleFor(stories[j], lang)) != ToLower(title)
    ensures r.None? ==> forall j :: 0 <= j < |stories| ==> ToLower(TitleFor(stories[j], lang)) != ToLower(title)
  {
    FindByTitleFrom(stories, lang, title, 0)
  }

  /** The story the request ends up telling is exactly the first
      best-scoring one: a story found by the best match's title scores the
      same distance, and every story before the best scores strictly worse. */
  lemma FoundIsBest(term: string, stories: seq<Story>, lang: Language, threshold: int, k: nat)
    requires k < |stories| && BestAmong(term, stories, lang, threshold, k, |stories|)
    ensures FindByTitle(stories, lang, TitleFor(stories[k], lang)) == Some(k)
  {
    var found := FindByTitle(stories, lang, TitleFor(stories[k], lang));
    assert found.Some?;
    var j := found.value;
    assert j <= k;
    assert CandidateDistance(term, stories, lang, j) == CandidateDistance(term, stories, lang, k);
  }

  /** The best match of a term that normalises to a non-empty string, as an
      index: the title lookup lands on the first best-scoring story. */
  lemma BestMatchFound(searchTerm: string, stories: seq<Story>, lang: Language)
    requires Normalize(searchTerm) != ""
    ensures var term := Normalize(searchTerm);
      var best := FindBestMatchingStory(term, stories, lang, DefaultThreshold);
      && (best.None? ==> NoneWithin(term, stories, lang, DefaultThreshold, |stories|))
      && (best.Some? ==>
        && FindByTitle(stories, lang, best.value).Some?
        && BestAmong(term, stories, lang, DefaultThreshold, FindByTitle(stories, lang, best.value).value, |stories|))
  {
    var term := Normalize(searchTerm);
    NormalizeIdempotent(searchTerm);
    var best := FindBestMatchingStory(term, stories, lang, DefaultThreshold);
    if best.Some? {
      var k: nat :| k < |stories| && BestAmong(term, stories, lang, DefaultThreshold, k, |stories|)
                    && best.value == TitleFor(stories[k], lang);
      FoundIsBest(term, stories, lang, DefaultThreshold, k);
    }
  }

  /** The index of the story a non-empty request tells, if any. The best
      match is tested for truthiness before the lookup, so a best-matching
      title that is the empty string tells nothing. */
  function BestStory(searchTerm: string, stories: seq<Story>, lang: Language): (r: Option<nat>)
    requires Normalize(searchTerm) != ""
    ensures var best := FindBestMatchingStory(Normalize(searchTerm), stories, lang, DefaultThreshold);
      r.Some? <==> best.Some? && best.value != ""
    ensures r.Some? ==> r.value < |stories| && BestAmong(Normalize(searchTerm), stories, lang, DefaultThreshold, r.value, |stories|)
    ensures r.Some? ==> TitleFor(stories[r.value], lang) != ""
    ensures r.None? ==>
      || NoneWithin(Normalize(searchTerm), stories, lang, DefaultThreshold, |stories|)
      || FindBestMatchingStory(Normalize(searchTerm), stories, lang, DefaultThreshold) == Some("")
  {
    BestMatchFound(searchTerm, stories, lang);
    var bestMatch := FindBestMatchingStory(Normalize(searchTerm), stories, lang, DefaultThreshold);
    if bestMatch.Some? && bestMatch.value != "" then FindByTitle(stories, lang, bestMatch.value) else None
  }

  /** What the request handler eventually calls. */
  datatype Call = TellExisting(story: Story) | Generate(storyName: string)

  datatype RequestOutcome = RequestOutcome(
    busy: HookState, final: HookState, call: Call, selected: Option<Story>, notices: seq<Notice>)

  function Selected(r: Result<Story>): (s: Option<Story>)
    ensures s.Some? <==> r.Ok?
    ensures s.Some? ==> s.value == r.value
  {
    if r.Ok? then Some(r.value) else None
  }

  /** `tellExistingStory`: load the segments and select the story, or
      announce the failure. */
  function TellExistingStory(story: Story, segmentRows: string -> Query<SegmentRow>): (r: (Option<Story>, seq<Notice>))
    ensures r.0 == Selected(FetchStorySegments(story, segmentRows(story.id)))
    ensures r.1 == if r.0.Some? then [] else [StoryDetailsFailed]
  {
    var fetched := FetchStorySegments(story, segmentRows(story.id));
    if fetched.Ok? then (Some(fetched.value), []) else (None, [StoryDetailsFailed])
  }

  /** `generateAndTellStory`: announce the generation (named or random), ask
      the function, and select the story or announce the failure. */
  function GenerateAndTellStory(storyName: string, lang: Language, generate: (string, Language) -> Invocation): (r: (Option<Story>, seq<Notice>))
    ensures r.0 == Selected(GenerateAIStory(generate(storyName, lang)))
    ensures |r.1| >= 1 && r.1[0] == (if storyName == "" then GeneratingRandom else GeneratingAbout(storyName))
    ensures r.1[1..] == if r.0.Some? then [] else [GenerationFailed]
  {
    var announce := if storyName == "" then GeneratingRandom else GeneratingAbout(storyName);
    var generated := GenerateAIStory(generate(storyName, lang));
    if generated.Ok? then (Some(generated.value), [announce]) else (None, [announce, GenerationFailed])
  }

  /** `handleStoryRequest`. A term that lower-cases and trims to "" asks for
      a random story. Otherwise the best-matching title is looked up and the
      first story carrying it is told; without a match, or when the best
      match is an empty title, a story is generated
      about the term as typed (untrimmed, original case). The catalogue is
      never changed, and the loading flag is cleared at the end whatever
      happened. */
  function HandleStoryRequest(
    searchTerm: string, state: HookState, lang: Language,
    segmentRows: string -> Query<SegmentRow>, generate: (string, Language) -> Invocation): (r: RequestOutcome)
    ensures r.busy == state.(isLoading := true, loadingAction := r.busy.loadingAction)
    ensures r.final == state.(isLoading := false, loadingAction := r.busy.loadingAction)
    ensures r.busy.loadingAction != Fetching
    ensures r.busy.loadingAction == Searching <==> r.call.TellExisting?
    ensures Normalize(searchTerm) == "" ==> r.call == Generate("")
    ensures Normalize(searchTerm) != "" ==>
      (r.call.TellExisting? <==>
        var best := FindBestMatchingStory(Normalize(searchTerm), state.stories, lang, DefaultThreshold);
        best.Some? && best.value != "")
    ensures r.call.TellExisting? ==>
      exists k: nat :: k < |state.stories|
        && BestAmong(Normalize(searchTerm), state.stories, lang, DefaultThreshold, k, |state.stories|)
        && r.call.story == state.stories[k]
    ensures r.call.Generate? && Normalize(searchTerm) != "" ==> r.call.storyName == searchTerm
    ensures r.call.TellExisting? ==> (r.selected, r.notices) == TellExistingStory(r.call.story, segmentRows)
    ensures r.call.Generate? ==> (r.selected, r.notices) == GenerateAndTellStory(r.call.storyName, lang, generate)
    ensures r.selected.Some? ==> r.selected.value.segments.Some?
  {
    var trimmed := Normalize(searchTerm);
    if trimmed == "" then
      var (selected, notices) := GenerateAndTellStory("", lang, generate);
      RequestOutcome(state.(isLoading := true, loadingAction := Generating), state.(isLoading := false, loadingAction := Generating),
                     Generate(""), selected, notices)
    else
      var found := BestStory(searchTerm, state.stories, lang);
      if found.Some? then
        var story := state.stories[found.value];
        var (selected, notices) := TellExistingStory(story, segmentRows);
        RequestOutcome(state.(isLoading := true, loadingAction := Searching), state.(isLoading := false, loadingAction := Searching),
                       TellExisting(story), selected, notices)
      else
        var (selected, notices) := GenerateAndTellStory(searchTerm, lang, generate);
        RequestOutcome(state.(isLoading := true, loadingAction := Generating), state.(isLoading := false, loadingAction := Generating),
                       Generate(searchTerm), selected, notices)
  }

  /** A story whose lower-cased title is the term itself is at distance
      zero, so the first such story is the first best-scoring one. */
  lemma ExactTitleIsBest(term: string, stories: seq<Story>, lang: Language, k: nat, b: nat)
    requires k < |stories| && ToLower(TitleFor(stories[k], lang)) == term
    requires forall j :: 0 <= j < k ==> ToLower(TitleFor(stories[j], lang)) != term
    requires b < |stories| && BestAmong(term, stories, lang, DefaultThreshold, b, |stories|)
    ensures b == k
  {
    DistanceProperties(term, ToLower(TitleFor(stories[k], lang)));
    assert CandidateDistance(term, stories, lang, k) == 0;
    assert CandidateDistance(term, stories, lang, b) <= CandidateDistance(term, stories, lang, k);
    DistanceProperties(term, ToLower(TitleFor(stories[b], lang)));
    assert ToLower(TitleFor(stories[b], lang)) == term;
  }

  /** A request naming a title exactly (up to case and surrounding
      whitespace) selects the first story carrying that title. */
  lemma ExactTitleIsBestStory(searchTerm: string, stories: seq<Story>, lang: Language, k: nat)
    requires Normalize(searchTerm) != ""
    requires k < |stories| && ToLower(TitleFor(stories[k], lang)) == Normalize(searchTerm)
    requires forall j :: 0 <= j < k ==> ToLower(TitleFor(stories[j], lang)) != Normalize(searchTerm)
    ensures BestStory(searchTerm, stories, lang) == Some(k)
  {
    var term := Normalize(searchTerm);
    DistanceProperties(term, ToLower(TitleFor(stories[k], lang)));
    assert CandidateDistance(term, stories, lang, k) <= DefaultThreshold;
    assert !NoneWithin(term, stories, lang, DefaultThreshold, |stories|);
    NormalizeIdempotent(searchTerm);
    var best := FindBestMatchingStory(term, stories, lang, DefaultThreshold);
    assert best.Some?;
    var b: nat :| b < |stories| && BestAmong(term, stories, lang, DefaultThreshold, b, |stories|)
                  && best.value == TitleFor(stories[b], lang);
    ExactTitleIsBest(term, stories, lang, k, b);
    assert |best.value| == |ToLower(TitleFor(stories[k], lang))| == |term| > 0;
    assert BestStory(searchTerm, stories, lang).Some?;
    ExactTitleIsBest(term, stories, lang, k, BestStory(searchTerm, stories, lang).value);
  }

  /** Such a request tells that story, and no request changes the catalogue. */
  lemma ExactTitleIsTold(
    searchTerm: string, state: HookState, lang: Language,
    segmentRows: string -> Query<SegmentRow>, generate: (string, Language) -> Invocation, k: nat)
    requires Normalize(searchTerm) != ""
    requires k < |state.stories| && ToLower(TitleFor(state.stories[k], lang)) == Normalize(searchTerm)
    requires forall j :: 0 <= j < k ==> ToLower(TitleFor(state.stories[j], lang)) != Normalize(searchTerm)
    ensures HandleStoryRequest(searchTerm, state, lang, segmentRows, generate).call == TellExisting(state.stories[k])
    ensures HandleStoryRequest(searchTerm, state, lang, segmentRows, generate).final.stories == state.stories
  {
    ExactTitleIsBestStory(searchTerm, state.stories, lang, k);
  }

  /** An empty title can be the best match (its distance is the term's
      length), and then the request generates a story about the term instead
      of telling the story with that title. */
  lemma EmptyBestTitleGenerates(
    segmentRows: string -> Query<SegmentRow>, generate: (string, Language) -> Invocation)
    ensures var stories := [Story("x", "X", "", None)];
      && FindBestMatchingStory(Normalize("abc"), stories, Fr, DefaultThreshold) == Some("")
      && HandleStoryRequest("abc", Initial(stories), Fr, segmentRows, generate).call == Generate("abc")
  {
    var stories := [Story("x", "X", "", None)];
    assert Normalize("abc") == "abc";
    DistanceToEmpty("abc");
    assert CandidateDistance("abc", stories, Fr, 0) == 3;
  }
}

/** The client's story service: emotion validation against the five client
    tags, the story list with its sample fallback, lazy segment loading, and
    the reception of a generated story. Database and function-call results
    are parameters. */
module StoryService {
  import opened Wrappers
  import opened Emotions
  import opened StoryModel
  import GenerateStory

  // ---------------------------------------------------------------------------
  // Emotion validation

  /** `validEmotions.includes(s)`: `s` spells one of the five client tags exactly. */
  predicate IsClientTagName(s: string) {
    FromName(s).Some? && ClientTag(FromName(s).value)
  }

  /** The client's `validateEmotion`: an exact (case-sensitive, untrimmed)
      client tag is kept, anything else becomes `neutral`. */
  function ValidateEmotion(emotion: string): (r: Emotion)
    ensures ClientTag(r)
    ensures Name(r) == emotion <==> IsClientTagName(emotion)
    ensures !IsClientTagName(emotion) ==> r == Neutral
  {
    match FromName(emotion)
    case Some(e) => if ClientTag(e) then e else Neutral
    case None => Neutral
  }

  /** Validating a validated tag changes nothing. */
  lemma ValidateEmotionIdempotent(emotion: string)
    ensures ValidateEmotion(Name(ValidateEmotion(emotion))) == ValidateEmotion(emotion)
  {
    FromNameOfName(ValidateEmotion(emotion));
  }

  /** What the client makes of each generator tag: the four shared tags pass,
      excited, afraid, disgusted and confused become neutral. */
  lemma ClientViewOfServerTag(e: Emotion)
    requires ServerTag(e)
    ensures ValidateEmotion(Name(e)) == (if e in {Happy, Sad, Angry, Neutral} then e else Neutral)
    ensures ValidateEmotion(Name(e)) != Surprised
  {
    FromNameOfName(e);
  }

  /** A stored row with its emotion validated. */
  function TypedSegment(row: SegmentRow): Segment {
    Segment(row.id, row.text, row.textFr, ValidateEmotion(row.emotion), row.sequenceOrder)
  }

  function TypedSegments(rows: seq<SegmentRow>): (segments: seq<Segment>)
    ensures |segments| == |rows|
    ensures forall k :: 0 <= k < |rows| ==> segments[k] == TypedSegment(rows[k])
  {
    seq(|rows|, k requires 0 <= k < |rows| => TypedSegment(rows[k]))
  }

  // ---------------------------------------------------------------------------
  // Fetching

  /** The outcome of a database query: an error, or the data (possibly null). */
  datatype Query<T> = QueryFailed(message: string) | Rows(data: Option<seq<T>>)

  predicate HasRows<T>(query: Query<T>) {
    query.Rows? && query.data.Some? && |query.data.value| > 0
  }

  /** The result of `fetchStories` together with which callback it invoked. */
  datatype FetchedStories = FetchedStories(stories: seq<Story>, succeeded: bool)

  /** `fetchStories`: a non-empty result is returned (and `onSuccess` called);
      an error or an empty result calls `onError` and yields the samples. The
      returned list is never empty. */
  function FetchStories(query: Query<Story>): (r: FetchedStories)
    ensures r.succeeded <==> HasRows(query)
    ensures r.succeeded ==> r.stories == query.data.value
    ensures !r.succeeded ==> r.stories == SampleStories
    ensures |r.stories| > 0
  {
    if HasRows(query) then FetchedStories(query.data.value, true)
    else FetchedStories(SampleStories, false)
  }

  const SegmentsUnavailable := "Could not load story segments"

  /** `fetchStorySegments`. A story whose segments are present (even an empty
      list) is returned unchanged. Otherwise the queried rows, in order and
      with validated emotions, become its segments; without rows the sample
      story with the same id is returned as it is; failing that, an error. */
  function FetchStorySegments(story: Story, query: Query<SegmentRow>): (r: Result<Story>)
    ensures story.segments.Some? ==> r == Ok(story)
    ensures story.segments.None? && query.QueryFailed? ==> r == Err(query.message)
    ensures story.segments.None? && HasRows(query) ==>
      && r.Ok?
      && r.value.id == story.id && r.value.title == story.title && r.value.titleFr == story.titleFr
      && r.value.segments == Some(TypedSegments(query.data.value))
    ensures story.segments.None? && query.Rows? && !HasRows(query) ==>
      match FindSample(story.id)
      case Some(sample) => r == Ok(sample)
      case None => r == Err(SegmentsUnavailable)
    ensures r.Ok? ==> r.value.segments.Some?
  {
    if story.segments.Some? then Ok(story)
    else
      match query
      case QueryFailed(message) => Err(message)
      case Rows(data) =>
        if HasRows(query) then Ok(story.(segments := Some(TypedSegments(data.value))))
        else
          match FindSample(story.id)
          case Some(sample) => Ok(sample)
          case None => Err(SegmentsUnavailable)
  }

  /** A story that loaded is never fetched again: loading it a second time,
      whatever the database says, returns it unchanged. */
  lemma FetchStorySegmentsIdempotent(story: Story, query: Query<SegmentRow>, again: Query<SegmentRow>)
    requires FetchStorySegments(story, query).Ok?
    ensures FetchStorySegments(FetchStorySegments(story, query).value, again) == FetchStorySegments(story, query)
  {
  }

  // ---------------------------------------------------------------------------
  // Generation

  /** What `supabase.functions.invoke` hands back: an error, or the body. */
  datatype Invocation = InvokeFailed(message: string) | Invoked(data: Option<StoryPayload>)

  const InvalidStoryData := "Invalid story data received"

  /** `generateAIStory`: fails on an invocation error, a missing body or a
      body without segments; otherwise keeps every field and validates the
      emotion of every segment. */
  function GenerateAIStory(invocation: Invocation): (r: Result<Story>)
    ensures r.Ok? <==> invocation.Invoked? && invocation.data.Some? && invocation.data.value.segments.Some?
    ensures invocation.InvokeFailed? ==> r == Err(invocation.message)
    ensures r.Ok? ==>
      var payload := invocation.data.value;
      && r.value.id == payload.id && r.value.title == payload.title && r.value.titleFr == payload.titleFr
      && r.value.segments == Some(TypedSegments(payload.segments.value))
  {
    match invocation
    case InvokeFailed(message) => Err(message)
    case Invoked(data) =>
      if data.None? || data.value.segments.None? then Err(InvalidStoryData)
      else
        var payload := data.value;
        Ok(Story(payload.id, payload.title, payload.titleFr, Some(TypedSegments(payload.segments.value))))
  }

  const NonSuccessStatus := "Edge Function returned a non-2xx status code"

  /** How the generation function's HTTP response reaches the client: an
      error status becomes an invocation error, a success its JSON body. */
  function Receive(response: GenerateStory.Response): (r: Invocation)
    ensures r.InvokeFailed? <==> response.ErrorResponse?
    ensures response.StoryResponse? ==> r == Invoked(Some(response.story))
  {
    match response
    case ErrorResponse(_, _) => InvokeFailed(NonSuccessStatus)
    case StoryResponse(payload) => Invoked(Some(payload))
  }

  /** Generator and client validators composed: in a generated story that
      reaches the player, each segment shows the generator's tag when the
      client knows it and `neutral` otherwise, so only happy, sad, angry and
      neutral occur and `surprised` never does. */
  lemma GeneratedEmotionsComposed(
    storyName: string, language: string, apiKeyPresent: bool,
    complete: GenerateStory.Prompt -> GenerateStory.Completion,
    parse: string -> Option<GenerateStory.ParsedStory>, storyId: string)
    requires GenerateAIStory(Receive(GenerateStory.HandleGenerateStory(storyName, language, apiKeyPresent, complete, parse, storyId))).Ok?
    ensures
      var story := GenerateAIStory(Receive(GenerateStory.HandleGenerateStory(storyName, language, apiKeyPresent, complete, parse, storyId))).value;
      var raw := parse(GenerateStory.StripFences(complete(GenerateStory.ChoosePrompt(storyName, language)).content)).value.segments.value;
      && |story.segments.value| == |raw|
      && forall k :: 0 <= k < |raw| ==>
        var tag := GenerateStory.ValidateEmotion(raw[k].emotion);
        && story.segments.value[k].emotion == (if tag in {Happy, Sad, Angry, Neutral} then tag else Neutral)
        && story.segments.value[k].emotion != Surprised
  {
    var response := GenerateStory.HandleGenerateStory(storyName, language, apiKeyPresent, complete, parse, storyId);
    var raw := parse(GenerateStory.StripFences(complete(GenerateStory.ChoosePrompt(storyName, language)).content)).value.segments.value;
    var rows := response.story.segments.value;
    assert rows == GenerateStory.FormatSegments(raw);
    forall k | 0 <= k < |raw|
      ensures ValidateEmotion(rows[k].emotion) ==
        (var tag := GenerateStory.ValidateEmotion(raw[k].emotion); if tag in {Happy, Sad, Angry, Neutral} then tag else Neutral)
    {
      ClientViewOfServerTag(GenerateStory.ValidateEmotion(raw[k].emotion));
    }
  }
}

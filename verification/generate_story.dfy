/** The `generate-story` serverless function: prompt choice, extraction of the
    JSON object from the model's reply, emotion validation against the
    generator's eight tags, and the renumbering of the generated segments.
    The call to the language model and `JSON.parse` are parameters. */
module GenerateStory {
  import opened Wrappers
  import opened Text
  import opened Emotions
  import opened StoryModel

  // ---------------------------------------------------------------------------
  // Emotion validation

  /** The `emotionMappings` table in declaration order: a key found anywhere
      in the normalised input selects its tag; the first key found wins. */
  const EmotionMappings: seq<(string, Emotion)> := [
    ("happ", Happy), ("joy", Happy), ("cheerful", Happy), ("content", Happy), ("delighted", Happy),
    ("sad", Sad), ("unhapp", Sad), ("cry", Sad), ("sorrow", Sad), ("grief", Sad),
    ("surp", Confused), ("shock", Confused), ("confuse", Confused), ("confusion", Confused),
    ("astonish", Confused), ("surprise", Confused), ("surprised", Confused),
    ("ang", Angry), ("mad", Angry), ("frust", Angry), ("rage", Angry), ("furious", Angry),
    ("excitement", Excited), ("thrill", Excited), ("elated", Excited), ("exhilarated", Excited),
    ("overjoyed", Excited),
    ("fear", Afraid), ("fright", Afraid), ("frighten", Afraid), ("terror", Afraid), ("panic", Afraid),
    ("disgust", Disgusted), ("revulsion", Disgusted), ("repulsion", Disgusted), ("nauseated", Disgusted),
    ("loathing", Disgusted)
  ]

  /** `emotions.includes(s)`: `s` spells one of the eight generator tags. */
  predicate IsServerTagName(s: string) {
    FromName(s).Some? && ServerTag(FromName(s).value)
  }

  /** Entry `k` is the first table entry whose key occurs in `s`. */
  predicate FirstMappingAt(s: string, k: nat) {
    && k < |EmotionMappings|
    && Contains(s, EmotionMappings[k].0)
    && forall j :: 0 <= j < k ==> !Contains(s, EmotionMappings[j].0)
  }

  predicate NoMappingIn(s: string) {
    forall j :: 0 <= j < |EmotionMappings| ==> !Contains(s, EmotionMappings[j].0)
  }

  /** The `for ... of Object.entries(emotionMappings)` loop from entry `k` on. */
  function FirstMappingFrom(s: string, k: nat): (r: Option<nat>)
    requires forall j :: 0 <= j < k && j < |EmotionMappings| ==> !Contains(s, EmotionMappings[j].0)
    ensures r.Some? ==> FirstMappingAt(s, r.value)
    ensures r.None? ==> NoMappingIn(s)
    decreases |EmotionMappings| - k
  {
    if k >= |EmotionMappings| then None
    else if Contains(s, EmotionMappings[k].0) then Some(k)
    else FirstMappingFrom(s, k + 1)
  }

  /** The generator's `validateEmotion`: the lower-cased, trimmed input if it
      is one of the eight tags; otherwise the tag of the first table key that
      occurs in it; otherwise `neutral`. The result is always one of the
      eight tags. */
  function ValidateEmotion(emotion: string): (r: Emotion)
    ensures ServerTag(r)
    ensures IsServerTagName(Normalize(emotion)) ==> Name(r) == Normalize(emotion)
    ensures !IsServerTagName(Normalize(emotion)) && !NoMappingIn(Normalize(emotion)) ==>
      exists k: nat :: FirstMappingAt(Normalize(emotion), k) && r == EmotionMappings[k].1
    ensures !IsServerTagName(Normalize(emotion)) && NoMappingIn(Normalize(emotion)) ==> r == Neutral
  {
    var normalized := Normalize(emotion);
    if IsServerTagName(normalized) then FromName(normalized).value
    else
      match FirstMappingFrom(normalized, 0)
      case Some(k) => MappingsAreServerTags(); EmotionMappings[k].1
      case None => Neutral
  }

  /** Every tag the table maps to is one of the eight. */
  lemma MappingsAreServerTags()
    ensures forall k :: 0 <= k < |EmotionMappings| ==> ServerTag(EmotionMappings[k].1)
  {
  }

  /** Two entries map to the same tag at most once: the first key found wins. */
  lemma FirstMappingUnique(s: string, k1: nat, k2: nat)
    requires FirstMappingAt(s, k1) && FirstMappingAt(s, k2)
    ensures k1 == k2
  {
  }

  /** A string that contains `big` contains every piece of it. */
  lemma ContainsPiece(s: string, big: string, small: string, offset: nat)
    requires offset + |small| <= |big| && big[offset..offset + |small|] == small
    requires Contains(s, big)
    ensures Contains(s, small)
  {
    var i := IndexOf(s, big).value;
    assert OccursAt(s, big, i);
    forall t | 0 <= t < |small|
      ensures s[i + offset + t] == small[t]
    {
      assert small[t] == big[offset + t] == s[i..i + |big|][offset + t];
    }
    assert s[i + offset..i + offset + |small|] == small;
    ContainsAt(s, small, i + offset);
  }

  /** Input that is not a tag gets the tag of the first key it contains. */
  lemma ValidateEmotionMapped(emotion: string, k: nat)
    requires !IsServerTagName(Normalize(emotion)) && FirstMappingAt(Normalize(emotion), k)
    ensures ValidateEmotion(emotion) == EmotionMappings[k].1
  {
    var found := FirstMappingFrom(Normalize(emotion), 0);
    FirstMappingUnique(Normalize(emotion), k, found.value);
  }

  /** Two keys can never be the first one found, because an earlier key
      mapping to a different tag is part of them: whatever contains "unhapp"
      (meant as sad) contains "happ" (happy), and whatever contains
      "overjoyed" (meant as excited) contains "joy" (happy). */
  lemma ShadowedKeys(s: string)
    ensures EmotionMappings[6] == ("unhapp", Sad) && !FirstMappingAt(s, 6)
    ensures EmotionMappings[26] == ("overjoyed", Excited) && !FirstMappingAt(s, 26)
  {
    UnhappShadowed(s);
    OverjoyedShadowed(s);
  }

  lemma UnhappShadowed(s: string)
    ensures Contains(s, "unhapp") ==> Contains(s, EmotionMappings[0].0)
  {
    assert EmotionMappings[0].0 == "happ";
    if Contains(s, "unhapp") {
      assert "unhapp"[2..6] == "happ";
      ContainsPiece(s, "unhapp", "happ", 2);
    }
  }

  lemma OverjoyedShadowed(s: string)
    ensures Contains(s, "overjoyed") ==> Contains(s, EmotionMappings[1].0)
  {
    assert EmotionMappings[1].0 == "joy";
    if Contains(s, "overjoyed") {
      assert "overjoyed"[4..7] == "joy";
      ContainsPiece(s, "overjoyed", "joy", 4);
    }
  }

  /** Tag names are lower-case letters only. */
  predicate LowerLetters(s: string) {
    forall i :: 0 <= i < |s| ==> 'a' <= s[i] <= 'z'
  }

  lemma NamesAreLowerLetters(e: Emotion)
    ensures LowerLetters(Name(e))
  {
  }

  /** A word of lower-case ASCII letters is already normalised. */
  lemma LowerLettersNormalized(s: string)
    requires LowerLetters(s)
    ensures Normalize(s) == s
  {
    assert ToLower(s) == s;
    assert IsTrimmed(s);
    TrimOfTrimmed(s);
  }

  /** A tag name is already normalised. */
  lemma NameIsNormalized(e: Emotion)
    ensures Normalize(Name(e)) == Name(e)
  {
    NamesAreLowerLetters(e);
    LowerLettersNormalized(Name(e));
  }

  /** Validating a validated tag changes nothing. */
  lemma ValidateEmotionIdempotent(emotion: string)
    ensures ValidateEmotion(Name(ValidateEmotion(emotion))) == ValidateEmotion(emotion)
  {
    var e := ValidateEmotion(emotion);
    NameIsNormalized(e);
    FromNameOfName(e);
    assert IsServerTagName(Name(e));
    var r := ValidateEmotion(Name(e));
    assert Name(r) == Name(e);
    FromNameOfName(r);
  }

  lemma NormalizeHappy()
    ensures Normalize(" Happy ") == "happy"
  {
    assert LowerChar('H') == 'h';
    assert ToLower(" Happy ") == " happy ";
    var t := " happy ";
    assert LeadingSpace(t[1..]) == 0;
    assert LeadingSpace(t) == 1;
    var u := t[1..];
    assert u == "happy ";
    assert TrailingStart(u[..5]) == 5;
    assert TrailingStart(u) == 5;
    assert Trim(t) == u[..5] == "happy";
  }

  /** An exact tag is accepted whatever its case and surrounding spaces. */
  lemma ValidateEmotionExactTag()
    ensures ValidateEmotion(" Happy ") == Happy
  {
    NormalizeHappy();
    assert FromName("happy") == Some(Happy);
    var r := ValidateEmotion(" Happy ");
    FromNameOfName(r);
  }

  /** "unhappy" counts as happy, because the key "happ" comes before "unhapp". */
  lemma ValidateEmotionUnhappy()
    ensures ValidateEmotion("unhappy") == Happy
  {
    assert LowerLetters("unhappy");
    LowerLettersNormalized("unhappy");
    assert FromName("unhappy") == None;
    assert OccursAt("unhappy", "happ", 2);
    assert FirstMappingAt("unhappy", 0);
    ValidateEmotionMapped("unhappy", 0);
  }

  /** A key of two or more characters whose first two characters never
      appear side by side in `s` does not occur in `s`. */
  lemma NoLeadingPair(s: string, key: string)
    requires |key| >= 2
    requires forall i :: 0 <= i && i + 1 < |s| ==> s[i] != key[0] || s[i + 1] != key[1]
    ensures !Contains(s, key)
  {
    forall i | 0 <= i
      ensures !OccursAt(s, key, i)
    {
      if i + |key| <= |s| {
        var window := s[i..i + |key|];
        assert window[0] == s[i] && window[1] == s[i + 1];
        assert window[0] != key[0] || window[1] != key[1];
      }
    }
  }

  lemma NoKeyBeforeSurp()
    ensures forall j :: 0 <= j < 10 ==> !Contains("surprise", EmotionMappings[j].0)
  {
    forall j | 0 <= j < 10
      ensures !Contains("surprise", EmotionMappings[j].0)
    {
      NoLeadingPair("surprise", EmotionMappings[j].0);
    }
  }

  lemma SurpriseFirstMapping()
    ensures FirstMappingAt("surprise", 10) && EmotionMappings[10] == ("surp", Confused)
  {
    NoKeyBeforeSurp();
    assert OccursAt("surprise", "surp", 0);
  }

  /** "surprise" is not a generator tag; the key "surp" maps it to `confused`. */
  lemma ValidateEmotionSurprise()
    ensures ValidateEmotion("surprise") == Confused
  {
    assert LowerLetters("surprise");
    LowerLettersNormalized("surprise");
    assert FromName("surprise") == None;
    SurpriseFirstMapping();
    ValidateEmotionMapped("surprise", 10);
  }

  /** Input containing no key at all falls back to `neutral`. */
  lemma ValidateEmotionEmpty()
    ensures ValidateEmotion("") == Neutral
  {
    assert Normalize("") == "";
    forall j | 0 <= j < |EmotionMappings|
      ensures !Contains("", EmotionMappings[j].0)
    {
      assert !OccursAt("", EmotionMappings[j].0, 0);
    }
  }

  // ---------------------------------------------------------------------------
  // Extracting the JSON object from the model's reply

  /** The fence handling before `JSON.parse`: the text after the first
      "```json" up to the next fence, or the text between the first two
      "```" fences, trimmed; a reply without fences is kept as it is. */
  function StripFences(content: string): string {
    if Contains(content, "```json") then
      Trim(Split(Split(content, "```json")[1], "```")[0])
    else if Contains(content, "```") then
      Trim(Split(Split(content, "```")[1], "```")[0])
    else
      content
  }

  /** A suffix of a string without a pattern does not contain it either. */
  lemma SuffixLacks(s: string, k: nat, pat: string)
    requires k <= |s| && !Contains(s, pat)
    ensures !Contains(s[k..], pat)
  {
    forall j | 0 <= j
      ensures !OccursAt(s[k..], pat, j)
    {
      if j + |pat| <= |s| - k {
        assert s[k..][j..j + |pat|] == s[k + j..k + j + |pat|];
        assert !OccursAt(s, pat, k + j);
      }
    }
  }

  /** A "```json" fence starts with a "```" fence. */
  lemma JsonFenceIsFence(x: string, a: nat)
    requires OccursAt(x, "```json", a)
    ensures OccursAt(x, "```", a)
  {
    assert x[a..a + 3] == x[a..a + 7][..3];
  }

  /** Two fences less than three characters apart make four backticks. */
  lemma OverlappingFences(x: string, a: nat, b: nat)
    requires OccursAt(x, "```", a) && OccursAt(x, "```", b) && b < a < b + 3
    ensures OccursAt(x, "````", b)
  {
    assert x[b] == x[b..b + 3][0] && x[b + 1] == x[b..b + 3][1] && x[b + 2] == x[b..b + 3][2];
    assert x[a + 2] == x[a..a + 3][2];
    assert x[b + 3] == '`' by {
      if a == b + 1 {
        assert x[b + 3] == x[a..a + 3][2];
      } else {
        assert x[b + 3] == x[a..a + 3][1];
      }
    }
    assert x[b..b + 4] == "````";
  }

  /** Cutting at "```json" and then at "```" is cutting at "```", unless a
      run of four backticks lets a fence overlap the "```json" that follows. */
  lemma CutAtFence(x: string)
    requires !Contains(x, "````")
    ensures TakeUntil(TakeUntil(x, "```json"), "```") == TakeUntil(x, "```")
  {
    match IndexOf(x, "```json")
    case None =>
    case Some(a) =>
      JsonFenceIsFence(x, a);
      var b := IndexOf(x, "```").value;
      if b + 3 <= a {
        PrefixFirst(x, "```", a, b);
      } else if b == a {
        PrefixLacks(x, "```", a);
      } else {
        OverlappingFences(x, a, b);
        assert false;
      }
  }

  /** With a "```json" fence, and no run of four backticks in the reply, the
      extracted text is the trimmed text between that fence and the next "```". */
  lemma StripJsonFence(content: string)
    requires Contains(content, "```json") && !Contains(content, "````")
    ensures StripFences(content) == Trim(TakeUntil(content[IndexOf(content, "```json").value + 7..], "```"))
  {
    var start := IndexOf(content, "```json").value + 7;
    SplitSecond(content, "```json");
    SuffixLacks(content, start, "````");
    CutAtFence(content[start..]);
  }

  /** With plain fences only, the extracted text is the trimmed text between
      the first two fences (or after the only one). */
  lemma StripPlainFence(content: string)
    requires !Contains(content, "```json") && Contains(content, "```")
    ensures StripFences(content) == Trim(TakeUntil(content[IndexOf(content, "```").value + 3..], "```"))
  {
    SplitSecond(content, "```");
    var piece := Split(content, "```")[1];
    assert !Contains(piece, "```");
  }

  /** A reply without fences is parsed as it is. */
  lemma StripNoFence(content: string)
    requires !Contains(content, "```")
    ensures StripFences(content) == content
  {
    if Contains(content, "```json") {
      var i := IndexOf(content, "```json").value;
      assert content[i..i + 3] == "```json"[..3];
      ContainsAt(content, "```", i);
    }
  }

  // ---------------------------------------------------------------------------
  // The prompt

  /** Which of the four prompts is sent: English or French, and a story about
      the given title or a random story. */
  datatype Prompt = Prompt(english: bool, title: Option<string>)

  /** An empty story name asks for a random story; `'en'` selects the English
      prompt and any other language code the French one. */
  function ChoosePrompt(storyName: string, language: string): (p: Prompt)
    ensures p.english <==> language == "en"
    ensures p.title.None? <==> storyName == ""
    ensures p.title.Some? ==> p.title.value == storyName
  {
    Prompt(language == "en", if storyName != "" then Some(storyName) else None)
  }

  // ---------------------------------------------------------------------------
  // Shaping the generated story

  /** One segment of the model's JSON reply. */
  datatype GeneratedSegment = GeneratedSegment(text: string, textFr: string, emotion: string)

  /** The model's parsed JSON reply; `segments` is absent when the reply has none. */
  datatype ParsedStory = ParsedStory(title: string, titleFr: string, segments: Option<seq<GeneratedSegment>>)

  /** The id given to the segment at `index`: `generated-${index}`. */
  function GeneratedId(index: nat): string {
    "generated-" + NatToString(index)
  }

  /** Segments at different positions get different ids. */
  lemma GeneratedIdsDistinct(n: nat)
    ensures forall i, j :: 0 <= i < j < n ==> GeneratedId(i) != GeneratedId(j)
  {
    forall i, j | 0 <= i < j < n
      ensures GeneratedId(i) != GeneratedId(j)
    {
      var prefix := "generated-";
      assert GeneratedId(i)[|prefix|..] == NatToString(i);
      assert GeneratedId(j)[|prefix|..] == NatToString(j);
    }
  }

  /** The `segments.map((segment, index) => ...)`: count and order are kept,
      texts are copied, segment `i` is numbered `i + 1` and gets the id
      `generated-i`, ids are distinct and
      every emotion is the name of one of the eight tags. */
  function FormatSegments(raw: seq<GeneratedSegment>): (rows: seq<SegmentRow>)
    ensures |rows| == |raw|
    ensures forall i :: 0 <= i < |rows| ==>
      && rows[i].text == raw[i].text
      && rows[i].textFr == raw[i].textFr
      && rows[i].sequenceOrder == i + 1
      && rows[i].id == GeneratedId(i)
      && rows[i].emotion == Name(ValidateEmotion(raw[i].emotion))
      && IsServerTagName(rows[i].emotion)
    ensures forall i, j :: 0 <= i < j < |rows| ==> rows[i].id != rows[j].id
  {
    GeneratedIdsDistinct(|raw|);
    forall i | 0 <= i < |raw|
      ensures IsServerTagName(Name(ValidateEmotion(raw[i].emotion)))
    {
      FromNameOfName(ValidateEmotion(raw[i].emotion));
    }
    seq(|raw|, i requires 0 <= i < |raw| =>
      SegmentRow(GeneratedId(i), raw[i].text, raw[i].textFr, Name(ValidateEmotion(raw[i].emotion)), i + 1))
  }

  /** The model's reply as an outcome of the chat-completion request. */
  datatype Completion = Completed(content: string) | ApiFailed(message: Option<string>)

  /** The function's HTTP response. */
  datatype Response = StoryResponse(story: StoryPayload) | ErrorResponse(status: int, error: string)

  const ParseFailure := "Failed to parse the generated story"

  /** The request handler after CORS: choose the prompt, require the API key,
      ask the model, strip fences, parse and format. Every failure is a 500
      response; a success carries the formatted story under `storyId`. */
  function HandleGenerateStory(
    storyName: string, language: string, apiKeyPresent: bool,
    complete: Prompt -> Completion, parse: string -> Option<ParsedStory>, storyId: string): (resp: Response)
    ensures resp.ErrorResponse? ==> resp.status == 500
    ensures !apiKeyPresent ==> resp == ErrorResponse(500, "OpenAI API key not found")
    ensures apiKeyPresent && complete(ChoosePrompt(storyName, language)).ApiFailed? ==>
      var message := complete(ChoosePrompt(storyName, language)).message;
      resp == ErrorResponse(500, "OpenAI API error: " + (if message.None? || message.value == "" then "Unknown error" else message.value))
    ensures apiKeyPresent && complete(ChoosePrompt(storyName, language)).Completed? ==>
      var parsed := parse(StripFences(complete(ChoosePrompt(storyName, language)).content));
      (parsed.None? || parsed.value.segments.None?) ==> resp == ErrorResponse(500, ParseFailure)
    ensures resp.StoryResponse? <==>
      && apiKeyPresent
      && complete(ChoosePrompt(storyName, language)).Completed?
      && var parsed := parse(StripFences(complete(ChoosePrompt(storyName, language)).content));
      && parsed.Some? && parsed.value.segments.Some?
    ensures resp.StoryResponse? ==>
      && apiKeyPresent
      && complete(ChoosePrompt(storyName, language)).Completed?
      && var parsed := parse(StripFences(complete(ChoosePrompt(storyName, language)).content));
      && parsed.Some? && parsed.value.segments.Some?
      && resp.story == StoryPayload(storyId, parsed.value.title, parsed.value.titleFr,
                                    Some(FormatSegments(parsed.value.segments.value)))
  {
    var prompt := ChoosePrompt(storyName, language);
    if !apiKeyPresent then ErrorResponse(500, "OpenAI API key not found")
    else
      match complete(prompt)
      case ApiFailed(message) =>
        ErrorResponse(500, "OpenAI API error: " + (if message.None? || message.value == "" then "Unknown error" else message.value))
      case Completed(content) =>
        match parse(StripFences(content))
        case None => ErrorResponse(500, ParseFailure)
        case Some(parsed) =>
          match parsed.segments
          case None => ErrorResponse(500, ParseFailure)
          case Some(segments) =>
            StoryResponse(StoryPayload(storyId, parsed.title, parsed.titleFr, Some(FormatSegments(segments))))
  }
}

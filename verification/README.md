# StorIA story core in Dafny

StorIA is a children's story teller. A robot face shows each segment's emotion while a speech engine reads the segment aloud, in English or French. A story is either picked from a catalogue by a fuzzy title match or generated by a language model on request.

This project models the logic under that experience as pure Dafny functions, with proofs about them:

- the story data model and its bundled two-story sample catalogue;
- the Levenshtein distance table and the best-match title search;
- the client story service: emotion validation, catalogue fetch with sample fallback, lazy segment loading, and reception of a generated story;
- the `useStoryOperations` hook: catalogue loading, and answering a request by telling the matching story or generating a new one;
- the `StoryTeller` component as a transition system. Its events are select, speech-end, play, pause, stop and language change. It emits a log of `Speak`/`Cancel` commands;
- the `StorySearch` component's substring title search, typed and spoken;
- the clickable title-list formatter, as the sequence of pieces it renders;
- the `generate-story` serverless function: prompt choice, code-fence stripping, generator-side emotion validation with its substring table, and segment renumbering;
- the `text-to-speech` serverless function: request checks, voice fallback, error message, and the 1024-byte chunked binary-string loop.

The JavaScript string built-ins these rely on are modelled in `text.dfy`. They are `toLowerCase`, `trim`, `includes`/`indexOf`, `split`, `join`, and the decimal rendering inside template literals. Network, database, model and speech-engine results are function parameters. There is one module per source file, plus `Wrappers` (`Option`, `Result`), `Text` and `Emotions`.

Two emotion vocabularies meet in this code:

- the generation function knows eight tags (`excited happy sad afraid disgusted confused angry neutral`);
- the client's `Emotion` type knows five (`happy sad surprised angry neutral`).

`Emotions.Emotion` is their union, and the predicates `ServerTag` and `ClientTag` pick out each set.

## Model

| member | source | states |
|---|---|---|
| Emotions.FromName | supabase/functions/generate-story/index.ts:10 | the tag spelled exactly `s` is found when one exists, and `None` means no tag has that spelling |
| Emotions.FromNameOfName | supabase/functions/generate-story/index.ts:10 | tag spellings are distinct: reading back a tag's name gives the same tag |
| Emotions.SharedTags | src/services/storyService.ts:9 | the generator's eight tags and the client's five share exactly happy, sad, angry and neutral; surprised is the one client tag the generator never has |
| StoryModel.FindSample | src/services/storyService.ts:74 | the sample found carries the requested id; `None` means no sample has it |
| StoryModel.SampleStoriesWellFormed | src/types/story.ts:25-110 | every sample story has its segments loaded, five of them, numbered 1..5 in array order, with distinct ids |
| StoryModel.ForestSegmentsWellFormed | src/types/story.ts:26-67 | "The Forest Adventure" has five segments numbered 1..5 in order, with distinct ids |
| StoryModel.JourneySegmentsWellFormed | src/types/story.ts:68-109 | "Journey to the Stars" has five segments numbered 1..5 in order, with distinct ids |
| StoryModel.SampleIdsDistinct | src/types/story.ts:25-110 | the two sample ids differ, so the fallback lookup by id is unambiguous |
| StoryModel.SampleEmotions | src/types/story.ts:25-110 | samples only use happy, sad, confused and angry; confused, used in the forest story's third segment, is not a client tag |
| Text.ToLowerIsLower | src/utils/stringMatching.ts:40 | lower-casing yields lower-case text and lower-casing twice equals lower-casing once |
| Text.Trim | supabase/functions/generate-story/index.ts:118 | the trimmed text starts and ends with non-whitespace, is a slice of the input, and only whitespace was removed on either side |
| Text.Normalize | src/utils/stringMatching.ts:40 | `toLowerCase().trim()` gives text that is trimmed and lower-case |
| Text.NormalizeIdempotent | src/hooks/useStoryOperations.ts:82 | normalising an already normalised term changes nothing |
| Text.IndexFrom | src/components/StorySearch.tsx:20 | `indexOf` from `k` returns the first position at or after `k` where the pattern occurs, and `None` only when it occurs nowhere from `k` |
| Text.Split | supabase/functions/generate-story/index.ts:76 | `split` with a non-empty separator: joining the pieces gives the input back, no piece contains the separator, there are two or more pieces exactly when the separator occurs, and the first piece is the text before its first occurrence |
| Text.SplitSecond | supabase/functions/generate-story/index.ts:76 | the second piece of a split is the text after the first separator, up to the next one |
| Text.NatToString | supabase/functions/generate-story/index.ts:89 | a number renders as the decimal digits that spell it, most significant first and with no leading zero; one digit exactly when the number is below ten |
| Text.NatToStringInjective | supabase/functions/generate-story/index.ts:89 | different numbers render as different strings |
| StringMatching.LevenshteinDistance | src/utils/stringMatching.ts:5-32 | the table-filling loop returns the Levenshtein distance of the two strings, defined by the edit-distance recurrence on prefixes |
| StringMatching.EditDistanceBounds | src/utils/stringMatching.ts:5-32 | the distance of two prefixes is at least their length difference and at most the longer length |
| StringMatching.DistanceToSelf | src/utils/stringMatching.ts:17-29 | a string is at distance zero from itself |
| StringMatching.DistanceToEmpty | src/utils/stringMatching.ts:10-15 | against the empty string the distance is the other string's length, in both argument orders |
| StringMatching.EditDistanceSymmetric | src/utils/stringMatching.ts:17-29 | the distance does not depend on the order of its arguments |
| StringMatching.ZeroDistanceMeansEqual | src/utils/stringMatching.ts:17-29 | distance zero forces the two prefixes to be equal |
| StringMatching.DistanceProperties | src/utils/stringMatching.ts:5-32 | for whole strings: zero exactly when equal (both directions), symmetric, and between the length difference and the longer length |
| StringMatching.Scan | src/utils/stringMatching.ts:44-53 | the loop's result is either no candidate, when none is within the threshold, or the first candidate with the smallest distance, which is within the threshold |
| StringMatching.FindBestMatchingStory | src/utils/stringMatching.ts:37-56 | the empty term gives no match; otherwise there is no match exactly when no title is within the threshold of the normalised term, and a match is the active-language title of the first closest story |
| StringMatching.NormalizationIdempotent | src/utils/stringMatching.ts:38-40 | a caller that normalises the term first gets the same answer, as long as the normalised term is not empty |
| StringMatching.WhitespaceTermStillCompared | src/utils/stringMatching.ts:38-40 | only the literal empty term is refused: `" "` trims to `""` and still matches the title "Ab", while `""` matches nothing |
| GenerateStory.FirstMappingFrom | supabase/functions/generate-story/index.ts:166-170 | the table walk returns the first entry whose key occurs in the input, or reports that no key occurs |
| GenerateStory.ValidateEmotion | supabase/functions/generate-story/index.ts:117-174 | the result is always one of the eight generator tags; an exact tag after lower-casing and trimming is kept; otherwise the first key found decides; without any key the result is neutral |
| GenerateStory.ValidateEmotionMapped | supabase/functions/generate-story/index.ts:166-170 | an input that is not a tag gets exactly the tag of the first table key it contains |
| GenerateStory.MappingsAreServerTags | supabase/functions/generate-story/index.ts:126-164 | every tag in the variation table is one of the eight |
| GenerateStory.FirstMappingUnique | supabase/functions/generate-story/index.ts:166-170 | the first key found is unique, so the table walk is deterministic |
| GenerateStory.ShadowedKeys | supabase/functions/generate-story/index.ts:126-170 | the keys "unhapp" (sad) and "overjoyed" (excited) can never decide a tag, because the earlier keys "happ" and "joy" (happy) are inside them |
| GenerateStory.NamesAreLowerLetters | supabase/functions/generate-story/index.ts:10 | every tag name consists of lower-case ASCII letters |
| GenerateStory.LowerLettersNormalized | supabase/functions/generate-story/index.ts:118 | a word of lower-case ASCII letters is unchanged by lower-casing and trimming |
| GenerateStory.NameIsNormalized | supabase/functions/generate-story/index.ts:118-122 | tag names are unchanged by the normalisation the validator applies |
| GenerateStory.ValidateEmotionIdempotent | supabase/functions/generate-story/index.ts:117-174 | validating the name of a validated tag gives the same tag |
| GenerateStory.NormalizeHappy | supabase/functions/generate-story/index.ts:118 | `" Happy "` lower-cases and trims to `"happy"` |
| GenerateStory.ValidateEmotionExactTag | supabase/functions/generate-story/index.ts:118-123 | `" Happy "` is accepted as happy, whatever its case and surrounding spaces |
| GenerateStory.ValidateEmotionUnhappy | supabase/functions/generate-story/index.ts:126-170 | "unhappy" becomes happy, because "happ" is checked before "unhapp" |
| GenerateStory.SurpriseFirstMapping | supabase/functions/generate-story/index.ts:126-142 | in "surprise" no key before "surp" occurs and "surp" does, so entry "surp" (confused) decides |
| GenerateStory.ValidateEmotionSurprise | supabase/functions/generate-story/index.ts:117-170 | "surprise", which is not a generator tag, becomes confused |
| GenerateStory.ValidateEmotionEmpty | supabase/functions/generate-story/index.ts:172-173 | an empty emotion falls back to neutral |
| GenerateStory.CutAtFence | supabase/functions/generate-story/index.ts:76 | cutting at the first "```json" and then at "```" equals cutting at the first "```", when the text has no run of four backticks |
| GenerateStory.StripJsonFence | supabase/functions/generate-story/index.ts:75-76 | with a "```json" fence, the text handed to the JSON parser is the trimmed text between that fence and the next "```" |
| GenerateStory.StripPlainFence | supabase/functions/generate-story/index.ts:77-78 | with plain fences only, the parser gets the trimmed text between the first fence and the next one, or after the only one |
| GenerateStory.StripNoFence | supabase/functions/generate-story/index.ts:74-81 | a reply without fences reaches the parser unchanged and untrimmed |
| GenerateStory.ChoosePrompt | supabase/functions/generate-story/index.ts:23-36 | the English prompt is chosen exactly for code "en", and a titled story is requested exactly when the name is non-empty |
| GenerateStory.GeneratedIdsDistinct | supabase/functions/generate-story/index.ts:89 | segment ids `generated-<index>` at different positions differ |
| GenerateStory.FormatSegments | supabase/functions/generate-story/index.ts:84-95 | count and order are kept, texts are copied, segment i is numbered i + 1, its id is `generated-i`, ids are distinct, and each emotion is the validated spelling of one of the eight tags |
| GenerateStory.HandleGenerateStory | supabase/functions/generate-story/index.ts:21-113 | every failure is a 500: a missing key, a model error (its message or "Unknown error"), or an unparsable reply or one without segments. A story is answered exactly when the model replied and its fence-stripped reply parsed with segments, and it then carries the parsed titles and the formatted segments |
| StoryService.ValidateEmotion | src/services/storyService.ts:8-13 | the result is a client tag; it equals the input exactly when the input spells a client tag (case-sensitive, untrimmed), and is neutral otherwise |
| StoryService.ValidateEmotionIdempotent | src/services/storyService.ts:8-13 | validating a validated tag's name changes nothing |
| StoryService.ClientViewOfServerTag | src/services/storyService.ts:8-13 | a generator tag survives client validation exactly when it is happy, sad, angry or neutral; the rest become neutral; surprised never results |
| StoryService.TypedSegments | src/services/storyService.ts:58-61 | each row becomes one segment in place, with its emotion validated |
| StoryService.FetchStories | src/services/storyService.ts:16-41 | success is reported exactly when the query returned rows, and then they are the catalogue; otherwise the samples are returned; the result is never empty |
| StoryService.FetchStorySegments | src/services/storyService.ts:44-84 | loaded segments (even an empty list) are kept unchanged; a query error is passed on; rows become the story's validated segments; without rows the same-id sample or an error results; success always has segments |
| StoryService.FetchStorySegmentsIdempotent | src/services/storyService.ts:44-71 | a story that loaded is returned unchanged by a second load, whatever the database answers then |
| StoryService.GenerateAIStory | src/services/storyService.ts:87-117 | success exactly when the call returned a body with segments; a call error is passed on; success keeps id and titles and validates every segment's emotion |
| StoryService.Receive | src/services/storyService.ts:92-99 | an error status of the generation function reaches the client as an invocation error, and a story response as its body |
| StoryService.GeneratedEmotionsComposed | src/services/storyService.ts:105-112 | for a generated story that reaches the player, each segment shows the generator's tag when the client also knows it and neutral otherwise, so surprised never appears |
| StoryOperations.Initial | src/hooks/useStoryOperations.ts:17-19 | the hook starts with the given stories, not loading, action "fetching" |
| StoryOperations.LoadStories | src/hooks/useStoryOperations.ts:23-46 | loading is flagged while fetching; afterwards the catalogue is the fetched list, or the samples together with a fallback notice, and it is never empty |
| StoryOperations.FindByTitleFrom | src/hooks/useStoryOperations.ts:92-94 | the lookup returns the first story, from position k on, whose lower-cased title equals the lower-cased best match |
| StoryOperations.FindByTitle | src/hooks/useStoryOperations.ts:92-94 | the lookup returns the first story whose lower-cased active-language title equals the lower-cased best match, or none when no title does |
| StoryOperations.FoundIsBest | src/hooks/useStoryOperations.ts:91-94 | looking up the first closest story's title lands on that same story, not on an earlier namesake |
| StoryOperations.BestMatchFound | src/hooks/useStoryOperations.ts:91-94 | for a term that normalises to a non-empty string, a best match always leads back to a story, which is the first closest one within the threshold; no best match means no story is within it |
| StoryOperations.BestStory | src/hooks/useStoryOperations.ts:91-96 | the story to tell exists exactly when the fuzzy search matched a non-empty title (an empty best title is falsy), and it is the first closest story within the threshold |
| StoryOperations.TellExistingStory | src/hooks/useStoryOperations.ts:48-58 | the story is selected with its segments loaded, or a failure notice is raised instead |
| StoryOperations.GenerateAndTellStory | src/hooks/useStoryOperations.ts:60-78 | generation is announced first, naming the title or saying "random"; then the generated story is selected or a failure notice follows |
| StoryOperations.HandleStoryRequest | src/hooks/useStoryOperations.ts:80-113 | a term that normalises to "" asks for a random story; otherwise an existing story is told exactly when the fuzzy search matched a non-empty title, and it is the first closest one; otherwise a story is generated from the term as typed. The loading action is "searching" exactly when an existing story is told. Loading is cleared at the end and the catalogue is never changed |
| StoryOperations.ExactTitleIsBest | src/hooks/useStoryOperations.ts:91-94 | a story whose lower-cased title equals the term is at distance zero, so the first such story is the first closest one |
| StoryOperations.ExactTitleIsBestStory | src/hooks/useStoryOperations.ts:91-96 | a request naming a title exactly, up to case and surrounding whitespace, picks the first story with that title |
| StoryOperations.ExactTitleIsTold | src/hooks/useStoryOperations.ts:80-102 | such a request tells that story and leaves the catalogue unchanged |
| StoryOperations.EmptyBestTitleGenerates | src/hooks/useStoryOperations.ts:91-101 | when the best match is a story with an empty title, the request generates a story about the term instead of telling that story |
| StoryTeller.Initial | src/components/StoryTeller.tsx:14-18 | the teller mounts with no story, index 0, not playing, neutral, no text |
| StoryTeller.StopStory | src/components/StoryTeller.tsx:78-83 | stopping clears the story, resets the index, stops playing and cancels speech |
| StoryTeller.Handle | src/components/StoryTeller.tsx:25-83 | only a language change changes the language; handlers never touch the shown emotion or text; pause, stop, and a speech end with no next segment each cancel speech once |
| StoryTeller.Derive | src/components/StoryTeller.tsx:39-59 | afterwards the display shows the current segment's emotion and active-language text; story, index, playing and language are unchanged; it speaks that text while playing and cancels otherwise; without a current segment nothing happens |
| StoryTeller.Step | src/components/StoryTeller.tsx:25-83 | after any event and its effect the display matches the current segment |
| StoryTeller.SelectSpeaksFirstSegment | src/components/StoryTeller.tsx:62-66 | selecting a story with segments starts it at segment 0, shows its emotion, and speaks its text in the active language |
| StoryTeller.SpeechEndAdvances | src/components/StoryTeller.tsx:25-32 | the end of an utterance before the last segment advances by exactly one and speaks the next segment, or cancels when paused |
| StoryTeller.SpeechEndAtLastStops | src/components/StoryTeller.tsx:25-32 | at the last segment, or with no story, the end of an utterance stops the teller with one cancel |
| StoryTeller.StopClears | src/components/StoryTeller.tsx:78-83 | stop clears story and index and stops playing with a single cancel, leaving the shown emotion and text |
| StoryTeller.PauseThenPlay | src/components/StoryTeller.tsx:69-76 | pause keeps story and index and cancels twice (handler and effect); a later play speaks the current segment again from its start |
| StoryTeller.LanguageChangeRespeaks | src/components/StoryTeller.tsx:39-59 | switching language keeps story, index, playing state and emotion, shows the text in the new language, and speaks it without cancelling first, or cancels when paused |
| StoryTeller.StepKeepsWellFormed | src/components/StoryTeller.tsx:25-83 | when selected stories have segments, the index never leaves the loaded story |
| StoryTeller.RunKeepsWellFormed | src/components/StoryTeller.tsx:25-83 | over any sequence of such events the index stays inside the story, and after at least one event the display matches the current segment |
| StoryTeller.NarrateRest | src/components/StoryTeller.tsx:25-59 | while playing, the remaining utterance ends speak every later segment once, in order, then stop with one cancel |
| StoryTeller.NarrateStory | src/components/StoryTeller.tsx:25-66 | selecting a story with n segments and letting n utterances end narrates every segment once, in order and in the active language, then cancels and unloads the story |
| StorySearch.FirstMatchFrom | src/components/StorySearch.tsx:19-21 | `find` over the titles from k returns the first whose lower-cased text contains the lower-cased search, or none when none does |
| StorySearch.FirstMatch | src/components/StorySearch.tsx:19-21 | the story found is the first whose lower-cased English title contains the lower-cased search; none is found only when no title does |
| StorySearch.Search | src/components/StorySearch.tsx:18-26 | a story is selected exactly when some English title contains the search, and it is the first such story |
| StorySearch.VoiceSearch | src/components/StorySearch.tsx:28-41 | a transcript becomes the search text and selects by the same rule as a typed search |
| StorySearch.EmptySearchSelectsFirst | src/components/StorySearch.tsx:19-21 | an empty search selects the first story |
| StorySearch.FrenchTitlesIgnored | src/components/StorySearch.tsx:33-35 | lists whose English titles agree position by position select the same story position, whatever their French titles |
| StoryFormatters.TitleFor | src/utils/storyFormatters.tsx:15-26 | a title piece shows the active-language title in double quotes and reports the bare title when clicked |
| StoryFormatters.Reduce | src/utils/storyFormatters.tsx:40-44 | the reduction without an initial value alternates titles and ", " separators, because every reducer step has an index of 1 or more |
| StoryFormatters.FormatStoryTitleList | src/utils/storyFormatters.tsx:8-49 | nothing for no stories; otherwise 2n-1 pieces with story k's title at position 2k; two titles are separated by "  or  " / "  ou  "; longer lists by ", " and finally ", or " / ", ou " |
| StoryFormatters.TitlesOfAlternation | src/utils/storyFormatters.tsx:28-48 | in a rendering that alternates titles and separators, the title pieces are exactly the titles, in order |
| StoryFormatters.TitlesInOrder | src/utils/storyFormatters.tsx:8-49 | every story's title appears exactly once, in input order, and no separator is clickable |
| TextToSpeech.ChooseVoice | supabase/functions/text-to-speech/index.ts:26-27 | the voice sent upstream is always valid: the requested one when valid, "alloy" otherwise |
| TextToSpeech.SelectorVoicesAccepted | src/components/settings/VoiceSelector.tsx:54-74 | every voice the settings offer, including the default "nova", is accepted as is; none falls back to "alloy" |
| TextToSpeech.Chars | supabase/functions/text-to-speech/index.ts:58 | the binary string has one character per byte, carrying the byte's code, in order |
| TextToSpeech.BinaryString | supabase/functions/text-to-speech/index.ts:52-59 | the chunked loop yields one character per audio byte, in order; its chunks are the non-empty 1024-byte slices at offsets 0, 1024, ..., all full except the last, and they concatenate to the audio |
| TextToSpeech.HandleTextToSpeech | supabase/functions/text-to-speech/index.ts:18-76 | every failure is a 400: unreadable JSON with its message, a missing or empty text, or the speech API's message or the default. Audio is answered exactly when the text is present and the API produced audio, and it is the base64 of the binary string of that audio |

## Left out

- Network, database, serverless-function and language-model calls: their results are parameters. These are `Query` rows, `Invocation`, the `complete` and `parse` functions, the `speech` upstream and the `base64` encoder. `JSON.parse` and `btoa` are not modelled.
- Timers: the 100 ms delay before speaking (src/components/StoryTeller.tsx:51-53) and the 1000 ms delay of the spoken search (src/components/StorySearch.tsx:32-40). Each event is treated as atomic.
- React scheduling: the effect is modelled as running once after every event. This is because `speak` and `cancel` are new functions on every render.
  - React skips the render, and so the effect, when an event changes no state (play while playing, choosing the active language). The model still runs the effect, and so it speaks again.
  - The effect's own updates of the shown emotion and text cause one more render, and that render's effect speaks the same text again. The model runs the effect once per event.
  - Stale closures over `currentStory` and the index are not modelled.
  - The speech hook re-creates its utterance, and its cleanup cancels speech, whenever `onEnd` changes identity (src/hooks/useSpeechSynthesis.ts). This is not modelled.
  - Story identity is value equality.
- The speech engine's pause/resume, rate and pitch, and speech recognition: they are browser APIs.
- UI rendering, CSS, toasts' wording (notices are an enumeration), settings, password form, robot images and the GIF scripts under `public/`.
- CORS preflight handling of both serverless functions, and `console` logging.
- `generate-story` with an unreadable request body: it answers 500 with the parser's message. This path is not modelled; the handler takes the decoded name and language.
- The exact wording of the four generation prompts and the system prompt. `ChoosePrompt` models only which prompt is chosen.
- `crypto.randomUUID()` is the `storyId` parameter.
- Text.LowerChar: `toLowerCase` maps ASCII and Latin-1 capitals only. Other scripts' case mappings are not modelled.
- GenerateStory.CutAtFence and GenerateStory.StripJsonFence: assume the reply has no run of four backticks. With one, a "```" can overlap the following "```json" and the two cuts differ.
- StringMatching.LevenshteinDistance: strings are sequences of Unicode scalar values, while `.length` and indexing in src/utils/stringMatching.ts:6-19 count UTF-16 code units. A character outside the Basic Multilingual Plane (an emoji) costs one edit in the model and two in the source, so a title with such characters can fall on the other side of the threshold of 5. Text made of Basic Multilingual Plane characters gives the same distances.
- StringMatching.NormalizationIdempotent: holds only when the normalised term is non-empty. A whitespace-only term is still compared, as `WhitespaceTermStillCompared` shows.
- StoryOperations.HandleStoryRequest: the outer catch ("Something went wrong") is not modelled. It is unreachable, because both helpers catch their own errors.
- StoryOperations.HandleStoryRequest: a failed segment fetch only raises a notice; it selects nothing and does not fall back to generating a story (src/hooks/useStoryOperations.ts:48-58).
- StoryTeller.LanguageChangeRespeaks: a language change while speaking does not cancel the current utterance first; the effect (src/components/StoryTeller.tsx:48-53) only speaks again.
- StoryOperations.HandleStoryRequest: there is no guard against stale replies of overlapping requests, and each request is modelled on its own.
- StoryOperations.HandleStoryRequest: `findBestMatchingStory`'s `threshold` is fixed at its default of 5, as the hook passes none.
- TextToSpeech.HandleTextToSpeech: a non-string `voice` is modelled as an absent one, and both fall back to "alloy".

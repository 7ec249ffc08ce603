/** The `StorySearch` component that the story teller mounts: a typed or
    spoken search selects the first story whose lower-cased English title
    contains the lower-cased search text. */
module StorySearch {
  import opened Wrappers
  import opened Text
  import opened StoryModel

  /** The match test shared by the typed and the spoken search. */
  predicate TitleMatches(title: string, search: string) {
    Contains(ToLower(title), ToLower(search))
  }

  /** The English titles of a list, in order. */
  function EnglishTitles(stories: seq<Story>): (titles: seq<string>)
    ensures |titles| == |stories| && forall j :: 0 <= j < |stories| ==> titles[j] == stories[j].title
  {
    seq(|stories|, j requires 0 <= j < |stories| => stories[j].title)
  }

  /** `find` over the titles from position `k` on, as the index found. */
  function FirstMatchFrom(titles: seq<string>, search: string, k: nat): (r: Option<nat>)
    requires k <= |titles|
    ensures r.Some? ==> k <= r.value < |titles| && TitleMatches(titles[r.value], search)
    ensures r.Some? ==> forall j :: k <= j < r.value ==> !TitleMatches(titles[j], search)
    ensures r.None? <==> forall j :: k <= j < |titles| ==> !TitleMatches(titles[j], search)
    decreases |titles| - k
  {
    if k == |titles| then None
    else if TitleMatches(titles[k], search) then Some(k)
    else FirstMatchFrom(titles, search, k + 1)
  }

  /** `availableStories.find(...)`, as the index of the story found. Only
      the English titles are consulted. */
  function FirstMatch(stories: seq<Story>, search: string): (r: Option<nat>)
    ensures r.Some? ==> r.value < |stories| && TitleMatches(stories[r.value].title, search)
    ensures r.Some? ==> forall j :: 0 <= j < r.value ==> !TitleMatches(stories[j].title, search)
    ensures r.None? <==> forall j :: 0 <= j < |stories| ==> !TitleMatches(stories[j].title, search)
  {
    FirstMatchFrom(EnglishTitles(stories), search, 0)
  }

  /** `handleStoryRequest`: the story to hand to `onStorySelect`, if any. */
  function Search(stories: seq<Story>, search: string): (selected: Option<Story>)
    ensures selected.None? <==> forall j :: 0 <= j < |stories| ==> !TitleMatches(stories[j].title, search)
    ensures selected.Some? ==>
      exists k :: (0 <= k < |stories| && selected.value == stories[k]
        && TitleMatches(stories[k].title, search)
        && forall j :: 0 <= j < k ==> !TitleMatches(stories[j].title, search))
  {
    match FirstMatch(stories, search)
    case None => None
    case Some(k) => Some(stories[k])
  }

  /** `handleSearchResult`: the transcript becomes the search text and is
      matched by the same rule (the one-second delay is not modelled). */
  function VoiceSearch(stories: seq<Story>, transcript: string): (r: (string, Option<Story>))
    ensures r.0 == transcript
    ensures r.1 == Search(stories, r.0)
  {
    (transcript, Search(stories, transcript))
  }

  /** Every title contains the empty search, so it picks the first story. */
  lemma EmptySearchSelectsFirst(stories: seq<Story>)
    requires |stories| > 0
    ensures Search(stories, "") == Some(stories[0])
  {
    ContainsEmpty(ToLower(stories[0].title));
  }

  /** Only the English titles take part: lists whose English titles agree
      position by position (their French titles, ids and segments may
      differ) select the same position, for typed and spoken search. */
  lemma FrenchTitlesIgnored(stories: seq<Story>, others: seq<Story>, search: string)
    requires |stories| == |others|
    requires forall k :: 0 <= k < |stories| ==> others[k].title == stories[k].title
    ensures FirstMatch(stories, search) == FirstMatch(others, search)
    ensures VoiceSearch(others, search).1.Some? <==> VoiceSearch(stories, search).1.Some?
  {
    assert EnglishTitles(stories) == EnglishTitles(others);
  }
}

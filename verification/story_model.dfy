/** The story data model and the bundled sample catalogue.

    A `Story` carries its segments only once they are loaded: `segments` is
    `None` for a catalogue row fetched without them, which is the state the
    segment loader tests for. Data arriving from the database or from the
    generation function is a `SegmentRow`, whose emotion is still a free-form
    string; the client turns rows into `Segment`s by validating the emotion. */
module StoryModel {
  import opened Wrappers
  import opened Emotions

  /** The interface language: `'en'` or `'fr'`. */
  datatype Language = En | Fr

  datatype Segment = Segment(id: string, text: string, textFr: string, emotion: Emotion, sequenceOrder: int)

  datatype Story = Story(id: string, title: string, titleFr: string, segments: Option<seq<Segment>>)

  /** A segment as the database or the generation function delivers it. */
  datatype SegmentRow = SegmentRow(id: string, text: string, textFr: string, emotion: string, sequenceOrder: int)

  /** A story as JSON on the wire (the generation function's response body):
      segments are rows whose emotion has not been validated by the client. */
  datatype StoryPayload = StoryPayload(id: string, title: string, titleFr: string, segments: Option<seq<SegmentRow>>)

  /** The title shown in the active language. */
  function TitleFor(story: Story, lang: Language): string {
    if lang == En then story.title else story.titleFr
  }

  /** The text narrated in the active language. */
  function SegmentText(segment: Segment, lang: Language): string {
    if lang == En then segment.text else segment.textFr
  }

  /** Segments numbered 1, 2, 3, ... in array order. */
  predicate DenselyOrdered(segments: seq<Segment>) {
    forall k :: 0 <= k < |segments| ==> segments[k].sequenceOrder == k + 1
  }

  predicate DistinctSegmentIds(segments: seq<Segment>) {
    forall i, j :: 0 <= i < j < |segments| ==> segments[i].id != segments[j].id
  }

  // ---------------------------------------------------------------------------
  // The sample catalogue used when the database is unavailable

  const ForestAdventure := Story(
    "forest-adventure",
    "The Forest Adventure",
    "L'Aventure dans la Forêt",
    Some([
      Segment("1",
        "Once upon a time, there was a little bunny named Hop who lived in a cozy forest.",
        "Il était une fois, un petit lapin nommé Hop qui vivait dans une forêt douillette.",
        Happy, 1),
      Segment("2",
        "One day, dark clouds gathered above the forest, and it started to rain heavily.",
        "Un jour, des nuages sombres se rassemblèrent au-dessus de la forêt, et il commença à pleuvoir fortement.",
        Sad, 2),
      Segment("3",
        "Suddenly, Hop saw a bright flash of lightning that struck a nearby tree!",
        "Soudain, Hop vit un éclair brillant qui frappa un arbre proche !",
        Confused, 3),
      Segment("4",
        "The storm growled louder and louder, making Hop feel scared.",
        "L'orage grondait de plus en plus fort, faisant peur à Hop.",
        Angry, 4),
      Segment("5",
        "But then, Hop remembered the warm burrow where all his family waited. He hopped quickly through the rain and made it safely home.",
        "Mais alors, Hop se souvint du terrier chaud où toute sa famille l'attendait. Il sauta rapidement à travers la pluie et rentra chez lui en sécurité.",
        Happy, 5)
    ]))

  const JourneyToTheStars := Story(
    "space-journey",
    "Journey to the Stars",
    "Voyage vers les Étoiles",
    Some([
      Segment("1",
        "Zara was a little girl who loved looking at the stars every night before bed.",
        "Zara était une petite fille qui adorait regarder les étoiles chaque soir avant de se coucher.",
        Happy, 1),
      Segment("2",
        "One night, she noticed that her favorite star was missing from the sky!",
        "Une nuit, elle remarqua que son étoile préférée avait disparu du ciel !",
        Confused, 2),
      Segment("3",
        "Zara felt worried that something bad had happened to her star.",
        "Zara s'inquiétait qu'il soit arrivé quelque chose de grave à son étoile.",
        Sad, 3),
      Segment("4",
        "She decided to build a rocket ship from her bed sheets and pillows to go find it!",
        "Elle décida de construire une fusée avec ses draps de lit et ses oreillers pour partir à sa recherche !",
        Happy, 4),
      Segment("5",
        "When she reached space in her imagination, she discovered her star had just been hiding behind a cloud.",
        "Lorsqu'elle atteignit l'espace dans son imagination, elle découvrit que son étoile s'était simplement cachée derrière un nuage.",
        Happy, 5)
    ]))

  const SampleStories: seq<Story> := [ForestAdventure, JourneyToTheStars]

  /** `SAMPLE_STORIES.find(s => s.id === id)`. */
  function FindSample(id: string): (r: Option<Story>)
    ensures r.Some? ==> r.value in SampleStories && r.value.id == id
    ensures r.None? ==> forall s :: s in SampleStories ==> s.id != id
  {
    if ForestAdventure.id == id then Some(ForestAdventure)
    else if JourneyToTheStars.id == id then Some(JourneyToTheStars)
    else None
  }

  /** Each sample story is loaded, has five segments numbered 1..5 in array
      order, and its segment ids are distinct. */
  lemma SampleStoriesWellFormed()
    ensures forall s :: s in SampleStories ==>
      && s.segments.Some?
      && |s.segments.value| == 5
      && DenselyOrdered(s.segments.value)
      && DistinctSegmentIds(s.segments.value)
  {
    WellFormedSample(ForestAdventure);
    WellFormedSample(JourneyToTheStars);
  }

  lemma WellFormedSample(s: Story)
    requires s == ForestAdventure || s == JourneyToTheStars
    ensures s.segments.Some? && |s.segments.value| == 5
    ensures DenselyOrdered(s.segments.value) && DistinctSegmentIds(s.segments.value)
  {
    if s == ForestAdventure {
      ForestSegmentsWellFormed();
    } else {
      JourneySegmentsWellFormed();
    }
  }

  lemma ForestSegmentsWellFormed()
    ensures var segments := ForestAdventure.segments.value;
      |segments| == 5 && DenselyOrdered(segments) && DistinctSegmentIds(segments)
  {
  }

  lemma JourneySegmentsWellFormed()
    ensures var segments := JourneyToTheStars.segments.value;
      |segments| == 5 && DenselyOrdered(segments) && DistinctSegmentIds(segments)
  {
  }

  /** The two sample ids differ, so the fallback lookup by id is unambiguous. */
  lemma SampleIdsDistinct()
    ensures forall i, j :: 0 <= i < j < |SampleStories| ==> SampleStories[i].id != SampleStories[j].id
  {
  }

  /** The samples only use happy, sad, confused and angry; `confused` is not a
      client tag, so the sample fallback can hand the player a tag the client
      validator would have turned into `neutral`. */
  lemma SampleEmotions()
    ensures forall s, k :: s in SampleStories && s.segments.Some? && 0 <= k < |s.segments.value| ==>
      s.segments.value[k].emotion in {Happy, Sad, Confused, Angry}
    ensures ForestAdventure.segments.value[2].emotion == Confused && !ClientTag(Confused)
  {
  }
}

/** The `StoryTeller` component as a transition system. The player state is
    the component's React state plus the active language; events are the
    user's controls, a story selection and the end of an utterance. Every
    event runs its handler and then the component's effect, which shows the
    current segment's emotion and text and either speaks the text (while
    playing) or cancels speech. Narration is the log of `Speak` and `Cancel`
    commands sent to the speech engine. */
module StoryTeller {
  import opened Wrappers
  import opened Emotions
  import opened StoryModel

  datatype Command = Speak(text: string) | Cancel

  datatype Player = Player(
    story: Option<Story>, index: nat, playing: bool, emotion: Emotion, text: string, language: Language)

  datatype Event =
    | Select(selected: Story)
    | SpeechEnd
    | Play
    | Pause
    | Stop
    | ChangeLanguage(lang: Language)

  /** The component as mounted: no story, index 0, not playing, neutral, no text. */
  function Initial(lang: Language): (p: Player)
    ensures p.story.None? && p.index == 0 && !p.playing && p.emotion == Neutral && p.text == ""
  {
    Player(None, 0, false, Neutral, "", lang)
  }

  /** `currentStory.segments[currentSegmentIndex]` exists. */
  predicate HasSegment(p: Player) {
    p.story.Some? && p.story.value.segments.Some? && p.index < |p.story.value.segments.value|
  }

  function CurrentSegment(p: Player): Segment
    requires HasSegment(p)
  {
    p.story.value.segments.value[p.index]
  }

  /** The display shows the current segment, in the active language. */
  predicate Synced(p: Player) {
    HasSegment(p) ==>
      p.emotion == CurrentSegment(p).emotion && p.text == SegmentText(CurrentSegment(p), p.language)
  }

  /** `stopStory`. */
  function StopStory(p: Player): (r: (Player, seq<Command>))
    ensures r.0 == p.(story := None, index := 0, playing := false)
    ensures r.1 == [Cancel]
  {
    (p.(story := None, index := 0, playing := false), [Cancel])
  }

  /** The component's event handlers, before the effect runs. */
  function Handle(p: Player, e: Event): (r: (Player, seq<Command>))
    ensures r.0.language == (if e.ChangeLanguage? then e.lang else p.language)
    ensures r.0.emotion == p.emotion && r.0.text == p.text
    ensures r.1 == (if e.Pause? || e.Stop? || (e.SpeechEnd? && !(HasSegment(p) && p.index + 1 < |p.story.value.segments.value|)) then [Cancel] else [])
  {
    match e
    case Select(story) => (p.(story := Some(story), index := 0, playing := true), [])
    case SpeechEnd =>
      if p.story.Some? && p.story.value.segments.Some? && p.index < |p.story.value.segments.value| - 1
      then (p.(index := p.index + 1), [])
      else StopStory(p)
    case Play => (p.(playing := true), [])
    case Pause => (p.(playing := false), [Cancel])
    case Stop => StopStory(p)
    case ChangeLanguage(lang) => (p.(language := lang), [])
  }

  /** The effect that follows the current segment: with a current segment,
      show its emotion and active-language text, then speak it if playing and
      cancel speech otherwise; without one, do nothing. */
  function Derive(p: Player): (r: (Player, seq<Command>))
    ensures Synced(r.0)
    ensures r.0.story == p.story && r.0.index == p.index && r.0.playing == p.playing && r.0.language == p.language
    ensures !HasSegment(p) ==> r == (p, [])
    ensures HasSegment(p) ==> r.1 == (if p.playing then [Speak(r.0.text)] else [Cancel])
  {
    if HasSegment(p) then
      var segment := CurrentSegment(p);
      var text := SegmentText(segment, p.language);
      (p.(emotion := segment.emotion, text := text), if p.playing then [Speak(text)] else [Cancel])
    else (p, [])
  }

  /** One event: its handler, then the effect. */
  function Step(p: Player, e: Event): (r: (Player, seq<Command>))
    ensures Synced(r.0)
  {
    var (q, before) := Handle(p, e);
    var (s, after) := Derive(q);
    (s, before + after)
  }

  /** A sequence of events, with the commands they emit in order. */
  function Run(p: Player, events: seq<Event>): (Player, seq<Command>)
    decreases |events|
  {
    if |events| == 0 then (p, [])
    else
      var (q, first) := Step(p, events[0]);
      var (s, rest) := Run(q, events[1..]);
      (s, first + rest)
  }

  // ---------------------------------------------------------------------------
  // Single events

  /** Selecting a story with segments starts it: index 0, playing, segment
      0's emotion shown and its text in the active language spoken. */
  lemma SelectSpeaksFirstSegment(p: Player, story: Story)
    requires story.segments.Some? && |story.segments.value| > 0
    ensures var (q, commands) := Step(p, Select(story));
      var first := story.segments.value[0];
      && q.story == Some(story) && q.index == 0 && q.playing
      && q.emotion == first.emotion && q.text == SegmentText(first, p.language)
      && commands == [Speak(SegmentText(first, p.language))]
  {
  }

  /** The end of an utterance before the last segment moves on by exactly
      one segment and speaks it (or cancels when paused). */
  lemma SpeechEndAdvances(p: Player)
    requires HasSegment(p) && p.index + 1 < |p.story.value.segments.value|
    ensures var (q, commands) := Step(p, SpeechEnd);
      && q.story == p.story && q.index == p.index + 1 && q.playing == p.playing
      && commands == (if p.playing then [Speak(SegmentText(CurrentSegment(q), p.language))] else [Cancel])
  {
  }

  /** At the last segment, or without a loaded story, the end of an
      utterance stops the player. */
  lemma SpeechEndAtLastStops(p: Player)
    requires !(HasSegment(p) && p.index + 1 < |p.story.value.segments.value|)
    ensures Step(p, SpeechEnd) == (p.(story := None, index := 0, playing := false), [Cancel])
  {
    var stopped := p.(story := None, index := 0, playing := false);
    assert Handle(p, SpeechEnd) == (stopped, [Cancel]);
    assert Derive(stopped) == (stopped, []);
    assert [Cancel] + [] == [Cancel];
  }

  /** Stop clears the story, resets the index, stops playing and cancels
      speech, leaving the shown emotion and text as they were. */
  lemma StopClears(p: Player)
    ensures var (q, commands) := Step(p, Stop);
      && q.story.None? && q.index == 0 && !q.playing
      && q.emotion == p.emotion && q.text == p.text
      && commands == [Cancel]
  {
  }

  /** Pause keeps the story and index and cancels speech (once by the
      handler and once by the effect); a later play speaks the current
      segment again from its start. */
  lemma PauseThenPlay(p: Player)
    requires HasSegment(p)
    ensures var (paused, pauseCommands) := Step(p, Pause);
      && paused.story == p.story && paused.index == p.index && !paused.playing
      && pauseCommands == [Cancel, Cancel]
      && var (resumed, playCommands) := Step(paused, Play);
      && resumed.story == p.story && resumed.index == p.index && resumed.playing
      && playCommands == [Speak(SegmentText(CurrentSegment(p), p.language))]
  {
  }

  /** Switching language keeps story, index, playing state and emotion, and
      speaks the current segment in the new language, or cancels when
      paused; no cancel precedes the new utterance. */
  lemma LanguageChangeRespeaks(p: Player, lang: Language)
    requires HasSegment(p) && Synced(p)
    ensures var (q, commands) := Step(p, ChangeLanguage(lang));
      && q.story == p.story && q.index == p.index && q.playing == p.playing && q.emotion == p.emotion
      && q.language == lang && q.text == SegmentText(CurrentSegment(p), lang)
      && commands == (if p.playing then [Speak(SegmentText(CurrentSegment(p), lang))] else [Cancel])
  {
  }

  // ---------------------------------------------------------------------------
  // Invariants

  /** A loaded story has segments and the index points at one of them. */
  predicate WellFormed(p: Player) {
    p.story.Some? ==> HasSegment(p)
  }

  /** Stories the player is handed: loaded, with at least one segment. */
  predicate Playable(e: Event) {
    e.Select? ==> e.selected.segments.Some? && |e.selected.segments.value| > 0
  }

  /** If every selected story has segments, the index never leaves them. */
  lemma StepKeepsWellFormed(p: Player, e: Event)
    requires WellFormed(p) && Playable(e)
    ensures WellFormed(Step(p, e).0)
  {
  }

  lemma {:induction false} RunKeepsWellFormed(p: Player, events: seq<Event>)
    requires WellFormed(p)
    requires forall k :: 0 <= k < |events| ==> Playable(events[k])
    ensures WellFormed(Run(p, events).0)
    ensures Synced(Run(p, events).0) || |events| == 0
    decreases |events|
  {
    if |events| > 0 {
      StepKeepsWellFormed(p, events[0]);
      RunKeepsWellFormed(Step(p, events[0]).0, events[1..]);
    }
  }

  // ---------------------------------------------------------------------------
  // Narrating a whole story

  function SpeechEnds(n: nat): (events: seq<Event>)
    ensures |events| == n && forall k :: 0 <= k < n ==> events[k] == SpeechEnd
  {
    seq(n, _ => SpeechEnd)
  }

  /** The utterances of segments `from` up to (not including) `to`. */
  function Speeches(segments: seq<Segment>, lang: Language, from: nat, to: nat): (commands: seq<Command>)
    requires from <= to <= |segments|
    ensures |commands| == to - from
    ensures forall k :: 0 <= k < to - from ==> commands[k] == Speak(SegmentText(segments[from + k], lang))
    decreases (to as int) - (from as int)
  {
    if from == to then [] else [Speak(SegmentText(segments[from], lang))] + Speeches(segments, lang, from + 1, to)
  }

  /** While playing at segment `index`, the remaining utterance ends speak
      every later segment once, in order, then stop the player. */
  lemma {:induction false} NarrateRest(p: Player)
    requires HasSegment(p) && p.playing
    ensures var n := |p.story.value.segments.value|;
      var (q, commands) := Run(p, SpeechEnds(n - p.index));
      && q.story.None? && !q.playing && q.language == p.language
      && commands == Speeches(p.story.value.segments.value, p.language, p.index + 1, n) + [Cancel]
    decreases |p.story.value.segments.value| - p.index
  {
    var segments := p.story.value.segments.value;
    var n := |segments|;
    var events := SpeechEnds(n - p.index);
    assert events[1..] == SpeechEnds(n - p.index - 1);
    var (q, first) := Step(p, SpeechEnd);
    if p.index + 1 < n {
      SpeechEndAdvances(p);
      NarrateRest(q);
      assert Speeches(segments, p.language, p.index + 1, n)
          == [Speak(SegmentText(segments[p.index + 1], p.language))] + Speeches(segments, p.language, p.index + 2, n);
    } else {
      SpeechEndAtLastStops(p);
      assert events[1..] == [];
    }
  }

  /** Selecting a story with n >= 1 segments and then letting n utterances
      end narrates every segment once, in order and in the active language,
      and leaves the player with no story. */
  lemma NarrateStory(p: Player, story: Story)
    requires story.segments.Some? && |story.segments.value| > 0
    ensures var n := |story.segments.value|;
      var (q, commands) := Run(p, [Select(story)] + SpeechEnds(n));
      && q.story.None? && !q.playing
      && commands == Speeches(story.segments.value, p.language, 0, n) + [Cancel]
  {
    var n := |story.segments.value|;
    var events := [Select(story)] + SpeechEnds(n);
    assert events[1..] == SpeechEnds(n);
    SelectSpeaksFirstSegment(p, story);
    var (selected, first) := Step(p, Select(story));
    NarrateRest(selected);
    assert Speeches(story.segments.value, p.language, 0, n)
        == [Speak(SegmentText(story.segments.value[0], p.language))] + Speeches(story.segments.value, p.language, 1, n);
  }
}

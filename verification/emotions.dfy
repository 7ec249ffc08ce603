/** The emotion tags that drive the robot's expression. The application uses
    two different closed sets: the story-generation function knows eight tags,
    while the client's `Emotion` type (and its validator) knows five, one of
    which (`surprised`) the generator never produces. One datatype covers the
    union of the nine tags; `ServerTag` and `ClientTag` pick out the two sets. */
module Emotions {
  import opened Wrappers

  datatype Emotion =
    | Excited | Happy | Sad | Afraid | Disgusted | Confused | Angry | Neutral | Surprised

  /** The tag as it is spelled on the wire and in the database. */
  function Name(e: Emotion): string {
    match e
    case Excited => "excited"
    case Happy => "happy"
    case Sad => "sad"
    case Afraid => "afraid"
    case Disgusted => "disgusted"
    case Confused => "confused"
    case Angry => "angry"
    case Neutral => "neutral"
    case Surprised => "surprised"
  }

  /** The `emotions` array of the generation function, in declaration order. */
  const ServerTags: seq<Emotion> := [Excited, Happy, Sad, Afraid, Disgusted, Confused, Angry, Neutral]

  /** The `validEmotions` array of the client validator (and the client `Emotion` type). */
  const ClientTags: seq<Emotion> := [Happy, Sad, Surprised, Angry, Neutral]

  predicate ServerTag(e: Emotion) {
    e in ServerTags
  }

  predicate ClientTag(e: Emotion) {
    e in ClientTags
  }

  /** The tag spelled exactly `s`, if there is one. */
  function FromName(s: string): (r: Option<Emotion>)
    ensures r.Some? ==> Name(r.value) == s
    ensures r.None? ==> forall e: Emotion :: Name(e) != s
  {
    if s == "excited" then Some(Excited)
    else if s == "happy" then Some(Happy)
    else if s == "sad" then Some(Sad)
    else if s == "afraid" then Some(Afraid)
    else if s == "disgusted" then Some(Disgusted)
    else if s == "confused" then Some(Confused)
    else if s == "angry" then Some(Angry)
    else if s == "neutral" then Some(Neutral)
    else if s == "surprised" then Some(Surprised)
    else None
  }

  /** Names are distinct, so a name identifies its tag. */
  lemma FromNameOfName(e: Emotion)
    ensures FromName(Name(e)) == Some(e)
  {
  }

  /** The two sets share exactly four tags. */
  lemma SharedTags(e: Emotion)
    ensures ServerTag(e) && ClientTag(e) <==> e in {Happy, Sad, Angry, Neutral}
    ensures ServerTag(e) <==> e != Surprised
  {
  }
}

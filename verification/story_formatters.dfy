/** `formatStoryTitleList`: the clickable list of suggested titles, as the
    sequence of pieces the JSX renders. A title piece shows the title in
    double quotes and reports the bare title when clicked; a text piece is a
    separator. Adjacent literal texts are merged into one piece. */
module StoryFormatters {
  import opened StoryModel

  datatype Piece = Title(shown: string, payload: string) | Text(text: string)

  /** The `<span>` made for one story. */
  function TitleFor(story: Story, lang: Language): (p: Piece)
    ensures p.Title? && p.payload == StoryModel.TitleFor(story, lang)
    ensures p.shown == "\"" + p.payload + "\""
  {
    var title := StoryModel.TitleFor(story, lang);
    Title("\"" + title + "\"", title)
  }

  /** The separator between the last two titles: with two titles the JSX
      literal spaces around `' or '` render as two spaces on each side. */
  function PairSeparator(lang: Language): string {
    if lang == En then "  or  " else "  ou  "
  }

  function FinalSeparator(lang: Language): string {
    if lang == En then ", or " else ", ou "
  }

  /** Pieces alternate: titles at even positions, separators at odd ones. */
  predicate Alternates(pieces: seq<Piece>, titles: seq<Piece>, n: nat)
    requires n <= |titles|
  {
    && |pieces| == 2 * n - 1
    && (forall k :: 0 <= k < n ==> pieces[2 * k] == titles[k])
    && (forall k :: 0 <= k < n - 1 ==> pieces[2 * k + 1] == Text(", "))
  }

  /** `titles.reduce(...)` without an initial value, from position `i` on:
      the reducer's index starts at 1, so every step adds `", "`. */
  function Reduce(titles: seq<Piece>, i: nat, prev: seq<Piece>): (r: seq<Piece>)
    requires 1 <= i <= |titles|
    requires Alternates(prev, titles, i)
    ensures Alternates(r, titles, |titles|)
    decreases |titles| - i
  {
    if i == |titles| then prev
    else
      var separator := if i > 0 then [Text(", ")] else [];
      Reduce(titles, i + 1, prev + separator + [titles[i]])
  }

  /** The rendered list for `stories` in language `lang`. */
  function FormatStoryTitleList(stories: seq<Story>, lang: Language): (pieces: seq<Piece>)
    ensures |stories| == 0 ==> pieces == []
    ensures |stories| > 0 ==> |pieces| == 2 * |stories| - 1
    ensures forall k :: 0 <= k < |stories| ==> pieces[2 * k] == TitleFor(stories[k], lang)
    ensures |stories| == 2 ==> pieces[1] == Text(PairSeparator(lang))
    ensures |stories| >= 3 ==>
      && (forall k :: 0 <= k < |stories| - 2 ==> pieces[2 * k + 1] == Text(", "))
      && pieces[2 * |stories| - 3] == Text(FinalSeparator(lang))
  {
    var titles := seq(|stories|, k requires 0 <= k < |stories| => TitleFor(stories[k], lang));
    if |titles| == 0 then []
    else if |titles| == 1 then [titles[0]]
    else if |titles| == 2 then [titles[0], Text(PairSeparator(lang)), titles[1]]
    else
      var init := titles[..|titles| - 1];
      Reduce(init, 1, [init[0]]) + [Text(FinalSeparator(lang)), titles[|titles| - 1]]
  }

  /** The title pieces of a rendering, in order. */
  function Titles(pieces: seq<Piece>): seq<Piece> {
    if |pieces| == 0 then []
    else (if pieces[0].Title? then [pieces[0]] else []) + Titles(pieces[1..])
  }

  lemma TitlesStep(pieces: seq<Piece>)
    requires |pieces| >= 3 && pieces[0].Title? && pieces[1].Text?
    ensures Titles(pieces) == [pieces[0]] + Titles(pieces[2..])
  {
    assert Titles(pieces) == [pieces[0]] + Titles(pieces[1..]);
    assert pieces[1..][1..] == pieces[2..];
    assert Titles(pieces[1..]) == Titles(pieces[2..]);
  }

  /** Separators never count as titles. */
  lemma {:induction false} TitlesOfAlternation(pieces: seq<Piece>, titles: seq<Piece>)
    requires |titles| > 0 && |pieces| == 2 * |titles| - 1
    requires forall k :: 0 <= k < |titles| ==> titles[k].Title? && pieces[2 * k] == titles[k]
    requires forall k :: 0 <= k < |titles| - 1 ==> pieces[2 * k + 1].Text?
    ensures Titles(pieces) == titles
    decreases |titles|
  {
    if |titles| == 1 {
      assert Titles(pieces) == [pieces[0]] + Titles(pieces[1..]);
    } else {
      var rest := pieces[2..];
      forall k | 0 <= k < |titles| - 1
        ensures rest[2 * k] == titles[1..][k]
      {
        assert rest[2 * k] == pieces[2 * (k + 1)];
      }
      forall k | 0 <= k < |titles| - 2
        ensures rest[2 * k + 1].Text?
      {
        assert rest[2 * k + 1] == pieces[2 * (k + 1) + 1];
      }
      TitlesOfAlternation(rest, titles[1..]);
      assert pieces[2 * 0] == titles[0] && pieces[2 * 0 + 1].Text?;
      TitlesStep(pieces);
      assert titles == [titles[0]] + titles[1..];
    }
  }

  /** Every story's title appears once, in input order, and nothing else is
      a title; each click reports the title it shows. */
  lemma TitlesInOrder(stories: seq<Story>, lang: Language)
    ensures var titles := Titles(FormatStoryTitleList(stories, lang));
      && |titles| == |stories|
      && forall k :: 0 <= k < |stories| ==> titles[k] == TitleFor(stories[k], lang)
  {
    var pieces := FormatStoryTitleList(stories, lang);
    var titles := seq(|stories|, k requires 0 <= k < |stories| => TitleFor(stories[k], lang));
    if |stories| > 0 {
      TitlesOfAlternation(pieces, titles);
    }
  }
}

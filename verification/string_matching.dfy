/** Fuzzy title matching: the Levenshtein distance table and the best-match
    search over the catalogue titles in the active language. */
module StringMatching {
  import opened Wrappers
  import opened Text
  import opened StoryModel

  /** The default absolute distance threshold of the best-match search. */
  const DefaultThreshold: int := 5

  function Min3(x: int, y: int, z: int): int {
    if x <= y && x <= z then x else if y <= z then y else z
  }

  function Gap(i: int, j: int): nat {
    if i >= j then i - j else j - i
  }

  function Max(i: int, j: int): int {
    if i >= j then i else j
  }

  /** The edit distance between the first `i` characters of `a` and the first
      `j` characters of `b`, by the recurrence the distance table is filled
      with. */
  function EditDistance(a: string, b: string, i: nat, j: nat): nat
    requires i <= |a| && j <= |b|
    decreases i + j
  {
    if i == 0 then j
    else if j == 0 then i
    else if a[i - 1] == b[j - 1] then EditDistance(a, b, i - 1, j - 1)
    else 1 + Min3(EditDistance(a, b, i - 1, j - 1), EditDistance(a, b, i - 1, j), EditDistance(a, b, i, j - 1))
  }

  /** The Levenshtein distance of two whole strings. */
  function Distance(a: string, b: string): nat {
    EditDistance(a, b, |a|, |b|)
  }

  /** `levenshteinDistance`: fills the `(|s|+1) x (|t|+1)` table row by row
      and returns its last cell. Every cell `dp[i, j]` holds the edit
      distance of the prefixes of lengths `i` and `j`. */
  method LevenshteinDistance(s: string, t: string) returns (d: nat)
    ensures d == Distance(s, t)
  {
    var m, n := |s|, |t|;
    var dp := new int[m + 1, n + 1];

    var i := 0;
    while i <= m
      invariant 0 <= i <= m + 1
      invariant forall r :: 0 <= r < i ==> dp[r, 0] == r
    {
      dp[i, 0] := i;
      i := i + 1;
    }
    var j := 0;
    while j <= n
      invariant 0 <= j <= n + 1
      invariant forall r :: 0 <= r <= m ==> dp[r, 0] == r
      invariant forall c :: 0 <= c < j ==> dp[0, c] == c
    {
      dp[0, j] := j;
      j := j + 1;
    }

    i := 1;
    while i <= m
      invariant 1 <= i <= m + 1
      invariant forall r, c {:trigger dp[r, c]} :: 0 <= r < i && 0 <= c <= n ==> dp[r, c] == EditDistance(s, t, r, c)
      invariant forall r :: i <= r <= m ==> dp[r, 0] == r
    {
      j := 1;
      while j <= n
        invariant 1 <= j <= n + 1
        invariant forall r, c {:trigger dp[r, c]} :: 0 <= r < i && 0 <= c <= n ==> dp[r, c] == EditDistance(s, t, r, c)
        invariant forall c {:trigger dp[i, c]} :: 0 <= c < j ==> dp[i, c] == EditDistance(s, t, i, c)
        invariant forall r :: i < r <= m ==> dp[r, 0] == r
      {
        var diagonal, above, left := dp[i - 1, j - 1], dp[i - 1, j], dp[i, j - 1];
        if s[i - 1] == t[j - 1] {
          dp[i, j] := diagonal;
        } else {
          dp[i, j] := Min3(diagonal + 1, above + 1, left + 1);
        }
        j := j + 1;
      }
      i := i + 1;
    }
    d := dp[m, n];
  }

  // ---------------------------------------------------------------------------
  // Properties of the distance

  /** The distance is never smaller than the length difference and never
      larger than the longer length. */
  lemma {:induction false} EditDistanceBounds(a: string, b: string, i: nat, j: nat)
    requires i <= |a| && j <= |b|
    ensures Gap(i, j) <= EditDistance(a, b, i, j) <= Max(i, j)
    decreases i + j
  {
    if i > 0 && j > 0 {
      EditDistanceBounds(a, b, i - 1, j - 1);
      if a[i - 1] != b[j - 1] {
        EditDistanceBounds(a, b, i - 1, j);
        EditDistanceBounds(a, b, i, j - 1);
      }
    }
  }

  /** A string is at distance zero from itself. */
  lemma {:induction false} DistanceToSelf(s: string, i: nat)
    requires i <= |s|
    ensures EditDistance(s, s, i, i) == 0
  {
    if i > 0 {
      DistanceToSelf(s, i - 1);
    }
  }

  /** Against the empty string the distance is the other string's length. */
  lemma DistanceToEmpty(s: string)
    ensures Distance("", s) == |s| && Distance(s, "") == |s|
  {
  }

  /** The distance is symmetric. */
  lemma {:induction false} EditDistanceSymmetric(a: string, b: string, i: nat, j: nat)
    requires i <= |a| && j <= |b|
    ensures EditDistance(a, b, i, j) == EditDistance(b, a, j, i)
    decreases i + j
  {
    if i > 0 && j > 0 {
      EditDistanceSymmetric(a, b, i - 1, j - 1);
      if a[i - 1] != b[j - 1] {
        EditDistanceSymmetric(a, b, i - 1, j);
        EditDistanceSymmetric(a, b, i, j - 1);
      }
    }
  }

  /** Distance zero means the two prefixes are equal. */
  lemma {:induction false} ZeroDistanceMeansEqual(a: string, b: string, i: nat, j: nat)
    requires i <= |a| && j <= |b|
    requires EditDistance(a, b, i, j) == 0
    ensures i == j && a[..i] == b[..j]
    decreases i + j
  {
    EditDistanceBounds(a, b, i, j);
    if i > 0 && j > 0 && a[i - 1] == b[j - 1] {
      ZeroDistanceMeansEqual(a, b, i - 1, j - 1);
      assert a[..i] == a[..i - 1] + [a[i - 1]];
      assert b[..j] == b[..j - 1] + [b[j - 1]];
    }
  }

  /** The properties a Levenshtein distance promises, for whole strings:
      zero exactly for equal strings, symmetric, and bounded by the length
      difference below and the longer length above. */
  lemma DistanceProperties(a: string, b: string)
    ensures Distance(a, b) == 0 <==> a == b
    ensures Distance(a, b) == Distance(b, a)
    ensures Gap(|a|, |b|) <= Distance(a, b) <= Max(|a|, |b|)
  {
    EditDistanceSymmetric(a, b, |a|, |b|);
    EditDistanceBounds(a, b, |a|, |b|);
    if a == b {
      DistanceToSelf(a, |a|);
    }
    if Distance(a, b) == 0 {
      ZeroDistanceMeansEqual(a, b, |a|, |b|);
    }
  }

  // ---------------------------------------------------------------------------
  // Best-match search

  /** Distance from the (already normalised) term to candidate `k`'s
      lower-cased title in the active language. */
  function CandidateDistance(term: string, stories: seq<Story>, lang: Language, k: nat): nat
    requires k < |stories|
  {
    Distance(term, ToLower(TitleFor(stories[k], lang)))
  }

  /** Among the first `n` candidates, `best` is within the threshold, none is
      closer, and every earlier one is strictly farther: the first minimum. */
  predicate BestAmong(term: string, stories: seq<Story>, lang: Language, threshold: int, best: nat, n: nat)
    requires n <= |stories|
  {
    && best < n
    && CandidateDistance(term, stories, lang, best) <= threshold
    && (forall j :: 0 <= j < n ==> CandidateDistance(term, stories, lang, best) <= CandidateDistance(term, stories, lang, j))
    && (forall j :: 0 <= j < best ==> CandidateDistance(term, stories, lang, best) < CandidateDistance(term, stories, lang, j))
  }

  /** No candidate among the first `n` is within the threshold. */
  predicate NoneWithin(term: string, stories: seq<Story>, lang: Language, threshold: int, n: nat)
    requires n <= |stories|
  {
    forall j :: 0 <= j < n ==> CandidateDistance(term, stories, lang, j) > threshold
  }

  /** The `forEach` loop: visits the candidates from `k` on, keeping the
      index of the best candidate so far (`None` stands for the initial
      `bestDistance = Infinity`). A candidate replaces the current best only
      when it is within the threshold and strictly closer. */
  function Scan(term: string, stories: seq<Story>, lang: Language, threshold: int, k: nat, best: Option<nat>): (r: Option<nat>)
    requires k <= |stories|
    requires best.None? ==> NoneWithin(term, stories, lang, threshold, k)
    requires best.Some? ==> BestAmong(term, stories, lang, threshold, best.value, k)
    ensures r.None? ==> NoneWithin(term, stories, lang, threshold, |stories|)
    ensures r.Some? ==> BestAmong(term, stories, lang, threshold, r.value, |stories|)
    decreases |stories| - k
  {
    if k == |stories| then best
    else
      var d := CandidateDistance(term, stories, lang, k);
      var next := if d <= threshold && (best.None? || d < CandidateDistance(term, stories, lang, best.value)) then Some(k) else best;
      Scan(term, stories, lang, threshold, k + 1, next)
  }

  /** `findBestMatchingStory`: `None` for the empty term; otherwise the
      original-case title (in the active language) of the first candidate
      whose lower-cased title is closest to the lower-cased, trimmed term,
      provided that distance is within the threshold. */
  function FindBestMatchingStory(searchTerm: string, stories: seq<Story>, lang: Language, threshold: int): (r: Option<string>)
    ensures searchTerm == "" ==> r.None?
    ensures r.None? <==> searchTerm == "" || NoneWithin(Normalize(searchTerm), stories, lang, threshold, |stories|)
    ensures r.Some? ==> exists k: nat :: k < |stories| && BestAmong(Normalize(searchTerm), stories, lang, threshold, k, |stories|)
                                        && r.value == TitleFor(stories[k], lang)
  {
    if searchTerm == "" then None
    else
      match Scan(Normalize(searchTerm), stories, lang, threshold, 0, None)
      case None => None
      case Some(k) => Some(TitleFor(stories[k], lang))
  }

  /** Pre-normalising a term whose normalisation is non-empty does not change
      the result. */
  lemma NormalizationIdempotent(searchTerm: string, stories: seq<Story>, lang: Language, threshold: int)
    requires Normalize(searchTerm) != ""
    ensures FindBestMatchingStory(Normalize(searchTerm), stories, lang, threshold)
         == FindBestMatchingStory(searchTerm, stories, lang, threshold)
  {
    NormalizeIdempotent(searchTerm);
  }

  /** Only the literal empty term is rejected: a whitespace-only term is
      trimmed to "" and still compared, so a short title can match it, while
      the pre-normalised term "" matches nothing. */
  lemma WhitespaceTermStillCompared()
    ensures FindBestMatchingStory(" ", [Story("s", "Ab", "Ab", None)], En, DefaultThreshold) == Some("Ab")
    ensures FindBestMatchingStory("", [Story("s", "Ab", "Ab", None)], En, DefaultThreshold) == None
  {
    var stories := [Story("s", "Ab", "Ab", None)];
    assert Normalize(" ") == "";
    assert CandidateDistance("", stories, En, 0) == 2;
  }
}

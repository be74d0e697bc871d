/**
 * The score the browser client pulls out of the grading text with the
 * regular expression `/得分:\s*([\d.]+)分/`: the label "得分:" (ASCII colon),
 * optional whitespace, a non-empty run of ASCII digits and dots, then "分".
 * The captured run is kept as text; it is never converted to a number.
 *
 * `MatchAt` is a greedy scan at one position; `MatchesWith` states the
 * pattern declaratively, as a backtracking matcher may split the text; the
 * lemmas show the two agree and that `Extract` finds the leftmost match.
 */
module ScorePattern {
  import opened Wrappers
  import opened JsString

  const Label: string := "得分:"
  const UnitChar: char := '分'

  /** The score shown when the text carries no match. */
  const Unscored: string := "--"

  /** The class `[\d.]`. */
  predicate IsScoreChar(c: char) {
    ('0' <= c <= '9') || c == '.'
  }

  /** Length of the longest run of characters of class `inClass` starting
      at position `i`. */
  function Span(t: string, i: nat, inClass: char -> bool): (n: nat)
    requires i <= |t|
    ensures i + n <= |t|
    ensures forall k | i <= k < i + n :: inClass(t[k])
    ensures i + n == |t| || !inClass(t[i + n])
    decreases |t| - i
  {
    if i < |t| && inClass(t[i]) then 1 + Span(t, i + 1, inClass) else 0
  }

  /** The declarative pattern: at position `p` the text holds the label,
      `w` whitespace characters, the non-empty digit-and-dot run `s` and
      the unit character. */
  ghost predicate MatchesWith(t: string, p: nat, w: nat, s: string) {
    var d := p + |Label| + w;
    && d + |s| < |t|
    && t[p..p + |Label|] == Label
    && (forall k | p + |Label| <= k < d :: IsWhitespace(t[k]))
    && |s| > 0
    && (forall k | 0 <= k < |s| :: IsScoreChar(s[k]))
    && t[d..d + |s|] == s
    && t[d + |s|] == UnitChar
  }

  /** The regular expression anchored at position `p`, scanned greedily. */
  function MatchAt(t: string, p: nat): Option<string>
    requires p <= |t|
  {
    if p + |Label| <= |t| && t[p..p + |Label|] == Label then
      var d := p + |Label| + Span(t, p + |Label|, IsWhitespace);
      var n := Span(t, d, IsScoreChar);
      if n > 0 && d + n < |t| && t[d + n] == UnitChar then Some(t[d..d + n]) else None
    else None
  }

  /** Greedy scanning finds what the pattern allows, and only that. */
  lemma MatchAtSound(t: string, p: nat)
    requires p <= |t| && MatchAt(t, p).Some?
    ensures MatchesWith(t, p, Span(t, p + |Label|, IsWhitespace), MatchAt(t, p).value)
  {
  }

  /** Whatever way a backtracking matcher splits the text at `p`, the
      capture is the one greedy scanning finds: the whitespace run stops at
      the first digit or dot, and the digit run stops at the unit character. */
  lemma MatchAtComplete(t: string, p: nat, w: nat, s: string)
    requires p <= |t| && MatchesWith(t, p, w, s)
    ensures MatchAt(t, p) == Some(s)
  {
    var d := p + |Label| + w;
    assert t[d] == s[0];
    assert !IsWhitespace(t[d]);
    var ws := Span(t, p + |Label|, IsWhitespace);
    assert ws == w;
    var n := Span(t, d, IsScoreChar);
    assert forall k | 0 <= k < |s| :: t[d + k] == s[k] && IsScoreChar(t[d + k]);
    assert !IsScoreChar(t[d + |s|]);
    assert n == |s|;
  }

  /** The first position from `from` on where the pattern matches. */
  function FirstMatchFrom(t: string, from: nat): (r: Option<nat>)
    requires from <= |t|
    ensures r.Some? ==> from <= r.value <= |t| && MatchAt(t, r.value).Some?
    ensures r.Some? ==> forall q | from <= q < r.value :: MatchAt(t, q).None?
    ensures r.None? ==> forall q | from <= q <= |t| :: MatchAt(t, q).None?
    decreases |t| - from
  {
    if MatchAt(t, from).Some? then Some(from)
    else if from == |t| then None
    else FirstMatchFrom(t, from + 1)
  }

  /** `text.match(...)`, reduced to its capture group. */
  function Extract(t: string): Option<string> {
    match FirstMatchFrom(t, 0)
    case Some(p) => MatchAt(t, p)
    case None => None
  }

  /** `scoreMatch ? scoreMatch[1] : '--'`. */
  function Score(t: string): string {
    Extract(t).GetOr(Unscored)
  }

  /** An extracted score is the capture of the leftmost match: the pattern
      holds there, and nowhere to its left. */
  lemma ExtractIsLeftmost(t: string)
    requires Extract(t).Some?
    ensures exists p: nat, w: nat :: MatchesWith(t, p, w, Extract(t).value)
              && forall p': nat, w': nat, s': string | p' < p :: !MatchesWith(t, p', w', s')
  {
    var p := FirstMatchFrom(t, 0).value;
    var w := Span(t, p + |Label|, IsWhitespace);
    MatchAtSound(t, p);
    forall p': nat, w': nat, s': string | p' < p
      ensures !MatchesWith(t, p', w', s')
    {
      if MatchesWith(t, p', w', s') {
        MatchAtComplete(t, p', w', s');
      }
    }
  }

  /** Any occurrence of the pattern means a score is extracted. */
  lemma MatchMeansScored(t: string, p: nat, w: nat, s: string)
    requires p <= |t| && MatchesWith(t, p, w, s)
    ensures Extract(t).Some?
  {
    MatchAtComplete(t, p, w, s);
  }

  /** The score is the unscored marker exactly when the pattern occurs
      nowhere; otherwise it is a non-empty run of digits and dots. */
  lemma ScoreUnscoredIff(t: string)
    ensures Score(t) == Unscored <==> forall p: nat, w: nat, s: string :: !MatchesWith(t, p, w, s)
    ensures Score(t) != Unscored ==> |Score(t)| > 0 && forall k | 0 <= k < |Score(t)| :: IsScoreChar(Score(t)[k])
  {
    if Extract(t).Some? {
      ExtractIsLeftmost(t);
      var s := Extract(t).value;
      var p: nat, w: nat :| MatchesWith(t, p, w, s);
      assert IsScoreChar(s[0]) && !IsScoreChar(Unscored[0]);
    } else {
      forall p: nat, w: nat, s: string ensures !MatchesWith(t, p, w, s) {
        if MatchesWith(t, p, w, s) {
          MatchMeansScored(t, p, w, s);
        }
      }
    }
  }

  /** A text that opens with a labelled score yields that score. */
  lemma ScoreOfLabelled(blank: string, s: string, rest: string)
    requires AllWhitespace(blank)
    requires |s| > 0 && forall k | 0 <= k < |s| :: IsScoreChar(s[k])
    ensures Score(Label + blank + s + [UnitChar] + rest) == s
  {
    var t := Label + blank + s + [UnitChar] + rest;
    var d := |Label| + |blank|;
    assert t[0..|Label|] == Label;
    assert t[d..d + |s|] == s;
    forall k | |Label| <= k < d ensures IsWhitespace(t[k]) {
      assert t[k] == blank[k - |Label|];
    }
    assert MatchesWith(t, 0, |blank|, s);
    MatchAtComplete(t, 0, |blank|, s);
  }
}

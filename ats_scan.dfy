/**
 * The ATS keyword scorer behind the `/api/ats-scan` endpoint: keyword
 * extraction, Jaccard similarity, the matched / missing split, the suggestion
 * list and the request validation. The HTTP wrapper is not modelled: a scan is
 * a function from the two request fields to a result or a validation error.
 */
module AtsScan {
  import opened Wrappers
  import opened Seqs
  import opened Text

  /**
   * The fixed list of common words that never count as keywords, kept as the
   * union of its four source lines (one large set display is too much for the
   * solver to rule a word out of).
   */
  const StopWords: set<string> := FunctionWords + AuxiliaryVerbs + ModalsAndDemonstratives + Pronouns

  const FunctionWords: set<string> :=
    {"the", "a", "an", "and", "or", "but", "in", "on", "at", "to", "for", "of", "with", "by"}
  const AuxiliaryVerbs: set<string> :=
    {"is", "are", "was", "were", "be", "been", "being", "have", "has", "had", "do", "does", "did"}
  const ModalsAndDemonstratives: set<string> :=
    {"will", "would", "could", "should", "may", "might", "must", "can", "this", "that", "these"}
  const Pronouns: set<string> :=
    {"those", "i", "you", "he", "she", "it", "we", "they", "me", "him", "her", "us", "them"}

  /** Characters a keyword is made of: lower-case ASCII letters, digits and `_`. */
  predicate IsKeywordChar(c: char) {
    ('a' <= c <= 'z') || ('0' <= c <= '9') || c == '_'
  }

  /** `replace(/[^\w\s]/g, ' ')` on one character. */
  function ScrubChar(c: char): (r: char)
    ensures IsWordChar(r) || IsSpace(r)
    ensures IsWordChar(c) || IsSpace(c) <==> r == c
    ensures !(IsWordChar(c) || IsSpace(c)) ==> r == ' '
  {
    if IsWordChar(c) || IsSpace(c) then c else ' '
  }

  /** `replace(/[^\w\s]/g, ' ')`: every other character becomes one space. */
  function Scrub(s: string): (r: string)
    ensures |r| == |s|
    ensures forall i :: 0 <= i < |s| ==> r[i] == ScrubChar(s[i])
  {
    seq(|s|, i requires 0 <= i < |s| => ScrubChar(s[i]))
  }

  lemma ScrubConcat(a: string, b: string)
    ensures Scrub(a + b) == Scrub(a) + Scrub(b)
  {
  }

  /** The text as the splitter sees it: lower-cased, punctuation blanked. */
  function Normalize(text: string): (r: string)
    ensures |r| == |text|
    ensures forall i :: 0 <= i < |text| ==> r[i] == ScrubChar(LowerChar(text[i]))
    ensures forall c :: c in r ==> IsKeywordChar(c) || IsSpace(c)
  {
    var r := Scrub(Lower(text));
    assert forall i :: 0 <= i < |r| ==> IsKeywordChar(r[i]) || IsSpace(r[i]) by {
      forall i | 0 <= i < |r| ensures IsKeywordChar(r[i]) || IsSpace(r[i]) {
        assert r[i] == ScrubChar(LowerChar(text[i]));
      }
    }
    r
  }

  lemma NormalizeConcat(a: string, b: string)
    ensures Normalize(a + b) == Normalize(a) + Normalize(b)
  {
    LowerConcat(a, b);
    ScrubConcat(Lower(a), Lower(b));
  }

  /** No stop word is longer than six characters, so every longer token passes the filter. */
  lemma LongTokensAreCandidates(w: string)
    requires |w| > 6
    ensures IsCandidate(w)
  {
    assert w !in FunctionWords;
    assert w !in AuxiliaryVerbs;
    assert w !in ModalsAndDemonstratives;
    assert w !in Pronouns;
  }

  /** The length and stop-word filter of a token. */
  predicate IsCandidate(w: string) {
    |w| > 2 && w !in StopWords
  }

  /** `filter(word => word.length > 2 && !commonWords.has(word))`. */
  function KeepCandidates(ws: seq<string>): (r: seq<string>)
    ensures forall w :: w in r <==> w in ws && IsCandidate(w)
    ensures Subsequence(r, ws)
    ensures forall w :: multiset(r)[w] == if IsCandidate(w) then multiset(ws)[w] else 0
  {
    if ws == [] then []
    else
      var rest := KeepCandidates(ws[1..]);
      assert multiset(ws) == multiset([ws[0]]) + multiset(ws[1..]) by { assert ws == [ws[0]] + ws[1..]; }
      if IsCandidate(ws[0]) then [ws[0]] + rest
      else
        assert rest != [] ==> rest[0] != ws[0];
        rest
  }

  /** The candidate tokens of a text, in text order, before de-duplication. */
  function Candidates(text: string): (r: seq<string>)
    ensures forall w :: w in r <==> w in Split(Normalize(text)) && IsCandidate(w)
    ensures Subsequence(r, Split(Normalize(text)))
  {
    KeepCandidates(Split(Normalize(text)))
  }

  /**
   * `extractKeywords`: the distinct candidate tokens of the text, each kept at
   * its first occurrence in the filtered token stream.
   */
  function ExtractKeywords(text: string): (r: seq<string>)
    ensures Distinct(r)
    ensures forall w :: w in r <==> w in Candidates(text)
  {
    KeepFirst(Candidates(text))
  }

  /**
   * Every keyword is longer than two characters, is not a stop word, and is made
   * of lower-case letters, digits and underscores only; a token of the text
   * passing the filter is a keyword.
   */
  lemma KeywordsAreCleanTokens(text: string)
    ensures forall w :: w in ExtractKeywords(text) ==> |w| > 2 && w !in StopWords
    ensures forall w, c :: w in ExtractKeywords(text) && c in w ==> IsKeywordChar(c)
    ensures forall w :: w in Split(Normalize(text)) && IsCandidate(w) ==> w in ExtractKeywords(text)
  {
    SplitPieces(Normalize(text));
  }

  /** Keywords come in the order in which they first occur among the candidate tokens. */
  lemma KeywordsInFirstOccurrenceOrder(text: string)
    ensures var r := ExtractKeywords(text);
            forall i, j :: 0 <= i < j < |r| ==>
              IndexOf(Candidates(text), r[i]) < IndexOf(Candidates(text), r[j])
  {
  }

  /** The distinct values of a keyword list (`new Set(keywords)`). */
  function KeywordSet(ks: seq<string>): (s: set<string>)
    ensures forall k :: k in s <==> k in ks
  {
    set k | k in ks
  }

  /**
   * A JavaScript number as the scorer can produce it: NaN, or the percentage
   * `part / whole * 100`, kept as the exact fraction.
   */
  datatype Number = NaN | Ratio(part: nat, whole: nat)

  /**
   * `calculateSimilarity`: |R ∩ J| / |R ∪ J| × 100 over the keyword sets. The
   * source does not guard an empty union: it divides 0 by 0 and gets NaN.
   */
  function Similarity(resumeKeywords: seq<string>, jobKeywords: seq<string>): (r: Number)
    ensures r.NaN? <==> resumeKeywords == [] && jobKeywords == []
    ensures r.Ratio? ==> 0 < r.whole && r.part <= r.whole
    ensures r.Ratio? ==> r.part == |KeywordSet(resumeKeywords) * KeywordSet(jobKeywords)|
    ensures r.Ratio? ==> r.whole == |KeywordSet(resumeKeywords) + KeywordSet(jobKeywords)|
  {
    var resumeSet := KeywordSet(resumeKeywords);
    var jobSet := KeywordSet(jobKeywords);
    var intersection := resumeSet * jobSet;
    var union := resumeSet + jobSet;
    assert resumeKeywords != [] ==> resumeKeywords[0] in union;
    assert jobKeywords != [] ==> jobKeywords[0] in union;
    assert |union| == |resumeSet - jobSet| + |jobSet - resumeSet| + |intersection|;
    if |union| == 0 then NaN else Ratio(|intersection|, |union|)
  }

  /** The similarity only depends on the two keyword sets, not on their roles. */
  lemma SimilaritySymmetric(xs: seq<string>, ys: seq<string>)
    ensures Similarity(xs, ys) == Similarity(ys, xs)
  {
    assert KeywordSet(xs) * KeywordSet(ys) == KeywordSet(ys) * KeywordSet(xs);
    assert KeywordSet(xs) + KeywordSet(ys) == KeywordSet(ys) + KeywordSet(xs);
  }

  /** Identical non-empty keyword lists are a perfect match: the whole union is shared. */
  lemma SimilarityOfIdentical(xs: seq<string>)
    requires xs != []
    ensures Similarity(xs, xs).Ratio? && Similarity(xs, xs).part == Similarity(xs, xs).whole
  {
    var s := KeywordSet(xs);
    assert s * s == s && s + s == s;
    assert xs[0] in s;
  }

  /**
   * Floor division of naturals, written out by repeated subtraction so that
   * QuotBounds, which shows it is `a / b`, and the rounding bounds are proved by
   * induction instead of by the solver's non-linear arithmetic.
   */
  function Quot(a: nat, b: nat): nat
    requires b > 0
    decreases a
  {
    if a < b then 0 else 1 + Quot(a - b, b)
  }

  lemma {:induction false} QuotBelow(a: nat, b: nat, n: nat)
    requires b > 0 && a < (n + 1) * b
    ensures Quot(a, b) <= n
    decreases a
  {
    if a >= b {
      assert (n + 1) * b == n * b + b;
      QuotBelow(a - b, b, n - 1);
    }
  }

  lemma {:induction false} QuotAtLeast(a: nat, b: nat, n: nat)
    requires b > 0 && n * b <= a
    ensures Quot(a, b) >= n
    decreases a
  {
    if n > 0 {
      assert n * b == (n - 1) * b + b;
      QuotAtLeast(a - b, b, n - 1);
    }
  }

  /** The quotient is the largest `q` with `q * b <= a`. */
  lemma {:induction false} QuotBounds(a: nat, b: nat)
    requires b > 0
    ensures Quot(a, b) * b <= a < (Quot(a, b) + 1) * b
    decreases a
  {
    if a >= b {
      QuotBounds(a - b, b);
      var q := Quot(a - b, b);
      assert (q + 1) * b == q * b + b;
      assert (q + 2) * b == (q + 1) * b + b;
    }
  }

  /**
   * `Math.round` of the percentage as it reaches the client: floor(x + 1/2),
   * which is `(200 * part + whole) div (2 * whole)`; NaN stays NaN, which the
   * JSON response carries as `null` (`None` here).
   */
  function RoundScore(n: Number): (r: Option<int>)
    requires n.Ratio? ==> n.whole > 0
    ensures r.None? <==> n.NaN?
    ensures n.Ratio? && n.part <= n.whole ==> 0 <= r.value <= 100
    ensures n.Ratio? && n.part == n.whole ==> r.value == 100
    ensures n.Ratio? && n.part == 0 ==> r.value == 0
  {
    match n
    case NaN => None
    case Ratio(p, w) =>
      RoundedPercentBounds(p, w);
      Some(Quot(200 * p + w, 2 * w))
  }

  lemma RoundedPercentBounds(p: nat, w: nat)
    requires w > 0
    ensures p <= w ==> Quot(200 * p + w, 2 * w) <= 100
    ensures p == w ==> Quot(200 * p + w, 2 * w) == 100
    ensures p == 0 ==> Quot(200 * p + w, 2 * w) == 0
  {
    var a, b := 200 * p + w, 2 * w;
    if p <= w { QuotBelow(a, b, 100); }
    if p == w { QuotAtLeast(a, b, 100); }
    if p == 0 { QuotBelow(a, b, 0); }
  }

  /**
   * The rounded score `k` is the nearest integer to the exact percentage
   * `100 * part / whole`, halves rounded up, as `Math.round` does: multiplied
   * out by `2 * whole`, `k - 1/2 <= 100 * part / whole < k + 1/2`.
   */
  lemma RoundScoreIsNearest(part: nat, whole: nat)
    requires whole > 0
    ensures var k := RoundScore(Ratio(part, whole)).value;
            k * (2 * whole) - whole <= 200 * part < k * (2 * whole) + whole
  {
    QuotBounds(200 * part + whole, 2 * whole);
    var k := Quot(200 * part + whole, 2 * whole);
    assert (k + 1) * (2 * whole) == k * (2 * whole) + 2 * whole;
  }

  /** `[...jobSet].filter(k => resumeSet.has(k) == present)`. */
  function SelectByPresence(xs: seq<string>, s: set<string>, present: bool): (r: seq<string>)
    ensures forall x :: x in r <==> x in xs && (x in s) == present
    ensures Subsequence(r, xs)
    ensures Distinct(xs) ==> Distinct(r)
  {
    if xs == [] then []
    else
      var rest := SelectByPresence(xs[1..], s, present);
      if (xs[0] in s) == present then
        assert Distinct(xs) ==> xs[0] !in xs[1..];
        [xs[0]] + rest
      else
        assert rest != [] ==> rest[0] != xs[0];
        rest
  }

  /** Every keyword of `xs` lands in exactly one of the two selections. */
  lemma {:induction false} SelectionSizes(xs: seq<string>, s: set<string>)
    ensures |SelectByPresence(xs, s, true)| + |SelectByPresence(xs, s, false)| == |xs|
  {
    if xs != [] {
      SelectionSizes(xs[1..], s);
    }
  }

  // ---------------------------------------------------------------------------
  // Suggestions
  // ---------------------------------------------------------------------------

  const AddMissingPrefix: string := "Add these missing keywords: "
  const IncludeMoreTip: string := "Include more relevant keywords from the job description"
  const FocusTip: string := "Focus on matching more keywords from the job requirements"
  const ActionVerbsTip: string := "Use action verbs to describe your achievements"
  const QuantifyTip: string := "Quantify your accomplishments with specific numbers and metrics"
  const SkillsSectionTip: string := "Ensure your skills section matches the job requirements"

  /** The three suggestions every scan ends with, in this order. */
  const FixedTips: seq<string> := [ActionVerbsTip, QuantifyTip, SkillsSectionTip]

  /** The first suggestion when keywords are missing: at most five of them, comma separated. */
  function AddMissingMessage(missing: seq<string>): (m: string)
    ensures |AddMissingPrefix| <= |m| && m[..|AddMissingPrefix|] == AddMissingPrefix
    ensures missing != [] && (forall k :: k in missing ==> ',' !in k) ==>
              SplitAtCommaSpace(m[|AddMissingPrefix|..]) == Take(missing, 5)
  {
    var listed := Take(missing, 5);
    var m := AddMissingPrefix + Join(listed, ", ");
    assert m[|AddMissingPrefix|..] == Join(listed, ", ");
    if missing != [] && (forall k :: k in missing ==> ',' !in k) then
      assert forall k :: k in listed ==> k in missing;
      SplitJoinCommaSpace(listed);
      m
    else m
  }

  /** The order in which suggestions may appear. */
  function SuggestionOrder(missing: seq<string>): seq<string> {
    [AddMissingMessage(missing), IncludeMoreTip, FocusTip] + FixedTips
  }

  /** `generateSuggestions`, as a value: the conditional messages, then the fixed ones. */
  function Suggestions(missing: seq<string>, matched: seq<string>): (s: seq<string>)
    ensures 3 <= |s| <= 6
  {
    (if missing != [] then [AddMissingMessage(missing)] else [])
    + (if |matched| < 5 then [IncludeMoreTip] else [])
    + (if |missing| > |matched| then [FocusTip] else [])
    + FixedTips
  }

  /**
   * The suggestion list ends with the three fixed tips; the "missing keywords"
   * message comes first exactly when keywords are missing; each conditional tip
   * is present exactly when its condition holds.
   */
  lemma SuggestionsShape(missing: seq<string>, matched: seq<string>)
    ensures var s := Suggestions(missing, matched);
            && |s| == 3 + (if missing != [] then 1 else 0) + (if |matched| < 5 then 1 else 0)
                        + (if |missing| > |matched| then 1 else 0)
            && s[|s| - 3..] == FixedTips
            && (missing != [] <==> s[0] == AddMissingMessage(missing))
            && (IncludeMoreTip in s <==> |matched| < 5)
            && (FocusTip in s <==> |missing| > |matched|)
  {
    var add := if missing != [] then [AddMissingMessage(missing)] else [];
    var more := if |matched| < 5 then [IncludeMoreTip] else [];
    var focus := if |missing| > |matched| then [FocusTip] else [];
    var s := add + more + focus + FixedTips;
    assert s == Suggestions(missing, matched);
    DistinctMessages(missing);
    var o := SuggestionOrder(missing);
    assert o[1] != o[0] && o[1] != o[2] && o[1] != o[3] && o[1] != o[4] && o[1] != o[5];
    assert o[2] != o[0] && o[2] != o[3] && o[2] != o[4] && o[2] != o[5];
    assert s[|s| - 3..] == FixedTips;
    assert IncludeMoreTip in s <==> IncludeMoreTip in more;
    assert FocusTip in s <==> FocusTip in focus;
  }

  /** The suggestions that appear, appear in one fixed order. */
  lemma SuggestionsOrdered(missing: seq<string>, matched: seq<string>)
    ensures Subsequence(Suggestions(missing, matched), SuggestionOrder(missing))
  {
    var add := if missing != [] then [AddMissingMessage(missing)] else [];
    var more := if |matched| < 5 then [IncludeMoreTip] else [];
    var focus := if |missing| > |matched| then [FocusTip] else [];
    SuggestionsInOrder(add, more, focus, missing);
  }

  /** No two of the possible suggestions are the same string. */
  lemma DistinctMessages(missing: seq<string>)
    ensures Distinct(SuggestionOrder(missing))
  {
    var m := AddMissingMessage(missing);
    assert m[26] == AddMissingPrefix[26] == ':';
    TipMarks();
  }

  /** Facts that tell the fixed messages apart: no colon at index 26, and their lengths and last letters. */
  lemma TipMarks()
    ensures IncludeMoreTip[26] == 'o' && FocusTip[26] == 'w' && ActionVerbsTip[26] == 'b'
    ensures QuantifyTip[26] == 'n' && SkillsSectionTip[26] == ' '
    ensures |IncludeMoreTip| == 55 && |FocusTip| == 57 && |ActionVerbsTip| == 46
    ensures |QuantifyTip| == 63 && |SkillsSectionTip| == 55
    ensures IncludeMoreTip[54] == 'n' && SkillsSectionTip[54] == 's'
  {
  }

  lemma SuggestionsInOrder(add: seq<string>, more: seq<string>, focus: seq<string>, missing: seq<string>)
    requires add == [] || add == [AddMissingMessage(missing)]
    requires more == [] || more == [IncludeMoreTip]
    requires focus == [] || focus == [FocusTip]
    ensures Subsequence(add + more + focus + FixedTips, SuggestionOrder(missing))
  {
    var order := SuggestionOrder(missing);
    var s := add + more + focus + FixedTips;
    DistinctMessages(missing);
    var s1 := more + focus + FixedTips;
    var s2 := focus + FixedTips;
    assert Subsequence(FixedTips, FixedTips) by {
      assert Subsequence(FixedTips[2..], FixedTips[2..]);
      assert Subsequence(FixedTips[1..], FixedTips[1..]);
    }
    assert Subsequence(s2, order[2..]) by {
      if focus == [] { assert s2 == FixedTips; assert order[2..][1..] == FixedTips; }
      else { assert s2[1..] == FixedTips; assert order[2..][1..] == FixedTips; }
    }
    assert Subsequence(s1, order[1..]) by {
      if more == [] { assert s1 == s2; assert order[1..][1..] == order[2..]; }
      else { assert s1[1..] == s2; assert order[1..][1..] == order[2..]; }
    }
    if add == [] { assert s == s1; assert order[1..] == order[1..]; }
    else { assert s[1..] == s1; }
  }

  /** `generateSuggestions`: the conditional messages pushed one by one, then the fixed ones. */
  method GenerateSuggestions(missing: seq<string>, matched: seq<string>) returns (suggestions: seq<string>)
    ensures suggestions == Suggestions(missing, matched)
  {
    suggestions := [];
    if |missing| > 0 {
      suggestions := suggestions + [AddMissingPrefix + Join(Take(missing, 5), ", ")];
    }
    if |matched| < 5 {
      suggestions := suggestions + [IncludeMoreTip];
    }
    if |missing| > |matched| {
      suggestions := suggestions + [FocusTip];
    }
    suggestions := suggestions + [ActionVerbsTip];
    suggestions := suggestions + [QuantifyTip];
    suggestions := suggestions + [SkillsSectionTip];
  }

  // ---------------------------------------------------------------------------
  // The scan
  // ---------------------------------------------------------------------------

  const RequiredMessage: string := "Resume text and job description are required"

  /** The successful response body. A null score is `None`. */
  datatype ScanResult = ScanResult(
    score: Option<int>,
    matchedKeywords: seq<string>,
    missingKeywords: seq<string>,
    suggestions: seq<string>)

  datatype ScanResponse =
    | Success(result: ScanResult)
    | Failure(status: int, error: string)

  /** JavaScript truthiness of a string field of the request: present and non-empty. */
  predicate Present(field: Option<string>) {
    field.Some? && field.value != ""
  }

  /**
   * The result computed from the two keyword lists (route.ts lines 75-85):
   * the job keywords in `Set` order split by presence in the resume's set, the
   * rounded similarity, and the suggestions.
   */
  function Analyze(resumeKeywords: seq<string>, jobKeywords: seq<string>): ScanResult {
    var resumeSet := KeywordSet(resumeKeywords);
    var jobOrder := KeepFirst(jobKeywords);
    var matched := SelectByPresence(jobOrder, resumeSet, true);
    var missing := SelectByPresence(jobOrder, resumeSet, false);
    ScanResult(RoundScore(Similarity(resumeKeywords, jobKeywords)), matched, missing, Suggestions(missing, matched))
  }

  /**
   * The body of the `POST` handler, from the two request fields to the response.
   * A missing or empty field is the only error.
   */
  function Scan(resumeText: Option<string>, jobDescription: Option<string>): (r: ScanResponse)
    ensures r.Failure? <==> !Present(resumeText) || !Present(jobDescription)
    ensures r.Failure? ==> r.status == 400 && r.error == RequiredMessage
  {
    if !Present(resumeText) || !Present(jobDescription) then
      Failure(400, RequiredMessage)
    else
      Success(Analyze(ExtractKeywords(resumeText.value), ExtractKeywords(jobDescription.value)))
  }

  /**
   * Matched and missing keywords split de-duplicated job keywords: no overlap,
   * nothing lost, both in job order, and matched means present in the resume.
   */
  lemma AnalyzePartitionsJobKeywords(resumeKeywords: seq<string>, jobKeywords: seq<string>)
    requires Distinct(jobKeywords)
    ensures var r := Analyze(resumeKeywords, jobKeywords);
            && (forall k :: !(k in r.matchedKeywords && k in r.missingKeywords))
            && (forall k :: k in r.matchedKeywords || k in r.missingKeywords <==> k in jobKeywords)
            && (forall k :: k in r.matchedKeywords <==> k in jobKeywords && k in resumeKeywords)
            && |r.matchedKeywords| + |r.missingKeywords| == |jobKeywords|
            && Subsequence(r.matchedKeywords, jobKeywords)
            && Subsequence(r.missingKeywords, jobKeywords)
            && Distinct(r.matchedKeywords) && Distinct(r.missingKeywords)
  {
    KeepFirstOfDistinct(jobKeywords);
    SelectionSizes(jobKeywords, KeywordSet(resumeKeywords));
  }

  /**
   * The similarity counts what the scan reports: the shared part is the matched
   * keywords, and the union adds the missing keywords and the resume keywords
   * the job does not ask for.
   */
  lemma SimilarityCountsScanLists(resumeKeywords: seq<string>, jobKeywords: seq<string>)
    requires Distinct(jobKeywords) && (resumeKeywords != [] || jobKeywords != [])
    ensures var r := Analyze(resumeKeywords, jobKeywords);
            var n := Similarity(resumeKeywords, jobKeywords);
            && n.Ratio?
            && n.part == |r.matchedKeywords|
            && n.whole == |r.matchedKeywords| + |r.missingKeywords| + |KeywordSet(resumeKeywords) - KeywordSet(jobKeywords)|
  {
    var rs, js := KeywordSet(resumeKeywords), KeywordSet(jobKeywords);
    KeepFirstOfDistinct(jobKeywords);
    SelectionCount(jobKeywords, rs);
    assert js * rs == rs * js;
    UnionSize(rs, js);
  }

  /** On a duplicate-free list, each selection has one element per value it selects. */
  lemma SelectionCount(xs: seq<string>, s: set<string>)
    requires Distinct(xs)
    ensures |SelectByPresence(xs, s, true)| == |KeywordSet(xs) * s|
    ensures |SelectByPresence(xs, s, false)| == |KeywordSet(xs) - s|
  {
    var yes, no := SelectByPresence(xs, s, true), SelectByPresence(xs, s, false);
    DistinctSize(yes);
    DistinctSize(no);
    assert (set k | k in yes) == KeywordSet(xs) * s;
    assert (set k | k in no) == KeywordSet(xs) - s;
  }

  lemma UnionSize(a: set<string>, b: set<string>)
    ensures |a + b| == |a * b| + |b - a| + |a - b|
  {
    assert a + b == (a * b) + (b - a) + (a - b);
    assert (a * b) * (b - a) == {} && ((a * b) + (b - a)) * (a - b) == {};
  }

  /** The same, for the scan of two texts. */
  lemma ScanPartitionsJobKeywords(resumeText: string, jobDescription: string)
    requires resumeText != "" && jobDescription != ""
    ensures var r := Scan(Some(resumeText), Some(jobDescription)).result;
            var jobKeywords := ExtractKeywords(jobDescription);
            && (forall k :: !(k in r.matchedKeywords && k in r.missingKeywords))
            && (forall k :: k in r.matchedKeywords || k in r.missingKeywords <==> k in jobKeywords)
            && (forall k :: k in r.matchedKeywords <==> k in jobKeywords && k in ExtractKeywords(resumeText))
            && |r.matchedKeywords| + |r.missingKeywords| == |jobKeywords|
            && Subsequence(r.matchedKeywords, jobKeywords)
            && Subsequence(r.missingKeywords, jobKeywords)
  {
    var resumeKeywords, jobKeywords := ExtractKeywords(resumeText), ExtractKeywords(jobDescription);
    assert Scan(Some(resumeText), Some(jobDescription)).result == Analyze(resumeKeywords, jobKeywords);
    AnalyzePartitionsJobKeywords(resumeKeywords, jobKeywords);
  }

  /**
   * When keywords are missing, the first suggestion lists the first five of
   * them: keywords hold no comma, so splitting its list at ", " gives them back.
   */
  lemma ScanListsMissingKeywords(resumeText: string, jobDescription: string)
    requires resumeText != "" && jobDescription != ""
    ensures var r := Scan(Some(resumeText), Some(jobDescription)).result;
            var first := r.suggestions[0];
            r.missingKeywords != [] ==>
              && first[..|AddMissingPrefix|] == AddMissingPrefix
              && SplitAtCommaSpace(first[|AddMissingPrefix|..]) == Take(r.missingKeywords, 5)
  {
    var jobKeywords := ExtractKeywords(jobDescription);
    var missing := SelectByPresence(KeepFirst(jobKeywords), KeywordSet(ExtractKeywords(resumeText)), false);
    var matched := SelectByPresence(KeepFirst(jobKeywords), KeywordSet(ExtractKeywords(resumeText)), true);
    KeywordsHaveNoComma(jobDescription);
    assert forall k :: k in missing ==> ',' !in k;
    if missing != [] {
      SuggestionsShape(missing, matched);
    }
  }

  /** No keyword contains a comma. */
  lemma KeywordsHaveNoComma(text: string)
    ensures forall k :: k in ExtractKeywords(text) ==> ',' !in k
  {
    KeywordsAreCleanTokens(text);
    assert !IsKeywordChar(',');
  }

  /**
   * The score is null exactly when neither text has a keyword (0/0 in the
   * source); otherwise it is a percentage.
   */
  lemma ScanScore(resumeText: string, jobDescription: string)
    requires resumeText != "" && jobDescription != ""
    ensures var score := Scan(Some(resumeText), Some(jobDescription)).result.score;
            && (score.None? <==> ExtractKeywords(resumeText) == [] && ExtractKeywords(jobDescription) == [])
            && (score.Some? ==> 0 <= score.value <= 100)
  {
  }

  /** A keyword list analysed against itself scores 100 and misses nothing. */
  lemma AnalyzeIdentical(ks: seq<string>)
    requires ks != [] && Distinct(ks)
    ensures var r := Analyze(ks, ks);
            r.score == Some(100) && r.missingKeywords == [] && r.matchedKeywords == ks
  {
    SimilarityOfIdentical(ks);
    KeepFirstOfDistinct(ks);
    SelectAllPresent(ks, KeywordSet(ks));
  }

  /** A text scanned against itself scores 100 and misses nothing, when it has a keyword. */
  lemma ScanOfIdenticalTexts(text: string)
    requires ExtractKeywords(text) != []
    ensures text != ""
    ensures var r := Scan(Some(text), Some(text)).result;
            r.score == Some(100) && r.missingKeywords == [] && r.matchedKeywords == ExtractKeywords(text)
  {
    var ks := ExtractKeywords(text);
    assert Scan(Some(text), Some(text)).result == Analyze(ks, ks);
    AnalyzeIdentical(ks);
  }

  /** Selecting by presence in a set that holds every element keeps everything. */
  lemma {:induction false} SelectAllPresent(xs: seq<string>, s: set<string>)
    requires forall x :: x in xs ==> x in s
    ensures SelectByPresence(xs, s, true) == xs
    ensures SelectByPresence(xs, s, false) == []
  {
    if xs != [] {
      SelectAllPresent(xs[1..], s);
    }
  }

  /** A two-word text whose words are both stop words or short has no keyword. */
  lemma NoKeywordsInTwoShortWords(text: string, w1: string, w2: string)
    requires Normalize(text) == w1 + " " + w2
    requires forall c :: c in w1 ==> !IsSpace(c)
    requires forall c :: c in w2 ==> !IsSpace(c)
    requires !IsCandidate(w1) && !IsCandidate(w2)
    ensures ExtractKeywords(text) == []
  {
    SplitTwoWords(w1, w2);
    assert Candidates(text) == KeepCandidates([w1, w2]);
    assert [w1, w2][1..] == [w2];
    assert KeepCandidates([w1, w2]) == [];
  }

  /**
   * A text made only of stop words has no keyword, so scanning it against
   * another such text divides 0 by 0: the score is null, not 0.
   */
  lemma StopWordsOnlyGiveNullScore(resumeText: string, jobDescription: string)
    // The two literals are fixed parameters, not conditions on callers: passing
    // them in keeps the solver from unfolding the literal texts eagerly.
    requires resumeText == "The and" && jobDescription == "it is"
    ensures Scan(Some(resumeText), Some(jobDescription)).result.score == None
  {
    NoKeywordsExample1();
    NoKeywordsExample2();
    NullScoreWithoutKeywords(resumeText, jobDescription);
  }

  /** Two texts that pass the presence check but have no keyword score null. */
  lemma NullScoreWithoutKeywords(resumeText: string, jobDescription: string)
    requires resumeText != "" && jobDescription != ""
    requires ExtractKeywords(resumeText) == [] && ExtractKeywords(jobDescription) == []
    ensures Scan(Some(resumeText), Some(jobDescription)).result.score == None
  {
    ScanScore(resumeText, jobDescription);
  }

  lemma NoKeywordsExample1()
    ensures ExtractKeywords("The and") == []
  {
    NormalizeExample1();
    NoKeywordsInTwoShortWords("The and", "the", "and");
  }

  lemma NoKeywordsExample2()
    ensures ExtractKeywords("it is") == []
  {
    NormalizeExample2();
    NoKeywordsInTwoShortWords("it is", "it", "is");
  }

  lemma NormalizeExample1()
    ensures Normalize("The and") == "the" + " " + "and"
  {
    var t := "The and";
    var n := Normalize(t);
    assert n == Scrub(Lower(t));
    forall i | 0 <= i < 7 ensures n[i] == ("the" + " " + "and")[i] {
      assert n[i] == ScrubChar(LowerChar(t[i]));
    }
  }

  lemma NormalizeExample2()
    ensures Normalize("it is") == "it" + " " + "is"
  {
    var t := "it is";
    var n := Normalize(t);
    assert n == Scrub(Lower(t));
    forall i | 0 <= i < 5 ensures n[i] == ("it" + " " + "is")[i] {
      assert n[i] == ScrubChar(LowerChar(t[i]));
    }
  }
}

/**
 * The string primitives the keyword scorer and the scanner rely on, with
 * JavaScript's meaning: the `\s` and `\w` classes, `toLowerCase`,
 * `split(/\s+/)` and `trim`.
 */
module Text {

  /**
   * JavaScript's `\s`: white space and line terminators (the same set that
   * `String.prototype.trim` removes).
   */
  predicate IsSpace(c: char) {
    || c == ' ' || ('\t' <= c <= '\r')
    || c == '\U{00A0}' || c == '\U{1680}' || ('\U{2000}' <= c <= '\U{200A}')
    || c == '\U{2028}' || c == '\U{2029}' || c == '\U{202F}' || c == '\U{205F}'
    || c == '\U{3000}' || c == '\U{FEFF}'
  }

  /** JavaScript's `\w`: ASCII letters, digits and underscore. */
  predicate IsWordChar(c: char) {
    ('a' <= c <= 'z') || ('A' <= c <= 'Z') || ('0' <= c <= '9') || c == '_'
  }

  predicate IsUpper(c: char) {
    'A' <= c <= 'Z'
  }

  /** Lower-casing of one character (ASCII letters only). */
  function LowerChar(c: char): (r: char)
    ensures !IsUpper(r)
    ensures IsUpper(c) ==> IsWordChar(r) && r as int == c as int + 32
    ensures !IsUpper(c) ==> r == c
  {
    if IsUpper(c) then (c as int + 32) as char else c
  }

  /** `toLowerCase`, character by character. */
  function Lower(s: string): (r: string)
    ensures |r| == |s|
    ensures forall i :: 0 <= i < |s| ==> r[i] == LowerChar(s[i])
  {
    seq(|s|, i requires 0 <= i < |s| => LowerChar(s[i]))
  }

  lemma LowerConcat(a: string, b: string)
    ensures Lower(a + b) == Lower(a) + Lower(b)
  {
  }

  /** Index of the first white-space character at or after `i`, or `|s|`. */
  function FirstSpace(s: string, i: nat): (r: nat)
    requires i <= |s|
    decreases |s| - i
    ensures i <= r <= |s|
    ensures r < |s| ==> IsSpace(s[r])
    ensures forall k :: i <= k < r ==> !IsSpace(s[k])
  {
    if i == |s| || IsSpace(s[i]) then i else FirstSpace(s, i + 1)
  }

  /** Index just past the run of white space starting at `i`. */
  function SpaceRunEnd(s: string, i: nat): (r: nat)
    requires i <= |s|
    decreases |s| - i
    ensures i <= r <= |s|
    ensures r < |s| ==> !IsSpace(s[r])
    ensures forall k :: i <= k < r ==> IsSpace(s[k])
  {
    if i == |s| || !IsSpace(s[i]) then i else SpaceRunEnd(s, i + 1)
  }

  /**
   * `s.split(/\s+/)`: the pieces between maximal runs of white space. Like
   * JavaScript it yields an empty first (last) piece when `s` starts (ends)
   * with white space, and `[""]` for the empty string.
   */
  function Split(s: string): (r: seq<string>)
    decreases |s|
    ensures |r| >= 1
  {
    var i := FirstSpace(s, 0);
    if i == |s| then [s] else [s[..i]] + Split(s[SpaceRunEnd(s, i)..])
  }

  /** The pieces contain no white space, and only characters of `s`. */
  lemma {:induction false} SplitPieces(s: string)
    decreases |s|
    ensures forall w, c :: w in Split(s) && c in w ==> c in s && !IsSpace(c)
  {
    var i := FirstSpace(s, 0);
    if i < |s| {
      var j := SpaceRunEnd(s, i);
      SplitPieces(s[j..]);
      forall c | c in s[..i] ensures c in s && !IsSpace(c) {
        var k :| 0 <= k < i && s[k] == c;
      }
      assert forall c :: c in s[j..] ==> c in s;
    }
  }

  /** A string without white space followed by white space is the first piece. */
  lemma SplitFirstWord(w: string, t: string)
    requires forall c :: c in w ==> !IsSpace(c)
    requires t != [] && IsSpace(t[0])
    ensures Split(w + t)[0] == w
  {
    var s := w + t;
    assert s[|w|] == t[0];
    assert forall k :: 0 <= k < |w| ==> s[k] == w[k];
    assert FirstSpace(s, 0) == |w|;
    assert s[..|w|] == w;
  }

  /** A word on its own is a single piece. */
  lemma SplitOneWord(w: string)
    requires forall c :: c in w ==> !IsSpace(c)
    ensures Split(w) == [w]
  {
    assert forall k :: 0 <= k < |w| ==> w[k] in w;
    assert FirstSpace(w, 0) == |w|;
  }

  /** Two words separated by one space split into exactly those two words. */
  lemma SplitTwoWords(w1: string, w2: string)
    requires forall c :: c in w1 ==> !IsSpace(c)
    requires forall c :: c in w2 ==> !IsSpace(c)
    ensures Split(w1 + " " + w2) == [w1, w2]
  {
    if w2 != [] {
      assert w2[0] in w2;
    }
    SplitCons(w1, " ", w2);
    SplitOneWord(w2);
  }

  /**
   * A white-space-free word, a non-empty run of white space and a rest that does
   * not start with white space: the word is the first piece and the rest splits
   * on its own. With SplitOneWord this fixes `Split` on every input.
   */
  lemma SplitCons(w: string, sp: string, t: string)
    requires forall c :: c in w ==> !IsSpace(c)
    requires sp != [] && forall c :: c in sp ==> IsSpace(c)
    requires t == [] || !IsSpace(t[0])
    ensures Split(w + sp + t) == [w] + Split(t)
  {
    var s := w + sp + t;
    var i, j := |w|, |w| + |sp|;
    assert forall k :: 0 <= k < i ==> s[k] == w[k] && w[k] in w;
    assert s[i] == sp[0] && sp[0] in sp;
    assert FirstSpace(s, 0) == i;
    assert forall k :: i <= k < j ==> s[k] == sp[k - i] && sp[k - i] in sp;
    if t != [] {
      assert s[j] == t[0];
    }
    assert SpaceRunEnd(s, i) == j;
    assert s[..i] == w && s[j..] == t;
  }

  /** The first white-space run of `a + t` starts inside `a` and ends no later than `t` starts. */
  lemma FirstRunInPrefix(a: string, t: string)
    requires a != [] && IsSpace(a[|a| - 1])
    requires t != [] && !IsSpace(t[0])
    ensures FirstSpace(a + t, 0) < |a|
    ensures SpaceRunEnd(a + t, FirstSpace(a + t, 0)) <= |a|
  {
    var s := a + t;
    assert s[|a| - 1] == a[|a| - 1];
    assert s[|a|] == t[0];
  }

  /**
   * Every piece of `t` is still a piece of `a + t` when `a` ends in white space
   * and `t` does not start with it: the split never merges across that boundary.
   */
  lemma {:induction false} SplitKeepsPieces(a: string, t: string)
    requires a != [] && IsSpace(a[|a| - 1])
    requires t != [] && !IsSpace(t[0])
    ensures forall w :: w in Split(t) ==> w in Split(a + t)
    decreases |a|
  {
    var s := a + t;
    FirstRunInPrefix(a, t);
    var i := FirstSpace(s, 0);
    var j := SpaceRunEnd(s, i);
    assert Split(s) == [s[..i]] + Split(s[j..]);
    if j == |a| {
      assert s[j..] == t;
    } else {
      var a' := a[j..];
      assert s[j..] == a' + t;
      assert a'[|a'| - 1] == a[|a| - 1];
      SplitKeepsPieces(a', t);
    }
  }

  /** `s.trim()`: white space removed at both ends. */
  function Trim(s: string): (r: string)
    decreases |s|
    ensures r == "" <==> forall c :: c in s ==> IsSpace(c)
    ensures r != "" ==> !IsSpace(r[0]) && !IsSpace(r[|r| - 1])
  {
    if s == [] then ""
    else if IsSpace(s[0]) then
      assert s == [s[0]] + s[1..];
      Trim(s[1..])
    else if IsSpace(s[|s| - 1]) then
      assert s == s[..|s| - 1] + [s[|s| - 1]];
      Trim(s[..|s| - 1])
    else s
  }
}

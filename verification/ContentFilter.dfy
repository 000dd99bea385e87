/**
 The dirty-word filter (internal/service/filter.go), on ASCII text, where
 lower-casing keeps every byte offset.
 */
module ContentFilter {
  import opened Prelude

  type Ascii = c: char | c as int < 128 witness 'a'
  type Text = seq<Ascii>

  const STAR: Ascii := '*'

  function LowerChar(c: Ascii): Ascii {
    if 'A' <= c <= 'Z' then (c as int + 32) as char else c
  }

  function ToLower(s: Text): Text {
    seq(|s|, i requires 0 <= i < |s| => LowerChar(s[i]))
  }

  function Stars(n: nat): Text { seq(n, _ => STAR) }

  /** The same character, or the two cases of one letter. */
  predicate SameLetter(a: Ascii, b: Ascii) {
    var x, y := a as int, b as int;
    x == y || (x + 32 == y && 65 <= x <= 90) || (y + 32 == x && 65 <= y <= 90)
  }

  lemma LowerIff(a: Ascii, b: Ascii)
    ensures LowerChar(a) == LowerChar(b) <==> SameLetter(a, b)
  {}

  // ---------------------------------------------------------------------
  // Searching and replacing
  // ---------------------------------------------------------------------

  predicate MatchAt(s: Text, w: Text, i: int) {
    0 <= i && i + |w| <= |s| && forall k :: 0 <= k < |w| ==> s[i + k] == w[k]
  }

  /** `s` has the lower-case word `w` at position `i`, in any case. */
  predicate Occurs(s: Text, w: Text, i: int) {
    0 <= i && i + |w| <= |s| && forall k :: 0 <= k < |w| ==> LowerChar(s[i + k]) == w[k]
  }

  /** `s` has the word `w` at position `i`, letter for letter in any case. */
  predicate Reads(s: Text, w: Text, i: int) {
    0 <= i && i + |w| <= |s| && forall k :: 0 <= k < |w| ==> SameLetter(s[i + k], w[k])
  }

  lemma ReadsIff(s: Text, w: Text, i: int)
    ensures Occurs(s, ToLower(w), i) <==> Reads(s, w, i)
  {
    if 0 <= i && i + |w| <= |s| {
      forall k | 0 <= k < |w| ensures LowerChar(s[i + k]) == ToLower(w)[k] <==> SameLetter(s[i + k], w[k]) {
        LowerIff(s[i + k], w[k]);
      }
    }
  }

  lemma OccursInLower(s: Text, w: Text, i: int)
    ensures MatchAt(ToLower(s), w, i) <==> Occurs(s, w, i)
  {}

  /** strings.Index on the rest of `s` from `i`, as a position of `s`: the leftmost match. */
  function IndexFrom(s: Text, w: Text, i: nat): (r: Option<nat>)
    requires i <= |s|
    ensures r.Some? ==> i <= r.value && MatchAt(s, w, r.value)
    ensures forall j :: i <= j && MatchAt(s, w, j) ==> r.Some? && r.value <= j
    decreases |s| - i
  {
    if MatchAt(s, w, i) then Some(i)
    else if i == |s| then None
    else IndexFrom(s, w, i + 1)
  }

  /** The leftmost occurrence, found by searching the lower-cased text. */
  lemma {:induction false} FindsOccurrence(s: Text, w: Text, i: nat)
    requires i <= |s|
    ensures var idx := IndexFrom(ToLower(s), w, i);
            && (idx.Some? ==> i <= idx.value && Occurs(s, w, idx.value) && forall k :: i <= k < idx.value ==> !Occurs(s, w, k))
            && (idx.None? ==> forall k :: i <= k ==> !Occurs(s, w, k))
  {
    forall k ensures MatchAt(ToLower(s), w, k) <==> Occurs(s, w, k) {
      OccursInLower(s, w, k);
    }
  }

  /** Replacing in one left-to-right scan, character by character: the part of `s` from `i`; `word` is lower-case. */
  function Replaced(s: Text, word: Text, replacement: Text, i: nat): Text
    requires i <= |s| && (word != [] || i == |s|)
    decreases |s| - i
  {
    if i == |s| then []
    else if Occurs(s, word, i) then replacement + Replaced(s, word, replacement, i + |word|)
    else [s[i]] + Replaced(s, word, replacement, i + 1)
  }

  lemma CopyOne(s: Text, i: nat, j: nat, rest: Text)
    requires i < j <= |s|
    ensures [s[i]] + (s[i + 1..j] + rest) == s[i..j] + rest
  {}

  /** The scan copies what lies before the next match. */
  lemma {:induction false} ScanCopies(s: Text, word: Text, replacement: Text, i: nat, j: nat)
    requires word != [] && i <= j <= |s|
    requires forall k :: i <= k < j ==> !Occurs(s, word, k)
    ensures Replaced(s, word, replacement, i) == s[i..j] + Replaced(s, word, replacement, j)
    decreases j - i
  {
    var rest := Replaced(s, word, replacement, j);
    if i < j {
      calc {
        Replaced(s, word, replacement, i);
        [s[i]] + Replaced(s, word, replacement, i + 1);
        { ScanCopies(s, word, replacement, i + 1, j); }
        [s[i]] + (s[i + 1..j] + rest);
        { CopyOne(s, i, j, rest); }
        s[i..j] + rest;
      }
    }
  }

  lemma {:induction false} ScanEnds(s: Text, word: Text, replacement: Text, i: nat)
    requires word != [] && i <= |s| && forall k :: i <= k ==> !Occurs(s, word, k)
    ensures Replaced(s, word, replacement, i) == s[i..]
  {
    ScanCopies(s, word, replacement, i, |s|);
  }

  /** `result` and the scan from `i` make up `whole`. */
  ghost predicate SoFar(s: Text, word: Text, replacement: Text, i: nat, result: Text, whole: Text)
    requires word != [] || s == []
  {
    i <= |s| && result + Replaced(s, word, replacement, i) == whole
  }

  lemma AtMatch(s: Text, word: Text, replacement: Text, j: nat)
    requires word != [] && j < |s| && Occurs(s, word, j)
    ensures Replaced(s, word, replacement, j) == replacement + Replaced(s, word, replacement, j + |word|)
  {}

  lemma Chained3(result: Text, a: Text, b: Text, tail: Text, mid: Text, rest: Text, whole: Text)
    requires result + rest == whole && rest == a + mid && mid == b + tail
    ensures result + a + b + tail == whole
  {}

  lemma JumpToMatch(s: Text, word: Text, replacement: Text, i: nat, j: nat, result: Text, whole: Text)
    requires word != [] && i < |s| && i <= j && Occurs(s, word, j)
    requires SoFar(s, word, replacement, i, result, whole) && forall k :: i <= k < j ==> !Occurs(s, word, k)
    ensures SoFar(s, word, replacement, j + |word|, result + s[i..j] + replacement, whole)
  {
    var rest, mid, tail := Replaced(s, word, replacement, i), Replaced(s, word, replacement, j), Replaced(s, word, replacement, j + |word|);
    assert rest == s[i..j] + mid by { ScanCopies(s, word, replacement, i, j); }
    assert mid == replacement + tail by { AtMatch(s, word, replacement, j); }
    Chained3(result, s[i..j], replacement, tail, mid, rest, whole);
  }

  /** Lines 63-80, jumping from match to match.  With an empty word the loop never advances, so only an empty text is safe. */
  method ReplaceIgnoreCase(s: Text, word: Text, replacement: Text) returns (result: Text)
    requires word != [] || s == []
    ensures result == Replaced(s, ToLower(word), replacement, 0)
  {
    var lower, lowerWord := ToLower(s), ToLower(word);
    ghost var whole := Replaced(s, lowerWord, replacement, 0);
    result := [];
    var i := 0;
    while i < |s|
      invariant SoFar(s, lowerWord, replacement, i, result, whole)
      decreases |s| - i
    {
      var idx := IndexFrom(lower, lowerWord, i);
      FindsOccurrence(s, lowerWord, i);
      if idx.None? {
        ScanEnds(s, lowerWord, replacement, i);
        result := result + s[i..];
        return;
      }
      JumpToMatch(s, lowerWord, replacement, i, idx.value, result, whole);
      result := result + s[i..idx.value];
      result := result + replacement;
      i := idx.value + |word|;
    }
  }

  /** The loop moves on from a match exactly when the word is not empty. */
  lemma {:induction false} ScanAdvancesIff(s: Text, word: Text, i: nat)
    requires i < |s|
    ensures IndexFrom(ToLower(s), ToLower(word), i).Some? ==>
              (IndexFrom(ToLower(s), ToLower(word), i).value + |word| > i <==> word != [])
    ensures word == [] ==> IndexFrom(ToLower(s), ToLower(word), i) == Some(i)
  {}

  // ---------------------------------------------------------------------
  // Masking one word
  // ---------------------------------------------------------------------

  function Mask(s: Text, w: Text): Text
    requires w != [] || s == []
  {
    Replaced(s, w, Stars(|w|), 0)
  }

  predicate NoStar(w: Text) { forall i :: 0 <= i < |w| ==> w[i] != STAR }

  /** `r` is `s` with some characters starred out. */
  ghost predicate StarredOut(s: Text, r: Text) {
    |r| == |s| && forall p :: 0 <= p < |s| ==> r[p] == s[p] || r[p] == STAR
  }

  /** Word `w` lies over position `p` of `s`, in any case. */
  ghost predicate Over(s: Text, w: Text, p: int) {
    exists q :: Occurs(s, w, q) && q <= p < q + |w|
  }

  predicate IsMask(mask: Text, n: nat) { |mask| == n && forall k :: 0 <= k < n ==> mask[k] == STAR }

  /** `r` is the part of `s` from `i` with characters starred out under occurrences of `w` only. */
  ghost predicate StarredFrom(s: Text, w: Text, i: nat, r: Text) {
    && i + |r| == |s|
    && forall k :: 0 <= k < |r| ==> r[k] == s[i + k] || (r[k] == STAR && Over(s, w, i + k))
  }

  lemma MatchIsOver(s: Text, w: Text, q: nat, p: nat)
    requires Occurs(s, w, q) && q <= p < q + |w|
    ensures Over(s, w, p)
  {}

  lemma StarsThenRest(s: Text, w: Text, mask: Text, i: nat, tail: Text)
    requires IsMask(mask, |w|) && Occurs(s, w, i) && StarredFrom(s, w, i + |w|, tail)
    ensures StarredFrom(s, w, i, mask + tail)
  {
    var r := mask + tail;
    forall k | 0 <= k < |r| ensures r[k] == s[i + k] || (r[k] == STAR && Over(s, w, i + k)) {
      if k < |w| {
        MatchIsOver(s, w, i, i + k);
      } else {
        assert r[k] == tail[k - |w|];
      }
    }
  }

  lemma CharThenRest(s: Text, w: Text, i: nat, tail: Text)
    requires i < |s| && StarredFrom(s, w, i + 1, tail)
    ensures StarredFrom(s, w, i, [s[i]] + tail)
  {
    var r := [s[i]] + tail;
    forall k | 0 < k < |r| ensures r[k] == s[i + k] || (r[k] == STAR && Over(s, w, i + k)) {
      assert r[k] == tail[k - 1];
    }
  }

  /** Masking changes a character only to a star, and only under an occurrence of the word. */
  lemma {:induction false} MaskedStars(s: Text, w: Text, mask: Text, i: nat)
    requires w != [] && i <= |s| && IsMask(mask, |w|)
    ensures StarredFrom(s, w, i, Replaced(s, w, mask, i))
    decreases |s| - i
  {
    if i < |s| {
      if Occurs(s, w, i) {
        MaskedStars(s, w, mask, i + |w|);
        StarsThenRest(s, w, mask, i, Replaced(s, w, mask, i + |w|));
        AtMatch(s, w, mask, i);
      } else {
        MaskedStars(s, w, mask, i + 1);
        CharThenRest(s, w, i, Replaced(s, w, mask, i + 1));
      }
    }
  }

  /** A match of a star-free word avoids every star. */
  lemma MatchAvoidsStars(r: Text, w: Text, q: nat, p: nat)
    requires NoStar(w) && Occurs(r, w, q) && q <= p < q + |w|
    ensures p < |r| && r[p] != STAR
  {
    assert LowerChar(r[q + (p - q)]) == w[p - q];
  }

  /** Matches move along with the text around them. */
  lemma MatchShifts(s: Text, r: Text, w: Text, q: nat, d: int)
    requires Occurs(r, w, q) && 0 <= q + d && q + d + |w| <= |s|
    requires forall k :: q <= k < q + |w| ==> r[k] == s[k + d]
    ensures Occurs(s, w, q + d)
  {
    forall k | 0 <= k < |w| ensures LowerChar(s[q + d + k]) == w[k] {
      assert r[q + k] == s[q + k + d];
    }
  }

  /** A match in a starred-out part is a match in the text itself. */
  lemma StarsCreateNothing(s: Text, v: Text, i: nat, r: Text, w: Text, q: nat)
    requires StarredFrom(s, v, i, r) && NoStar(w)
    ensures Occurs(r, w, q) ==> Occurs(s, w, i + q)
  {
    if Occurs(r, w, q) {
      forall k | q <= k < q + |w| ensures r[k] == s[i + k] {
        MatchAvoidsStars(r, w, q, k);
      }
      MatchShifts(s, r, w, q, i);
    }
  }

  /** Past `front`, matches are matches in what follows it; none starts in a mask. */
  lemma MatchBehind(front: Text, tail: Text, w: Text, q: nat)
    requires NoStar(w) && w != []
    ensures q >= |front| && Occurs(front + tail, w, q) ==> Occurs(tail, w, q - |front|)
    ensures q < |front| && front[q] == STAR ==> !Occurs(front + tail, w, q)
  {
    if q >= |front| && Occurs(front + tail, w, q) {
      MatchShifts(tail, front + tail, w, q, -|front|);
    }
    if q < |front| && front[q] == STAR {
      assert LowerChar((front + tail)[q + 0]) == STAR != w[0];
    }
  }

  lemma FreeAtMatch(s: Text, w: Text, mask: Text, i: nat, q: nat)
    requires w != [] && NoStar(w) && i < |s| && IsMask(mask, |w|) && Occurs(s, w, i)
    requires q >= |w| ==> !Occurs(Replaced(s, w, mask, i + |w|), w, q - |w|)
    ensures !Occurs(Replaced(s, w, mask, i), w, q)
  {
    AtMatch(s, w, mask, i);
    MatchBehind(mask, Replaced(s, w, mask, i + |w|), w, q);
  }

  lemma FreeAtMiss(s: Text, w: Text, mask: Text, i: nat, q: nat)
    requires w != [] && NoStar(w) && i < |s| && IsMask(mask, |w|) && !Occurs(s, w, i)
    requires q >= 1 ==> !Occurs(Replaced(s, w, mask, i + 1), w, q - 1)
    ensures !Occurs(Replaced(s, w, mask, i), w, q)
  {
    if q == 0 {
      MaskedStars(s, w, mask, i);
      StarsCreateNothing(s, w, i, Replaced(s, w, mask, i), w, q);
    } else {
      MatchBehind([s[i]], Replaced(s, w, mask, i + 1), w, q);
    }
  }

  /** The masked text contains the word nowhere. */
  lemma {:induction false} MaskedFree(s: Text, w: Text, mask: Text, i: nat, q: nat)
    requires w != [] && NoStar(w) && i <= |s| && IsMask(mask, |w|)
    ensures !Occurs(Replaced(s, w, mask, i), w, q)
    decreases |s| - i
  {
    if i < |s| && Occurs(s, w, i) {
      if q >= |w| {
        MaskedFree(s, w, mask, i + |w|, q - |w|);
      }
      FreeAtMatch(s, w, mask, i, q);
    } else if i < |s| {
      if q >= 1 {
        MaskedFree(s, w, mask, i + 1, q - 1);
      }
      FreeAtMiss(s, w, mask, i, q);
    }
  }

  lemma MaskStarsOut(s: Text, w: Text)
    requires w != []
    ensures StarredFrom(s, w, 0, Mask(s, w))
  {
    MaskedStars(s, w, Stars(|w|), 0);
  }

  // ---------------------------------------------------------------------
  // The word filter
  // ---------------------------------------------------------------------

  datatype FilterResult = FilterResult(pass: bool, reason: string, replace: Text)

  predicate NonEmpty(words: seq<Text>) { forall i :: 0 <= i < |words| ==> words[i] != [] }

  /** An empty word makes the filter loop on any text but the empty one. */
  predicate Ends(content: Text, words: seq<Text>) { content == [] || NonEmpty(words) }

  /** The words as the filter keeps them (lines 43-49). */
  function Lowered(words: seq<Text>): seq<Text> {
    seq(|words|, i requires 0 <= i < |words| => ToLower(words[i]))
  }

  /** The text after the listed words were masked one after the other. */
  function Filtered(content: Text, words: seq<Text>): (r: Text)
    requires Ends(content, words)
    ensures content == [] ==> r == []
  {
    if words == [] then content
    else Mask(Filtered(content, words[..|words| - 1]), ToLower(words[|words| - 1]))
  }

  lemma MaskWithoutMatch(s: Text, w: Text)
    requires (w != [] || s == []) && forall k :: 0 <= k ==> !Occurs(s, w, k)
    ensures Mask(s, w) == s
  {
    if w != [] {
      ScanEnds(s, w, Stars(|w|), 0);
    }
  }

  lemma LowerTwice(w: Text)
    ensures ToLower(ToLower(w)) == ToLower(w)
  {}

  class DirtyWordFilter {
    const words: seq<Text>
    /** The words as they were given. */
    ghost const listed: seq<Text>

    ghost predicate Valid() { words == Lowered(listed) }

    constructor (listed: seq<Text>)
      ensures Valid() && this.listed == listed
    {
      words, this.listed := Lowered(listed), listed;
    }

    /** Lines 51-61: guarded masking, word by word, with the lower-cased text kept in step. */
    method Check(content: Text) returns (r: FilterResult)
      requires Valid() && Ends(content, listed)
      ensures r == FilterResult(true, "", Filtered(content, listed))
      ensures Proper(listed) ==> forall i, q :: 0 <= i < |listed| && 0 <= q ==> !Reads(r.replace, listed[i], q)
    {
      var lowerContent := ToLower(content);
      var replaced := content;
      for i := 0 to |words|
        invariant replaced == Filtered(content, listed[..i]) && lowerContent == ToLower(replaced)
      {
        var word := words[i];
        assert listed[..i + 1][..i] == listed[..i];
        LowerTwice(listed[i]);
        FindsOccurrence(replaced, word, 0);
        if IndexFrom(lowerContent, word, 0).Some? {
          replaced := ReplaceIgnoreCase(replaced, word, Stars(|word|));
          lowerContent := ToLower(replaced);
        } else {
          MaskWithoutMatch(replaced, word);
        }
      }
      assert listed[..|words|] == listed;
      if Proper(listed) {
        forall i, q | 0 <= i < |listed| && 0 <= q ensures !Reads(replaced, listed[i], q) {
          NoListedWordLeft(content, listed, i, q);
        }
      }
      return FilterResult(true, "", replaced);
    }
  }

  // ---------------------------------------------------------------------
  // What the filter achieves
  // ---------------------------------------------------------------------

  predicate Proper(words: seq<Text>) {
    NonEmpty(words) && forall i :: 0 <= i < |words| ==> NoStar(words[i])
  }

  lemma LowerNoStar(w: Text)
    requires NoStar(w)
    ensures NoStar(ToLower(w))
  {}

  /** The word `w` can be read over position `p` of `s`, in any case. */
  ghost predicate ReadsOver(s: Text, w: Text, p: int) {
    exists q :: Reads(s, w, q) && q <= p < q + |w|
  }

  /** Some listed word lies over position `p` of `s`, in any case. */
  ghost predicate UnderListed(s: Text, words: seq<Text>, p: int) {
    exists i :: 0 <= i < |words| && ReadsOver(s, words[i], p)
  }

  lemma ReadsOverIff(s: Text, w: Text, p: int)
    ensures Over(s, ToLower(w), p) <==> ReadsOver(s, w, p)
  {
    if Over(s, ToLower(w), p) {
      var q :| Occurs(s, ToLower(w), q) && q <= p < q + |w|;
      ReadsIff(s, w, q);
    }
    if ReadsOver(s, w, p) {
      var q :| Reads(s, w, q) && q <= p < q + |w|;
      ReadsIff(s, w, q);
      assert Occurs(s, ToLower(w), q);
    }
  }

  lemma MatchInOriginal(content: Text, before: Text, w: Text, q: nat)
    requires StarredOut(content, before) && NoStar(w) && Occurs(before, w, q)
    ensures Occurs(content, w, q)
  {
    forall k | q <= k < q + |w| ensures before[k] == content[k] {
      MatchAvoidsStars(before, w, q, k);
    }
    MatchShifts(content, before, w, q, 0);
  }

  /** The length is kept, and a character changes only to a star. */
  lemma {:induction false} FilteredStars(content: Text, words: seq<Text>)
    requires NonEmpty(words)
    ensures StarredOut(content, Filtered(content, words))
    decreases |words|
  {
    if words != [] {
      var front := words[..|words| - 1];
      FilteredStars(content, front);
      MaskStarsOut(Filtered(content, front), ToLower(words[|words| - 1]));
    }
  }

  /** Non-empty words of which only the first may contain a star. */
  predicate ProperAfterFirst(words: seq<Text>) {
    NonEmpty(words) && forall i :: 1 <= i < |words| ==> NoStar(words[i])
  }

  /** A match in what the other words left is a match in the original, unless the word has a star and is not the first. */
  lemma MatchWasThere(content: Text, words: seq<Text>, q: nat)
    requires ProperAfterFirst(words) && words != []
    requires Occurs(Filtered(content, words[..|words| - 1]), ToLower(words[|words| - 1]), q)
    ensures Occurs(content, ToLower(words[|words| - 1]), q)
  {
    var n := |words| - 1;
    if n > 0 {
      FilteredStars(content, words[..n]);
      LowerNoStar(words[n]);
      MatchInOriginal(content, Filtered(content, words[..n]), ToLower(words[n]), q);
    }
  }

  /** The length is kept; a character changes only to a star, and only under a listed word of the original. */
  lemma {:induction false} OnlyListedStarred(content: Text, words: seq<Text>)
    requires ProperAfterFirst(words)
    ensures StarredOut(content, Filtered(content, words))
    ensures forall p :: 0 <= p < |content| && Filtered(content, words)[p] != content[p] ==> UnderListed(content, words, p)
    decreases |words|
  {
    FilteredStars(content, words);
    if words != [] {
      var n := |words| - 1;
      var front, w := words[..n], ToLower(words[n]);
      var before, r := Filtered(content, front), Filtered(content, words);
      OnlyListedStarred(content, front);
      MaskStarsOut(before, w);
      forall p | 0 <= p < |content| && r[p] != content[p] ensures UnderListed(content, words, p) {
        if before[p] != content[p] {
          var i :| 0 <= i < |front| && ReadsOver(content, front[i], p);
          assert front[i] == words[i];
        } else {
          var q :| Occurs(before, w, q) && q <= p < q + |w|;
          MatchWasThere(content, words, q);
          assert Over(content, ToLower(words[n]), p);
          ReadsOverIff(content, words[n], p);
        }
      }
    }
  }

  lemma {:induction false} NoLowerWordLeft(content: Text, words: seq<Text>, i: nat, q: nat)
    requires Proper(words) && i < |words|
    ensures !Occurs(Filtered(content, words), ToLower(words[i]), q)
    decreases |words|
  {
    var n := |words| - 1;
    var front, w := words[..n], ToLower(words[n]);
    var before := Filtered(content, front);
    LowerNoStar(words[i]);
    if i == n {
      MaskedFree(before, w, Stars(|w|), 0, q);
    } else {
      NoLowerWordLeft(content, front, i, q);
      assert front[i] == words[i];
      MaskStarsOut(before, w);
      StarsCreateNothing(before, w, 0, Filtered(content, words), ToLower(words[i]), q);
    }
  }

  /** No listed word can be read anywhere in the filtered text, in any case. */
  lemma {:induction false} NoListedWordLeft(content: Text, words: seq<Text>, i: nat, q: nat)
    requires Proper(words) && i < |words|
    ensures !Reads(Filtered(content, words), words[i], q)
  {
    NoLowerWordLeft(content, words, i, q);
    ReadsIff(Filtered(content, words), words[i], q);
  }

  /** Text in which no listed word can be read passes unchanged. */
  lemma {:induction false} CleanUnchanged(content: Text, words: seq<Text>)
    requires NonEmpty(words)
    requires forall i, q :: 0 <= i < |words| ==> !Reads(content, words[i], q)
    ensures Filtered(content, words) == content
    decreases |words|
  {
    if words != [] {
      var n := |words| - 1;
      assert forall i :: 0 <= i < n ==> words[..n][i] == words[i];
      CleanUnchanged(content, words[..n]);
      forall q ensures !Occurs(content, ToLower(words[n]), q) {
        ReadsIff(content, words[n], q);
      }
      MaskWithoutMatch(content, ToLower(words[n]));
    }
  }

  /** A second pass changes nothing. */
  lemma {:induction false} Idempotent(content: Text, words: seq<Text>)
    requires Proper(words)
    ensures Filtered(Filtered(content, words), words) == Filtered(content, words)
  {
    var r := Filtered(content, words);
    forall i, q | 0 <= i < |words| ensures !Reads(r, words[i], q) {
      if q >= 0 {
        NoListedWordLeft(content, words, i, q);
      }
    }
    CleanUnchanged(r, words);
  }

  // ---- Case makes no difference ----

  /** The same text but for the case of letters. */
  predicate SameText(s: Text, t: Text) {
    |s| == |t| && forall i :: 0 <= i < |s| ==> SameLetter(s[i], t[i])
  }

  lemma SameOccurs(s: Text, t: Text, w: Text, i: int)
    requires SameText(s, t)
    ensures Occurs(s, w, i) <==> Occurs(t, w, i)
  {
    if 0 <= i && i + |w| <= |s| {
      forall j | i <= j < i + |w| ensures LowerChar(s[j]) == LowerChar(t[j]) {
        LowerIff(s[j], t[j]);
      }
    }
  }

  lemma SameConcat(a: Text, s: Text, b: Text, t: Text)
    requires SameText(a, b) && SameText(s, t)
    ensures SameText(a + s, b + t)
  {}

  lemma {:induction false} SameReplaced(s: Text, t: Text, w: Text, mask: Text, i: nat)
    requires SameText(s, t) && w != [] && i <= |s|
    ensures SameText(Replaced(s, w, mask, i), Replaced(t, w, mask, i))
    decreases |s| - i
  {
    SameOccurs(s, t, w, i);
    if i < |s| && Occurs(s, w, i) {
      SameReplaced(s, t, w, mask, i + |w|);
      SameConcat(mask, Replaced(s, w, mask, i + |w|), mask, Replaced(t, w, mask, i + |w|));
    } else if i < |s| {
      SameReplaced(s, t, w, mask, i + 1);
      SameConcat([s[i]], Replaced(s, w, mask, i + 1), [t[i]], Replaced(t, w, mask, i + 1));
    }
  }

  lemma {:induction false} SameFiltered(s: Text, t: Text, words: seq<Text>)
    requires SameText(s, t) && NonEmpty(words)
    ensures SameText(Filtered(s, words), Filtered(t, words))
    decreases |words|
  {
    if words != [] {
      var n := |words| - 1;
      SameFiltered(s, t, words[..n]);
      SameReplaced(Filtered(s, words[..n]), Filtered(t, words[..n]), ToLower(words[n]), Stars(|words[n]|), 0);
    }
  }

  /** Texts that differ only in the case of letters are starred at the same positions. */
  lemma {:induction false} CaseBlind(s: Text, t: Text, words: seq<Text>, p: nat)
    requires SameText(s, t) && NonEmpty(words) && p < |s|
    ensures |Filtered(s, words)| == |Filtered(t, words)| == |s|
    ensures Filtered(s, words)[p] != s[p] <==> Filtered(t, words)[p] != t[p]
  {
    FilteredStars(s, words);
    FilteredStars(t, words);
    SameFiltered(s, t, words);
    assert SameLetter(s[p], t[p]) && SameLetter(Filtered(s, words)[p], Filtered(t, words)[p]);
  }

  lemma SameLower(w: Text, v: Text)
    requires SameText(w, v)
    ensures ToLower(w) == ToLower(v)
  {
    forall i | 0 <= i < |w| ensures LowerChar(w[i]) == LowerChar(v[i]) {
      LowerIff(w[i], v[i]);
    }
  }

  /** Nor does the case of the listed words matter. */
  lemma {:induction false} ListCaseBlind(content: Text, words: seq<Text>, others: seq<Text>)
    requires NonEmpty(words) && NonEmpty(others)
    requires |words| == |others| && forall i :: 0 <= i < |words| ==> SameText(words[i], others[i])
    ensures Filtered(content, words) == Filtered(content, others)
    decreases |words|
  {
    if words != [] {
      var n := |words| - 1;
      ListCaseBlind(content, words[..n], others[..n]);
      SameLower(words[n], others[n]);
    }
  }

  /** With a star in a later word that fails: here the second word matches only because the first was masked. */
  lemma StarInLaterWord()
    ensures Filtered("ab", ["b", "a*"]) == "**"
    ensures !UnderListed("ab", ["b", "a*"], 0)
  {
    var s: Text, b: Text, a: Text, half: Text := "ab", "b", "a*", "a*";
    assert ToLower(b) == b && ToLower(a) == a;
    assert Stars(1) == "*" && Stars(2) == "**";
    assert LowerChar(s[0 + 0]) != b[0] && LowerChar(s[1 + 0]) == b[0] && LowerChar(s[0 + 1]) != a[1];
    assert Mask(s, b) == half by {
      assert !Occurs(s, b, 0) && Occurs(s, b, 1);
      AtMatch(s, b, Stars(1), 1);
    }
    assert Mask(half, a) == "**" by {
      assert Occurs(half, a, 0);
      AtMatch(half, a, Stars(2), 0);
    }
    assert [b, a][..1] == [b] && [b][..0] == [];
    assert Filtered(s, [b]) == Mask(s, b);
    assert !Over(s, b, 0) && !Over(s, a, 0);
    ReadsOverIff(s, b, 0);
    ReadsOverIff(s, a, 0);
  }

  /** With a star in any word, also the first, the other two fail: a mask can complete the word again. */
  lemma StarInFirstWord()
    ensures Filtered("aa*", ["a*"]) == "a**" && Reads("a**", "a*", 0)
    ensures Filtered("a**", ["a*"]) == "***"
  {
    var s: Text, w: Text, once: Text := "aa*", "a*", "a**";
    assert ToLower(w) == w && Stars(2) == "**";
    assert LowerChar(s[0 + 1]) != w[1] && LowerChar(once[0 + 0]) == w[0] && LowerChar(once[0 + 1]) == w[1];
    assert LowerChar(s[1 + 0]) == w[0] && LowerChar(s[1 + 1]) == w[1] && LowerChar(once[2 + 0]) != w[0];
    assert Mask(s, w) == once by {
      assert !Occurs(s, w, 0) && Occurs(s, w, 1);
      AtMatch(s, w, Stars(2), 1);
    }
    assert Mask(once, w) == "***" by {
      assert Occurs(once, w, 0) && !Occurs(once, w, 2);
      AtMatch(once, w, Stars(2), 0);
    }
    assert [w][..0] == [];
  }

  // ---------------------------------------------------------------------
  // Chains
  // ---------------------------------------------------------------------

  type Filter = Text -> FilterResult

  /** Lines 25-36: each filter works on what the one before left; the first rejection ends it. */
  function Chained(filters: seq<Filter>, content: Text): FilterResult {
    if filters == [] then FilterResult(true, "", content)
    else
      var r := filters[0](content);
      if !r.pass then r else Chained(filters[1..], if r.replace != [] then r.replace else content)
  }

  method CheckChain(filters: seq<Filter>, content: Text) returns (r: FilterResult)
    ensures r == Chained(filters, content)
  {
    var current := content;
    for i := 0 to |filters|
      invariant Chained(filters[i..], current) == Chained(filters, content)
    {
      var result := filters[i](current);
      assert filters[i..][0] == filters[i] && filters[i..][1..] == filters[i + 1..];
      if !result.pass {
        return result;
      }
      if result.replace != [] {
        current := result.replace;
      }
    }
    return FilterResult(true, "", current);
  }

  /** The text after the first `k` filters, each working on what the one before left. */
  function Through(filters: seq<Filter>, k: nat, content: Text): Text
    requires k <= |filters|
  {
    if k == 0 then content
    else
      var before := Through(filters, k - 1, content);
      var r := filters[k - 1](before);
      if r.replace != [] then r.replace else before
  }

  lemma {:induction false} ChainFrom(filters: seq<Filter>, k: nat, content: Text)
    requires k <= |filters| && forall i :: 0 <= i < k ==> filters[i](Through(filters, i, content)).pass
    ensures Chained(filters, content) == Chained(filters[k..], Through(filters, k, content))
  {
    if k == 0 {
      assert filters[0..] == filters;
    } else {
      ChainFrom(filters, k - 1, content);
      assert filters[k - 1..][0] == filters[k - 1] && filters[k - 1..][1..] == filters[k..];
    }
  }

  /** The first filter that rejects gives the answer, whatever comes after it. */
  lemma {:induction false} ChainRejects(filters: seq<Filter>, k: nat, content: Text)
    requires k < |filters| && forall i :: 0 <= i < k ==> filters[i](Through(filters, i, content)).pass
    requires !filters[k](Through(filters, k, content)).pass
    ensures Chained(filters, content) == filters[k](Through(filters, k, content))
  {
    ChainFrom(filters, k, content);
  }

  /** If none rejects, the answer is what the last one left. */
  lemma {:induction false} ChainPasses(filters: seq<Filter>, content: Text)
    requires forall i :: 0 <= i < |filters| ==> filters[i](Through(filters, i, content)).pass
    ensures Chained(filters, content) == FilterResult(true, "", Through(filters, |filters|, content))
  {
    ChainFrom(filters, |filters|, content);
  }

  lemma {:induction false} FilteredConcat(content: Text, words: seq<Text>, more: seq<Text>)
    requires NonEmpty(words) && NonEmpty(more)
    ensures Filtered(content, words + more) == Filtered(Filtered(content, words), more)
    decreases |more|
  {
    if more == [] {
      assert words + more == words;
    } else {
      var n := |more| - 1;
      assert (words + more)[..|words + more| - 1] == words + more[..n];
      FilteredConcat(content, words, more[..n]);
    }
  }

  /** A chain of two word filters is one word filter on the joined list. */
  lemma {:induction false} ChainOfTwo(content: Text, words: seq<Text>, more: seq<Text>)
    requires NonEmpty(words) && NonEmpty(more)
    ensures var wordFilter := (c: Text) => FilterResult(true, "", Filtered(c, words));
            var moreFilter := (c: Text) => FilterResult(true, "", Filtered(c, more));
            Chained([wordFilter, moreFilter], content) == FilterResult(true, "", Filtered(content, words + more))
  {
    var wordFilter := (c: Text) => FilterResult(true, "", Filtered(c, words));
    var moreFilter := (c: Text) => FilterResult(true, "", Filtered(c, more));
    FilteredConcat(content, words, more);
    FilteredStars(content, words);
    var middle := Filtered(content, words);
    FilteredStars(middle, more);
    assert [wordFilter, moreFilter][1..] == [moreFilter];
    assert Chained([moreFilter], middle).replace == Filtered(middle, more);
  }
}

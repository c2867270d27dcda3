/** The fuzzy matcher of fuzzy.c: two-pass subsequence matching, exact matching, groups of terms, and the
  * columns a match is drawn in.  A character is its bytes in UTF-8; decoding them is not modelled. */
module Fuzzy {
  import opened Bytes

  type Char = seq<Byte>

  const BONUS_EXACT: int := 1000
  const BONUS_PREFIX: int := 200
  const BONUS_SUFFIX: int := 100
  const BONUS_START: int := 12
  const BONUS_BOUNDARY: int := 8
  const BONUS_CONSECUTIVE: int := 6
  const LEADING_MAX: int := 10

  function Lower(b: Byte): Byte {
    if 0x41 <= b <= 0x5a then b + 0x20 else b
  }

  /** `fuzzy_char_equal`: ASCII case is folded if wanted. */
  predicate Equal(a: Char, b: Char, fold: bool) {
    if fold && |a| == 1 && |b| == 1 && a[0] < 0x80 && b[0] < 0x80 then Lower(a[0]) == Lower(b[0]) else a == b
  }

  /** One of " -_/.:", or the zero byte that ends that list. */
  predicate Boundary(c: Char) {
    |c| == 1 && c[0] in {0x20, 0x2d, 0x5f, 0x2f, 0x2e, 0x3a, 0}
  }

  predicate Upper(c: Char) {
    |c| == 1 && 0x41 <= c[0] <= 0x5a
  }

  /** The lower-case letter of an upper-case one. */
  predicate CaseOf(a: Char, b: Char) {
    Upper(a) && |b| == 1 && b[0] == a[0] + 0x20
  }

  /** Two characters are equal if they are the same or, when case is folded, the two cases of one letter of
    * ASCII; so equality is symmetric and transitive, and folding never separates what was equal. */
  lemma EqualExact(a: Char, b: Char, c: Char, fold: bool)
    ensures Equal(a, b, fold) <==> a == b || (fold && (CaseOf(a, b) || CaseOf(b, a)))
    ensures Equal(a, b, fold) ==> Equal(b, a, fold) && (Equal(b, c, fold) ==> Equal(a, c, fold))
  {
    if |a| == 1 && |b| == 1 && a[0] == b[0] { assert a == b; }
  }

  // ---- Subsequences ----

  /** The token's characters from `lo` up to `hi` stand at these places of the text, in order. */
  predicate Placed(tok: seq<Char>, cs: seq<Char>, fold: bool, pos: seq<nat>, lo: nat, hi: nat)
    requires lo <= hi <= |pos| == |tok|
  {
    && (forall i :: lo <= i < hi ==> pos[i] < |cs| && Equal(tok[i], cs[pos[i]], fold))
    && (forall i, j :: lo <= i < j < hi ==> pos[i] < pos[j])
  }

  /** An embedding of the token in the text. */
  predicate Embeds(tok: seq<Char>, cs: seq<Char>, fold: bool, pos: seq<nat>) {
    |pos| == |tok| && Placed(tok, cs, fold, pos, 0, |tok|)
  }

  ghost predicate IsSubsequence(tok: seq<Char>, cs: seq<Char>, fold: bool) {
    exists pos :: Embeds(tok, cs, fold, pos)
  }

  /** The first pass finds the embedding that is earliest at every place, if there is any. */
  method Forward(tok: seq<Char>, cs: seq<Char>, fold: bool) returns (pos: Option<seq<nat>>)
    ensures pos.None? ==> !IsSubsequence(tok, cs, fold)
    ensures pos.Some? ==> Embeds(tok, cs, fold, pos.value)
    ensures pos.Some? ==> forall e :: Embeds(tok, cs, fold, e) ==> forall i :: 0 <= i < |tok| ==> pos.value[i] <= e[i]
  {
    hide Equal;
    var at: seq<nat>, ci := Start(|tok|), 0;
    for pi := 0 to |tok|
      invariant |at| == |tok| && Placed(tok, cs, fold, at, 0, pi) && ci <= |cs|
      invariant if pi == 0 then ci == 0 else ci == at[pi - 1] + 1
      invariant forall e :: Embeds(tok, cs, fold, e) ==> forall i :: 0 <= i < pi ==> at[i] <= e[i]
    {
      ghost var from := ci;
      while ci != |cs| && !Equal(tok[pi], cs[ci], fold)
        invariant from <= ci <= |cs| && forall k :: from <= k < ci ==> !Equal(tok[pi], cs[k], fold)
        decreases |cs| - ci
      {
        ci := ci + 1;
      }
      forall e | Embeds(tok, cs, fold, e) ensures from <= e[pi] && ci <= e[pi] < |cs| {
        if pi > 0 { assert at[pi - 1] <= e[pi - 1] < e[pi]; }
      }
      if ci == |cs| {
        return None;
      }
      at := at[pi := ci];
      ci := ci + 1;
    }
    return Some(at);
  }

  function Start(n: nat): (s: seq<nat>)
    ensures |s| == n
  {
    seq(n, i => 0)
  }

  /** No embedding with this end is later at any place from `lo` on. */
  ghost predicate Latest(tok: seq<Char>, cs: seq<Char>, fold: bool, end: nat, pos: seq<nat>, lo: nat)
    requires tok != [] && |pos| == |tok|
  {
    forall e :: Embeds(tok, cs, fold, e) && e[|tok| - 1] == end ==> forall i :: lo <= i < |tok| ==> e[i] <= pos[i]
  }

  /** The search back from `from` for a character; one is known to be at `low`. */
  method SearchBack(c: Char, cs: seq<Char>, fold: bool, from: nat, ghost low: nat) returns (found: bool, ci: nat)
    requires low <= from < |cs| && Equal(c, cs[low], fold)
    ensures found && low <= ci <= from && Equal(c, cs[ci], fold)
    ensures forall k :: ci < k <= from ==> !Equal(c, cs[k], fold)
  {
    hide Equal;
    ci := from;
    while !Equal(c, cs[ci], fold)
      invariant low <= ci <= from && forall k :: ci < k <= from ==> !Equal(c, cs[k], fold)
      decreases ci
    {
      if ci == 0 {
        assert false;
        return false, ci;
      }
      ci := ci - 1;
    }
    found := true;
  }

  /** One more place from the end. */
  lemma BackStep(tok: seq<Char>, cs: seq<Char>, fold: bool, end: nat, pos: seq<nat>, pi: nat, from: nat, ci: nat)
    requires 0 < pi <= |tok| == |pos| && Placed(tok, cs, fold, pos, pi, |tok|)
    requires if pi == |tok| then from == end else from + 1 == pos[pi]
    requires ci <= from < |cs| && Equal(tok[pi - 1], cs[ci], fold)
    requires forall k :: ci < k <= from ==> !Equal(tok[pi - 1], cs[k], fold)
    requires Latest(tok, cs, fold, end, pos, pi)
    ensures Placed(tok, cs, fold, pos[pi - 1 := ci], pi - 1, |tok|)
    ensures Latest(tok, cs, fold, end, pos[pi - 1 := ci], pi - 1)
  {
    hide Equal;
    forall e | Embeds(tok, cs, fold, e) && e[|tok| - 1] == end
      ensures forall i :: pi - 1 <= i < |tok| ==> e[i] <= pos[pi - 1 := ci][i]
    {
      assert e[pi - 1] <= from by {
        if pi < |tok| { assert e[pi - 1] < e[pi] <= pos[pi]; }
      }
    }
  }

  /** The second pass, from the end of an embedding: it always succeeds and stays within the text, and no
    * embedding with the same end is later anywhere. */
  method Backward(tok: seq<Char>, cs: seq<Char>, fold: bool, first: seq<nat>) returns (found: bool, pos: seq<nat>)
    requires tok != [] && Embeds(tok, cs, fold, first)
    ensures found && Embeds(tok, cs, fold, pos) && pos[|tok| - 1] == first[|tok| - 1]
    ensures Latest(tok, cs, fold, first[|tok| - 1], pos, 0)
  {
    hide Equal;
    pos := first;
    var ci, pi: nat := pos[|tok| - 1], |tok|;
    ghost var end := ci;
    while pi > 0
      invariant pi <= |tok| == |pos| && Placed(tok, cs, fold, pos, pi, |tok|) && ci < |cs|
      invariant if pi == |tok| then ci == end else pi == 0 || ci + 1 == pos[pi]
      invariant pi < |tok| ==> pos[|tok| - 1] == end
      invariant Latest(tok, cs, fold, end, pos, pi)
    {
      ghost var low := first[pi - 1];
      InReach(tok, cs, fold, first, pos, pi);
      var one, at := SearchBack(tok[pi - 1], cs, fold, ci, low);
      if !one {
        return false, pos;
      }
      BackStep(tok, cs, fold, end, pos, pi, ci, at);
      if pi == |tok| {
        assert at == end;
      }
      pos := pos[pi - 1 := at];
      ci := if pi != 1 then at - 1 else at;
      pi := pi - 1;
    }
    found := true;
  }

  /** The place of the first pass is never later than what the second one has found, nor the first one before
    * the start of the text. */
  lemma InReach(tok: seq<Char>, cs: seq<Char>, fold: bool, first: seq<nat>, pos: seq<nat>, pi: nat)
    requires tok != [] && Embeds(tok, cs, fold, first) && 0 < pi <= |tok| == |pos|
    requires Latest(tok, cs, fold, first[|tok| - 1], pos, pi)
    ensures pi < |tok| ==> first[pi - 1] < first[pi] <= pos[pi]
    ensures pi > 1 ==> first[pi - 1] > 0
  {
    hide Equal;
    assert pi > 1 ==> first[0] < first[pi - 1];
  }

  // ---- Scores ----

  /** What a match gains or loses by where it starts. */
  function LeadingScore(start: nat, cs: seq<Char>): int
    requires start <= |cs|
  {
    if start == 0 then BONUS_START
    else (if Boundary(cs[start - 1]) then BONUS_BOUNDARY else 0) - if start < LEADING_MAX then start else LEADING_MAX
  }

  /** A start at the very beginning is the best there is.  Elsewhere a boundary before it is worth eight, and every
    * column further in costs one, up to ten. */
  lemma StartIsWorth(a: nat, b: nat, cs: seq<Char>)
    requires 0 < a <= b <= |cs|
    ensures LeadingScore(0, cs) == 12 && LeadingScore(b, cs) <= 7
    ensures Boundary(cs[a - 1]) == Boundary(cs[b - 1]) ==>
              LeadingScore(a, cs) - LeadingScore(b, cs) == if b <= 10 then b - a else if a <= 10 then 10 - a else 0
    ensures Boundary(cs[b - 1]) && !Boundary(cs[a - 1]) && a == b - 1 ==> LeadingScore(b, cs) >= LeadingScore(a, cs) + 7
    ensures LeadingScore(a, cs) >= -10
  {
  }

  predicate Climbing(pos: seq<nat>) {
    forall i, j :: 0 <= i < j < |pos| ==> pos[i] < pos[j]
  }

  predicate Run(pos: seq<nat>, i: nat) {
    0 < i < |pos| && pos[i] == pos[i - 1] + 1
  }

  predicate WordStart(pos: seq<nat>, cs: seq<Char>, i: nat) {
    0 < i < |pos| && pos[i] != pos[i - 1] + 1 && 0 < pos[i] <= |cs| && Boundary(cs[pos[i] - 1])
  }

  /** The characters that directly follow the one matched before them. */
  function Runs(pos: seq<nat>): set<nat> {
    set i: nat | i < |pos| && Run(pos, i)
  }

  /** Those that do not, but follow a boundary. */
  function WordStarts(pos: seq<nat>, cs: seq<Char>): set<nat> {
    set i: nat | i < |pos| && WordStart(pos, cs, i)
  }

  /** The characters of the text between the first and the last place that are not matched. */
  function Skipped(pos: seq<nat>): set<nat>
    requires pos != []
  {
    set k: nat | pos[0] <= k <= pos[|pos| - 1] && k !in pos
  }

  /** What a match is worth: where it starts, six for every run, eight for every start of a word, and one
    * less for every character it skips. */
  function PositionsScore(pos: seq<nat>, cs: seq<Char>): int
    requires pos != [] && forall i :: 0 <= i < |pos| ==> pos[i] < |cs|
  {
    LeadingScore(pos[0], cs) + BONUS_CONSECUTIVE * |Runs(pos)| + BONUS_BOUNDARY * |WordStarts(pos, cs)| - |Skipped(pos)|
  }

  /** `fuzzy_score_positions`. */
  method ScorePositions(pos: seq<nat>, cs: seq<Char>) returns (score: int)
    requires pos != [] && Climbing(pos) && forall i :: 0 <= i < |pos| ==> pos[i] < |cs|
    ensures score == PositionsScore(pos, cs)
  {
    hide Boundary, Runs, WordStarts, Skipped;
    score := LeadingScore(pos[0], cs);
    OnePlace(pos[..1], cs);
    for i := 1 to |pos|
      invariant score == LeadingScore(pos[0], cs) + BONUS_CONSECUTIVE * |Runs(pos[..i])|
                         + BONUS_BOUNDARY * |WordStarts(pos[..i], cs)|
    {
      OneMore(pos[..i], pos[i], cs);
      assert pos[..i] + [pos[i]] == pos[..i + 1];
      if pos[i] == pos[i - 1] + 1 {
        score := score + BONUS_CONSECUTIVE;
      } else if Boundary(cs[pos[i] - 1]) {
        score := score + BONUS_BOUNDARY;
      }
    }
    assert pos[..|pos|] == pos;
    SkippedCount(pos);
    var span := pos[|pos| - 1] - pos[0] + 1;
    score := score - (span - |pos|);
  }

  lemma OnePlace(pos: seq<nat>, cs: seq<Char>)
    requires |pos| == 1
    ensures Runs(pos) == {} && WordStarts(pos, cs) == {}
  {
  }

  lemma OneMore(pos: seq<nat>, p: nat, cs: seq<Char>)
    requires pos != [] && pos[|pos| - 1] < p < |cs|
    ensures var run := p == pos[|pos| - 1] + 1;
            && |Runs(pos + [p])| == |Runs(pos)| + (if run then 1 else 0)
            && |WordStarts(pos + [p], cs)| == |WordStarts(pos, cs)| + if !run && Boundary(cs[p - 1]) then 1 else 0
  {
    hide Boundary, Runs, WordStarts;
    var run, n := p == pos[|pos| - 1] + 1, |pos|;
    OneMoreIn(pos, p, cs);
    Joined(Runs(pos), Runs(pos + [p]), n, run);
    Joined(WordStarts(pos, cs), WordStarts(pos + [p], cs), n, !run && Boundary(cs[p - 1]));
  }

  lemma OneMoreIn(pos: seq<nat>, p: nat, cs: seq<Char>)
    requires pos != [] && pos[|pos| - 1] < p < |cs|
    ensures var run := p == pos[|pos| - 1] + 1;
            && (forall i: nat :: i in Runs(pos + [p]) <==> i in Runs(pos) || (i == |pos| && run))
            && (forall i: nat :: i in WordStarts(pos + [p], cs)
                 <==> i in WordStarts(pos, cs) || (i == |pos| && !run && Boundary(cs[p - 1])))
            && |pos| !in Runs(pos) && |pos| !in WordStarts(pos, cs)
  {
    hide Boundary;
  }

  lemma Joined(before: set<nat>, after: set<nat>, n: nat, more: bool)
    requires n !in before && forall i :: i in after <==> i in before || (i == n && more)
    ensures |after| == |before| + if more then 1 else 0
  {
    assert after == before + if more then {n} else {};
  }

  /** The numbers between two. */
  function Between(lo: nat, hi: nat): (r: set<nat>)
    requires lo < hi
    ensures forall k :: k in r <==> lo < k < hi
    ensures |r| == hi - lo - 1
    decreases hi
  {
    if lo + 1 == hi then {} else Between(lo, hi - 1) + {hi - 1}
  }

  /** So many are skipped as the span is longer than the match. */
  lemma {:induction false} SkippedCount(pos: seq<nat>)
    requires pos != [] && Climbing(pos)
    ensures |Skipped(pos)| == pos[|pos| - 1] - pos[0] + 1 - |pos|
  {
    var n := |pos| - 1;
    if n == 0 {
      assert Skipped(pos) == {};
    } else {
      SkippedCount(pos[..n]);
      SkippedMore(pos);
    }
  }

  lemma SkippedMore(pos: seq<nat>)
    requires |pos| > 1 && Climbing(pos)
    ensures var n := |pos| - 1;
            var gap := Between(pos[n - 1], pos[n]);
            Skipped(pos) == Skipped(pos[..n]) + gap && Skipped(pos[..n]) !! gap
  {
    var n := |pos| - 1;
    assert pos == pos[..n] + [pos[n]];
    forall k: nat | pos[n - 1] < k < pos[n] ensures k !in pos {
      assert forall i :: 0 <= i < n ==> pos[i] <= pos[n - 1];
    }
    forall k | k in Skipped(pos) && k <= pos[n - 1] ensures k in Skipped(pos[..n]) {}
    forall k | k in Skipped(pos[..n]) ensures k in Skipped(pos) {
      assert k < pos[n];
    }
  }

  /** A step over exactly one character, a boundary, is worth more than a run. */
  predicate Hop(pos: seq<nat>, cs: seq<Char>, i: nat) {
    0 < i < |pos| && WordStart(pos, cs, i) && pos[i] == pos[i - 1] + 2
  }

  /** What the last step adds. */
  lemma LastStep(pos: seq<nat>, cs: seq<Char>)
    requires |pos| > 1 && Climbing(pos) && forall i :: 0 <= i < |pos| ==> pos[i] < |cs|
    ensures var n := |pos| - 1;
            PositionsScore(pos, cs) == PositionsScore(pos[..n], cs)
              + if Run(pos, n) then BONUS_CONSECUTIVE
                else (if WordStart(pos, cs, n) then BONUS_BOUNDARY else 0) - (pos[n] - pos[n - 1] - 1)
  {
    hide Runs, WordStarts, Skipped, Boundary;
    var n := |pos| - 1;
    SkippedCount(pos);
    SkippedCount(pos[..n]);
    OneMore(pos[..n], pos[n], cs);
    assert pos[..n] + [pos[n]] == pos;
  }

  /** A match in one run is worth the most of all that start with it, those aside that hop over a boundary. */
  lemma {:induction false} RunIsBest(pos: seq<nat>, cs: seq<Char>)
    requires pos != [] && Climbing(pos) && forall i :: 0 <= i < |pos| ==> pos[i] < |cs|
    ensures (forall i: nat :: i < |pos| ==> !Hop(pos, cs, i)) ==>
              PositionsScore(pos, cs) <= LeadingScore(pos[0], cs) + BONUS_CONSECUTIVE * (|pos| - 1)
    ensures (forall i: nat :: 0 < i < |pos| ==> Run(pos, i)) ==>
              PositionsScore(pos, cs) == LeadingScore(pos[0], cs) + BONUS_CONSECUTIVE * (|pos| - 1)
  {
    var n := |pos| - 1;
    if n == 0 {
      OnePlace(pos, cs);
      SkippedCount(pos);
    } else {
      hide PositionsScore, LeadingScore;
      RunIsBest(pos[..n], cs);
      LastStep(pos, cs);
      assert forall i: nat :: i < n ==> Hop(pos[..n], cs, i) == Hop(pos, cs, i) && Run(pos[..n], i) == Run(pos, i);
      assert !Hop(pos, cs, n) && !Run(pos, n) && WordStart(pos, cs, n) ==> pos[n] - pos[n - 1] - 1 >= 2;
      hide Hop, Run, WordStart, Climbing;
    }
  }

  /** A hop is worth one more than a run, and nothing is worth more than a hop at every step. */
  lemma {:induction false} HopIsMost(pos: seq<nat>, cs: seq<Char>)
    requires pos != [] && Climbing(pos) && forall i :: 0 <= i < |pos| ==> pos[i] < |cs|
    ensures PositionsScore(pos, cs) <= LeadingScore(pos[0], cs) + (BONUS_CONSECUTIVE + 1) * (|pos| - 1)
    ensures (forall i: nat :: 0 < i < |pos| ==> Hop(pos, cs, i)) ==>
              PositionsScore(pos, cs) == LeadingScore(pos[0], cs) + (BONUS_CONSECUTIVE + 1) * (|pos| - 1)
  {
    var n := |pos| - 1;
    if n == 0 {
      OnePlace(pos, cs);
      SkippedCount(pos);
    } else {
      hide PositionsScore, LeadingScore;
      HopIsMost(pos[..n], cs);
      LastStep(pos, cs);
      assert forall i: nat :: i < n ==> Hop(pos[..n], cs, i) == Hop(pos, cs, i);
      assert !Run(pos, n) ==> pos[n] - pos[n - 1] - 1 >= 1;
      assert Hop(pos, cs, n) ==> !Run(pos, n) && WordStart(pos, cs, n) && pos[n] - pos[n - 1] - 1 == 1;
      hide Hop, Run, WordStart, Climbing;
    }
  }

  // ---- Matching one token ----

  /** These places are marked besides those that were. */
  predicate Marks(before: seq<bool>, after: seq<bool>, pos: seq<nat>) {
    |after| == |before| && forall k :: 0 <= k < |after| ==> (after[k] <==> before[k] || k in pos)
  }

  /** The embedding that is marked: no other with the same end starts later, and none ends earlier. */
  ghost predicate Tightest(tok: seq<Char>, cs: seq<Char>, fold: bool, pos: seq<nat>) {
    && tok != [] && Embeds(tok, cs, fold, pos)
    && (forall e :: Embeds(tok, cs, fold, e) ==> pos[|tok| - 1] <= e[|tok| - 1])
    && Latest(tok, cs, fold, pos[|tok| - 1], pos, 0)
  }

  /** `fuzzy_match_fuzzy`: a token matches if and only if it is a subsequence. */
  method MatchFuzzy(tok: seq<Char>, cs: seq<Char>, fold: bool, marks: seq<bool>)
    returns (ok: bool, score: int, matched: seq<bool>, ghost pos: seq<nat>)
    requires |marks| == |cs|
    ensures ok <==> tok != [] && IsSubsequence(tok, cs, fold)
    ensures !ok ==> score == 0 && matched == marks
    ensures ok ==> Tightest(tok, cs, fold, pos) && score == PositionsScore(pos, cs) && Marks(marks, matched, pos)
  {
    hide Equal, PositionsScore, Marks;
    ok, score, matched, pos := false, 0, marks, [];
    if tok == [] || cs == [] {
      NoneInEmpty(tok, cs, fold);
      return;
    }
    var first := Forward(tok, cs, fold);
    if first.None? {
      return;
    }
    var found, at := Backward(tok, cs, fold, first.value);
    if !found {
      return;
    }
    pos := at;
    assert Embeds(tok, cs, fold, at);
    score := ScorePositions(at, cs);
    matched := Mark(marks, at);
    ok := true;
  }

  lemma NoneInEmpty(tok: seq<Char>, cs: seq<Char>, fold: bool)
    requires tok == [] || cs == []
    ensures !(tok != [] && IsSubsequence(tok, cs, fold))
  {
    forall pos ensures tok != [] && cs == [] ==> !Embeds(tok, cs, fold, pos) {
      assert |pos| == |tok| && tok != [] && cs == [] ==> pos[0] >= |cs|;
    }
  }

  method Mark(marks: seq<bool>, pos: seq<nat>) returns (matched: seq<bool>)
    requires forall i :: 0 <= i < |pos| ==> pos[i] < |marks|
    ensures Marks(marks, matched, pos)
  {
    matched := marks;
    for i := 0 to |pos|
      invariant Marks(marks, matched, pos[..i])
    {
      matched := matched[pos[i] := true];
      assert pos[..i + 1] == pos[..i] + [pos[i]];
    }
    assert pos[..|pos|] == pos;
  }

  /** The token stands in the text at `i`. */
  predicate Occurs(tok: seq<Char>, cs: seq<Char>, fold: bool, i: nat) {
    i + |tok| <= |cs| && forall j :: 0 <= j < |tok| ==> Equal(tok[j], cs[i + j], fold)
  }

  /** Where the anchors allow a match: at the start, at the end, or both. */
  predicate Anchored(tok: seq<Char>, cs: seq<Char>, prefix: bool, suffix: bool, i: nat) {
    (prefix ==> i == 0) && (suffix ==> i + |tok| == |cs|)
  }

  predicate Hit(tok: seq<Char>, cs: seq<Char>, fold: bool, prefix: bool, suffix: bool, i: nat) {
    Anchored(tok, cs, prefix, suffix, i) && Occurs(tok, cs, fold, i)
  }

  /** `fuzzy_score_exact`. */
  function ExactScore(start: nat, n: nat, cs: seq<Char>, prefix: bool, suffix: bool): int
    requires start + n <= |cs|
  {
    BONUS_EXACT + n * BONUS_CONSECUTIVE + (if prefix then BONUS_PREFIX else 0) + (if suffix then BONUS_SUFFIX else 0)
    + LeadingScore(start, cs) - if !prefix && !suffix then |cs| - (start + n) else 0
  }

  /** An exact match is worth what the same characters are worth as a fuzzy match in one run, and a thousand and
    * six more; an anchor adds two hundred or one hundred, and without any the text behind costs one each. */
  lemma ExactIsWorth(start: nat, n: nat, cs: seq<Char>, prefix: bool, suffix: bool)
    requires 0 < n && start + n <= |cs|
    ensures ExactScore(start, n, cs, prefix, suffix) - PositionsScore(Range(start, n), cs)
         == match (prefix, suffix)
            case (false, false) => 1006 - (|cs| - start - n)
            case (true, false) => 1206
            case (false, true) => 1106
            case (true, true) => 1306
  {
    var pos := Range(start, n);
    assert Climbing(pos);
    assert forall i: nat :: 0 < i < |pos| ==> Run(pos, i);
    hide PositionsScore, LeadingScore;
    RunIsBest(pos, cs);
    assert pos[0] == start;
  }

  method OccursAt(tok: seq<Char>, cs: seq<Char>, fold: bool, i: nat) returns (ok: bool)
    requires i + |tok| <= |cs|
    ensures ok <==> Occurs(tok, cs, fold, i)
  {
    hide Equal;
    for j := 0 to |tok|
      invariant forall k :: 0 <= k < j ==> Equal(tok[k], cs[i + k], fold)
    {
      if !Equal(tok[j], cs[i + j], fold) {
        return false;
      }
    }
    return true;
  }

  /** The best-scoring place, and of those the first. */
  ghost predicate BestHit(tok: seq<Char>, cs: seq<Char>, fold: bool, prefix: bool, suffix: bool, i: nat) {
    && Hit(tok, cs, fold, prefix, suffix, i)
    && (forall k: nat :: Hit(tok, cs, fold, prefix, suffix, k) ==>
          ExactScore(k, |tok|, cs, prefix, suffix) <= ExactScore(i, |tok|, cs, prefix, suffix))
    && (forall k: nat :: k < i && Hit(tok, cs, fold, prefix, suffix, k) ==>
          ExactScore(k, |tok|, cs, prefix, suffix) < ExactScore(i, |tok|, cs, prefix, suffix))
  }

  /** `fuzzy_match_exact`. */
  method MatchExact(tok: seq<Char>, cs: seq<Char>, fold: bool, prefix: bool, suffix: bool)
    returns (best: Option<nat>, score: int)
    ensures best.None? <==> tok == [] || forall i :: !Hit(tok, cs, fold, prefix, suffix, i)
    ensures best.None? ==> score == 0
    ensures best.Some? ==> BestHit(tok, cs, fold, prefix, suffix, best.value)
                           && score == ExactScore(best.value, |tok|, cs, prefix, suffix)
  {
    hide Equal, ExactScore;
    best, score := None, 0;
    if tok == [] || |tok| > |cs| || (prefix && suffix && |tok| != |cs|) {
      return;
    }
    var start := if suffix && !prefix then |cs| - |tok| else 0;
    var end := if prefix || suffix then start + 1 else |cs| - |tok| + 1;
    for i := start to end
      invariant best.None? <==> forall k :: start <= k < i ==> !Hit(tok, cs, fold, prefix, suffix, k)
      invariant best.None? ==> score == 0
      invariant best.Some? ==>
                  && start <= best.value < i && Hit(tok, cs, fold, prefix, suffix, best.value)
                  && score == ExactScore(best.value, |tok|, cs, prefix, suffix)
                  && (forall k :: start <= k < i && Hit(tok, cs, fold, prefix, suffix, k) ==>
                        ExactScore(k, |tok|, cs, prefix, suffix) <= score)
                  && (forall k :: start <= k < best.value && Hit(tok, cs, fold, prefix, suffix, k) ==>
                        ExactScore(k, |tok|, cs, prefix, suffix) < score)
    {
      var ok := OccursAt(tok, cs, fold, i);
      assert ok <==> Hit(tok, cs, fold, prefix, suffix, i);
      if ok {
        var value := ExactScore(i, |tok|, cs, prefix, suffix);
        if best.None? || value > score {
          best, score := Some(i), value;
        }
      }
    }
    assert forall k: nat :: Hit(tok, cs, fold, prefix, suffix, k) ==> start <= k < end;
  }

  // ---- Terms and groups ----

  /** A parsed term; a term with an anchor, a quote or an exclamation mark is exact. */
  datatype Term = Term(inverse: bool, exact: bool, prefix: bool, suffix: bool, tok: seq<Char>)

  /** The text has what the term asks for, whether or not the term is inverse. */
  ghost predicate Holds(term: Term, cs: seq<Char>, fold: bool) {
    term.tok != [] &&
    if term.exact then exists i :: Hit(term.tok, cs, fold, term.prefix, term.suffix, i)
    else IsSubsequence(term.tok, cs, fold)
  }

  /** The places that may be marked for a positive term. */
  ghost predicate Explains(term: Term, cs: seq<Char>, fold: bool, pos: seq<nat>) {
    if term.exact then
      exists i :: BestHit(term.tok, cs, fold, term.prefix, term.suffix, i) && pos == Range(i, |term.tok|)
    else Tightest(term.tok, cs, fold, pos)
  }

  function Range(i: nat, n: nat): (s: seq<nat>)
    ensures |s| == n && forall j :: 0 <= j < n ==> s[j] == i + j
  {
    seq(n, j requires 0 <= j => i + j)
  }

  /** A longer term than the text cannot match. */
  lemma TooLong(term: Term, cs: seq<Char>, fold: bool)
    requires |term.tok| > |cs|
    ensures !Holds(term, cs, fold)
  {
    forall pos ensures !Embeds(term.tok, cs, fold, pos) {
      if |pos| == |term.tok| && Placed(term.tok, cs, fold, pos, 0, |pos|) {
        Climbs(pos, |pos| - 1);
        assert false;
      }
    }
  }

  lemma {:induction false} Climbs(pos: seq<nat>, i: nat)
    requires i < |pos| && forall j, k :: 0 <= j < k < |pos| ==> pos[j] < pos[k]
    ensures pos[i] >= i
  {
    if i > 0 { Climbs(pos, i - 1); }
  }

  /** What a term asks for: that the text has something, or has it not. */
  ghost predicate Agrees(term: Term, cs: seq<Char>, fold: bool) {
    if term.inverse then !Holds(term, cs, fold) else Holds(term, cs, fold)
  }

  /** A positive term is worth its places; an inverse one has none and is worth nothing. */
  ghost predicate Worth(term: Term, cs: seq<Char>, fold: bool, pos: seq<nat>, score: int) {
    if term.inverse then pos == [] && score == 0
    else
      && Explains(term, cs, fold, pos) && pos != [] && (forall i :: 0 <= i < |pos| ==> pos[i] < |cs|)
      && if term.exact then
           pos[0] + |pos| <= |cs| && score == ExactScore(pos[0], |pos|, cs, term.prefix, term.suffix)
         else score == PositionsScore(pos, cs)
  }

  /** `fuzzy_match_term`. */
  method MatchTerm(term: Term, cs: seq<Char>, fold: bool, marks: seq<bool>)
    returns (ok: bool, score: int, matched: seq<bool>, ghost pos: seq<nat>)
    requires |marks| == |cs| && (term.inverse ==> term.exact)
    ensures ok <==> Agrees(term, cs, fold)
    ensures !ok ==> score == 0 && matched == marks
    ensures ok ==> Worth(term, cs, fold, pos, score) && Marks(marks, matched, pos)
  {
    hide Equal, ExactScore, PositionsScore, Hit;
    score, matched, pos := 0, marks, [];
    if |term.tok| > |cs| {
      TooLong(term, cs, fold);
      return term.inverse, score, matched, pos;
    }
    if !term.exact {
      ok, score, matched, pos := MatchFuzzy(term.tok, cs, fold, marks);
      return;
    }
    var best, value := MatchExact(term.tok, cs, fold, term.prefix, term.suffix);
    if term.inverse {
      return best.None?, score, matched, pos;
    }
    if best.None? {
      return false, score, matched, pos;
    }
    pos := Range(best.value, |term.tok|);
    InText(term, cs, fold, best.value);
    matched := Mark(marks, Range(best.value, |term.tok|));
    return true, value, matched, pos;
  }

  lemma InText(term: Term, cs: seq<Char>, fold: bool, i: nat)
    requires Hit(term.tok, cs, fold, term.prefix, term.suffix, i)
    ensures i + |term.tok| <= |cs|
  {
  }

  // ---- Groups ----

  /** A group of no terms does not match, nor one with a term that cannot be parsed. */
  ghost predicate GroupHolds(terms: seq<Option<Term>>, cs: seq<Char>, fold: bool) {
    terms != [] && forall i :: 0 <= i < |terms| ==> terms[i].Some? && Agrees(terms[i].value, cs, fold)
  }

  function Sum(values: seq<int>): int {
    if values == [] then 0 else Sum(values[..|values| - 1]) + values[|values| - 1]
  }

  ghost predicate MarkedBy(marks: seq<bool>, places: seq<seq<nat>>) {
    forall k :: 0 <= k < |marks| ==> (marks[k] <==> exists i :: 0 <= i < |places| && k in places[i])
  }

  /** `fuzzy_match_group`: a group matches if and only if it has terms and all agree; then every positive
    * term has its places, exactly these are marked, and the score is what they are worth together. */
  method MatchGroup(terms: seq<Option<Term>>, cs: seq<Char>, fold: bool)
    returns (ok: bool, score: int, matched: seq<bool>, ghost places: seq<seq<nat>>, ghost values: seq<int>)
    requires forall t :: t in terms && t.Some? ==> (t.value.inverse ==> t.value.exact)
    ensures |matched| == |cs| && (ok <==> GroupHolds(terms, cs, fold))
    ensures ok ==> |places| == |values| == |terms|
    ensures ok ==> forall i :: 0 <= i < |terms| ==> Worth(terms[i].value, cs, fold, places[i], values[i])
    ensures ok ==> MarkedBy(matched, places) && score == Sum(values)
  {
    hide Agrees, Worth;
    score, matched, places, values := 0, seq(|cs|, i => false), [], [];
    for i := 0 to |terms|
      invariant |matched| == |cs| && |places| == |values| == i
      invariant forall k :: 0 <= k < i ==>
                  && terms[k].Some? && Agrees(terms[k].value, cs, fold)
                  && Worth(terms[k].value, cs, fold, places[k], values[k])
      invariant MarkedBy(matched, places) && score == Sum(values)
    {
      if terms[i].None? {
        return false, score, matched, places, values;
      }
      assert terms[i] in terms;
      ghost var before := matched;
      var one, value;
      ghost var pos;
      one, value, matched, pos := MatchTerm(terms[i].value, cs, fold, matched);
      if !one {
        return false, score, matched, places, values;
      }
      score := score + value;
      MarkedMore(before, matched, places, pos);
      assert (values + [value])[..i] == values;
      places, values := places + [pos], values + [value];
    }
    ok := terms != [];
  }

  lemma MarkedMore(before: seq<bool>, after: seq<bool>, places: seq<seq<nat>>, pos: seq<nat>)
    requires MarkedBy(before, places) && Marks(before, after, pos)
    ensures MarkedBy(after, places + [pos])
  {
    var now := places + [pos];
    forall k | 0 <= k < |after| ensures after[k] <==> exists i :: 0 <= i < |now| && k in now[i] {
      if k in pos { assert k in now[|places|]; }
      if before[k] {
        var i :| 0 <= i < |places| && k in places[i];
        assert k in now[i];
      }
      if i :| 0 <= i < |now| && k in now[i] {
        assert i < |places| ==> k in places[i];
      }
    }
  }

  /** The same term without anchor and quote. */
  function Loosened(term: Term): Term {
    if term.inverse then term else term.(exact := false, prefix := false, suffix := false)
  }

  /** An exact match is also a fuzzy one: a group still matches when its anchors and quotes are dropped. */
  lemma ExactIsFuzzy(terms: seq<Option<Term>>, cs: seq<Char>, fold: bool)
    requires GroupHolds(terms, cs, fold)
    ensures GroupHolds(seq(|terms|, i requires 0 <= i < |terms| =>
              if terms[i].Some? then Some(Loosened(terms[i].value)) else None), cs, fold)
  {
    hide Holds;
    forall i | 0 <= i < |terms| ensures terms[i].Some? && Agrees(Loosened(terms[i].value), cs, fold) {
      if !terms[i].value.inverse { LoosenedHolds(terms[i].value, cs, fold); }
    }
  }

  lemma LoosenedHolds(term: Term, cs: seq<Char>, fold: bool)
    requires Holds(term, cs, fold) && !term.inverse
    ensures Holds(Loosened(term), cs, fold)
  {
    hide Equal;
    if term.exact {
      var i :| Hit(term.tok, cs, fold, term.prefix, term.suffix, i);
      var pos := Range(i, |term.tok|);
      assert Embeds(term.tok, cs, fold, pos);
    }
  }

  // ---- Columns ----

  /** The widths of the four parts, and where each starts on the screen and in its own text. */
  datatype Layout = Layout(left: nat, centre: nat, right: nat, absolute: nat,
                           startCentre: int, startRight: int, startAbsolute: int, srcCentre: int, srcRight: int)

  /** The trimming loop of `fuzzy_match`: the centre gives way first, then the right, then the left. */
  method Trim(left: nat, centre: nat, right: nat, width: nat) returns (wl: nat, wc: nat, wr: nat)
    ensures wl <= left && wc <= centre && wr <= right
    ensures wl + wc + wr == if left + centre + right <= width then left + centre + right else width
    ensures (wr < right ==> wc == 0) && (wl < left ==> wc == 0 && wr == 0)
  {
    wl, wc, wr := left, centre, right;
    while wl + wc + wr > width
      invariant wl <= left && wc <= centre && wr <= right
      invariant left + centre + right > width ==> wl + wc + wr >= width
      invariant left + centre + right <= width ==> wl == left && wc == centre && wr == right
      invariant (wr < right ==> wc == 0) && (wl < left ==> wc == 0 && wr == 0)
    {
      if wc > 0 {
        wc := wc - 1;
      } else if wr > 0 {
        wr := wr - 1;
      } else {
        wl := wl - 1;
      }
    }
  }

  /** The layout arithmetic never goes below zero; what is drawn of the left, centre and right parts lies
    * side by side within the width, and what is drawn of the text of a part lies within that text. */
  method LayOut(left: nat, centre: nat, right: nat, absolute: nat, width: nat) returns (r: Layout)
    ensures 0 <= r.left <= r.startCentre && r.startCentre + r.centre <= r.startRight
    ensures r.startRight + r.right == width
    ensures 0 <= r.startAbsolute && r.startAbsolute + r.absolute <= width
    ensures 0 <= r.srcCentre && r.srcCentre + r.centre <= centre
    ensures 0 <= r.srcRight && r.srcRight + r.right == right && r.left <= left
    ensures r.absolute == if absolute <= width then absolute else width
    ensures r.left + r.centre + r.right == if left + centre + right <= width then left + centre + right else width
    ensures (r.right < right ==> r.centre == 0) && (r.left < left ==> r.centre == 0 && r.right == 0)
    // the centre part has the same room on both sides, up to a column, and so have the absolute part and what
    // is cut off the text of the centre
    ensures (r.startRight - (r.startCentre + r.centre)) - (r.startCentre - r.left)
         == (width - r.left - r.right) % 2 - r.centre % 2
    ensures (width - (r.startAbsolute + r.absolute)) - r.startAbsolute == (width - r.absolute) % 2
    ensures (centre - (r.srcCentre + r.centre)) - r.srcCentre == centre % 2 - r.centre % 2
  {
    var wl, wc, wr := Trim(left, centre, right, width);
    var wa := if absolute > width then width else absolute;
    r := Layout(wl, wc, wr, wa, wl + ((width - wr) - wl) / 2 - wc / 2, width - wr, (width - wa) / 2,
                centre / 2 - wc / 2, right - wr);
  }
}

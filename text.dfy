/**
  The Python string built-ins the migration relies on, written as Dafny
  functions over `string`: `startswith`, the `in` operator, `split(sep)`,
  `replace(old, new)` and `strip()`, with `sep.join(parts)` as the reference
  that `split` and `replace` are stated against.
 */
module Text {
  import opened Wrappers

  /** `pat` occurs in `s` starting at index `k`. */
  predicate OccursAt(s: string, pat: string, k: int) {
    0 <= k && k + |pat| <= |s| && s[k..k + |pat|] == pat
  }

  /** Python's `pat in s`. */
  predicate Contains(s: string, pat: string) {
    exists k | 0 <= k <= |s| - |pat| :: OccursAt(s, pat, k)
  }

  /** `pat in s` holds exactly when `s` is some text, then `pat`, then some text. */
  lemma ContainsIsInfix(s: string, pat: string)
    ensures Contains(s, pat) <==> exists a, b :: s == a + pat + b
  {
    if Contains(s, pat) {
      var k :| 0 <= k <= |s| - |pat| && OccursAt(s, pat, k);
      assert s == s[..k] + pat + s[k + |pat|..];
    }
    if exists a, b :: s == a + pat + b {
      var a, b :| s == a + pat + b;
      assert OccursAt(s, pat, |a|);
    }
  }

  /** Python's `s.startswith(prefix)`. */
  predicate StartsWith(s: string, prefix: string) {
    |prefix| <= |s| && s[..|prefix|] == prefix
  }

  /** `s.startswith(prefix)` holds exactly when `s` is `prefix` followed by some text. */
  lemma StartsWithIsPrefix(s: string, prefix: string)
    ensures StartsWith(s, prefix) <==> exists t :: s == prefix + t
  {
    if StartsWith(s, prefix) {
      assert s == prefix + s[|prefix|..];
    }
    if exists t :: s == prefix + t {
      var t :| s == prefix + t;
      assert s[..|prefix|] == prefix;
    }
  }

  /** A prefix of a prefix is a prefix. */
  lemma StartsWithTransitive(s: string, t: string, prefix: string)
    ensures StartsWith(s, t) && StartsWith(t, prefix) ==> StartsWith(s, prefix)
  {
    if StartsWith(s, t) && StartsWith(t, prefix) {
      assert s[..|prefix|] == s[..|t|][..|prefix|];
    }
  }

  /** The first occurrence of `pat` in `s` at or after `from`, as `s.find(pat, from)` finds it. */
  function IndexFrom(s: string, pat: string, from: nat): (r: Option<nat>)
    requires |pat| > 0
    ensures r.Some? ==> from <= r.value && r.value + |pat| <= |s|
    decreases |s| - from
  {
    if from + |pat| > |s| then None
    else if s[from..from + |pat|] == pat then Some(from)
    else IndexFrom(s, pat, from + 1)
  }

  /** `IndexFrom` finds an occurrence with none between `from` and it, and finds none only when there is none from `from` on. */
  lemma {:induction false} IndexFromFinds(s: string, pat: string, from: nat)
    requires |pat| > 0
    ensures var r := IndexFrom(s, pat, from);
      && (r.Some? ==> OccursAt(s, pat, r.value) && forall k :: from <= k < r.value ==> !OccursAt(s, pat, k))
      && (r.None? ==> forall k :: from <= k ==> !OccursAt(s, pat, k))
    decreases |s| - from
  {
    if from + |pat| <= |s| && s[from..from + |pat|] != pat {
      IndexFromFinds(s, pat, from + 1);
    }
  }

  /** The first occurrence of `pat` in `s`, or `None`. */
  function IndexOf(s: string, pat: string): (r: Option<nat>)
    requires |pat| > 0
    ensures r.Some? ==> r.value + |pat| <= |s|
  {
    IndexFrom(s, pat, 0)
  }

  /** `IndexOf` is `None` exactly when `pat` is not in `s`; otherwise it is an occurrence with none before it. */
  lemma IndexOfFinds(s: string, pat: string)
    requires |pat| > 0
    ensures IndexOf(s, pat).None? <==> !Contains(s, pat)
    ensures IndexOf(s, pat).Some? ==>
      OccursAt(s, pat, IndexOf(s, pat).value) && forall k :: 0 <= k < IndexOf(s, pat).value ==> !OccursAt(s, pat, k)
  {
    IndexFromFinds(s, pat, 0);
  }

  /** A piece that ends before the first occurrence of `pat` holds no occurrence of it. */
  lemma PrefixBeforeFirstOccurrence(s: string, pat: string, i: nat)
    requires |pat| > 0 && i <= |s|
    requires forall k :: 0 <= k < i ==> !OccursAt(s, pat, k)
    ensures !Contains(s[..i], pat)
  {
    forall k | 0 <= k <= i - |pat|
      ensures !OccursAt(s[..i], pat, k)
    {
      assert s[..i][k..k + |pat|] == s[k..k + |pat|];
      assert !OccursAt(s, pat, k);
    }
  }

  /**
    Python's `s.split(sep)`: cut `s` at every leftmost, non-overlapping
    occurrence of `sep`. There is always at least one piece.
   */
  function Split(s: string, sep: string): (parts: seq<string>)
    requires |sep| > 0
    ensures |parts| >= 1
    decreases |s|
  {
    match IndexOf(s, sep)
    case None => [s]
    case Some(i) => [s[..i]] + Split(s[i + |sep|..], sep)
  }

  /** No piece of a split holds the separator. */
  lemma {:induction false} SplitPiecesFree(s: string, sep: string)
    requires |sep| > 0
    ensures forall k | 0 <= k < |Split(s, sep)| :: !Contains(Split(s, sep)[k], sep)
    decreases |s|
  {
    IndexOfFinds(s, sep);
    match IndexOf(s, sep)
    case None =>
    case Some(i) =>
      var rest := s[i + |sep|..];
      PrefixBeforeFirstOccurrence(s, sep, i);
      SplitPiecesFree(rest, sep);
      SplitStep(s, sep, i);
  }

  /** One step of a split: the piece before the first separator, then the split of the rest. */
  lemma SplitStep(s: string, sep: string, i: nat)
    requires |sep| > 0 && IndexOf(s, sep) == Some(i)
    ensures i + |sep| <= |s|
    ensures Split(s, sep) == [s[..i]] + Split(s[i + |sep|..], sep)
  {
    var parts := Split(s, sep);
    var rest := s[i + |sep|..];
    var tail := Split(rest, sep);
    assert parts == [s[..i]] + tail;
  }

  /** Cutting `s` around an occurrence of `pat` and gluing the three parts back gives `s`. */
  lemma Reassemble(s: string, pat: string, i: nat)
    requires OccursAt(s, pat, i)
    ensures s == s[..i] + pat + s[i + |pat|..]
  {
    assert s[i..i + |pat|] == pat;
    assert s == s[..i] + s[i..i + |pat|] + s[i + |pat|..];
  }

  /** Python's `sep.join(parts)`. */
  function Join(parts: seq<string>, sep: string): string
  {
    if |parts| == 0 then ""
    else if |parts| == 1 then parts[0]
    else parts[0] + sep + Join(parts[1..], sep)
  }

  /** Joining the pieces of a split with the same separator gives back the text. */
  lemma {:induction false} JoinSplit(s: string, sep: string)
    requires |sep| > 0
    ensures Join(Split(s, sep), sep) == s
    decreases |s|
  {
    match IndexOf(s, sep)
    case None =>
    case Some(i) =>
      var rest := s[i + |sep|..];
      JoinSplit(rest, sep);
      SplitStep(s, sep, i);
      JoinCons(s[..i], Split(rest, sep), sep);
      IndexOfFinds(s, sep);
      Reassemble(s, sep, i);
  }

  /** Joining a piece in front of at least one more: the piece, the separator, the join of the rest. */
  lemma JoinCons(x: string, parts: seq<string>, sep: string)
    requires |parts| >= 1
    ensures Join([x] + parts, sep) == x + sep + Join(parts, sep)
  {
    assert ([x] + parts)[1..] == parts;
  }

  /**
    `Split(s, sep)[0]` is the text before the first `sep`: a prefix of `s`
    free of `sep`, which is all of `s` or is followed in `s` by `sep`, and
    before whose end no occurrence of `sep` in `s` starts, even one that
    overlaps the piece.
   */
  lemma FirstPiece(s: string, sep: string)
    requires |sep| > 0
    ensures var head := Split(s, sep)[0];
      && head == s[..|head|]
      && !Contains(head, sep)
      && (|head| < |s| ==> OccursAt(s, sep, |head|))
      && (|head| == |s| <==> !Contains(s, sep))
      && forall k :: 0 <= k < |head| ==> !OccursAt(s, sep, k)
  {
    IndexOfFinds(s, sep);
    match IndexOf(s, sep)
    case None =>
    case Some(i) =>
      PrefixBeforeFirstOccurrence(s, sep, i);
      assert Split(s, sep)[0] == s[..i];
  }

  /** Python's `s.replace(pat, rep)` for a non-empty `pat`: every leftmost, non-overlapping occurrence is replaced. */
  function Replace(s: string, pat: string, rep: string): (r: string)
    requires |pat| > 0
    ensures |rep| == |pat| ==> |r| == |s|
    decreases |s|
  {
    match IndexOf(s, pat)
    case None => s
    case Some(i) => s[..i] + rep + Replace(s[i + |pat|..], pat, rep)
  }

  /** Python's documented identity: `s.replace(pat, rep) == rep.join(s.split(pat))`. */
  lemma {:induction false} ReplaceIsJoinOfSplit(s: string, pat: string, rep: string)
    requires |pat| > 0
    ensures Replace(s, pat, rep) == Join(Split(s, pat), rep)
    decreases |s|
  {
    match IndexOf(s, pat)
    case None =>
    case Some(i) =>
      var rest := s[i + |pat|..];
      ReplaceIsJoinOfSplit(rest, pat, rep);
      SplitStep(s, pat, i);
      JoinCons(s[..i], Split(rest, pat), rep);
  }

  /** Text without an occurrence of `pat` comes back unchanged. */
  lemma ReplaceAbsent(s: string, pat: string, rep: string)
    requires |pat| > 0
    ensures !Contains(s, pat) ==> Replace(s, pat, rep) == s
  {
    IndexOfFinds(s, pat);
  }

  /** Replacing a pattern by itself changes nothing. */
  lemma ReplaceBySelf(s: string, pat: string)
    requires |pat| > 0
    ensures Replace(s, pat, pat) == s
  {
    ReplaceIsJoinOfSplit(s, pat, pat);
    JoinSplit(s, pat);
  }

  /** Every replaced occurrence changes the length by `|rep| - |pat|`: there are `|Split(s, pat)| - 1` of them. */
  lemma {:induction false} ReplaceLength(s: string, pat: string, rep: string)
    requires |pat| > 0
    ensures |Replace(s, pat, rep)| == |s| + (|Split(s, pat)| - 1) * (|rep| - |pat|)
    decreases |s|
  {
    match IndexOf(s, pat)
    case None =>
      assert Split(s, pat) == [s];
    case Some(i) =>
      var rest := s[i + |pat|..];
      ReplaceLength(rest, pat, rep);
      SplitStep(s, pat, i);
      ReplaceStepLength(s, pat, rep, i);
      OneMoreTimes(|Split(rest, pat)| - 1, |rep| - |pat|);
  }

  /** One step of a replacement: the text before the first occurrence, the replacement, the rest replaced. */
  lemma ReplaceStepLength(s: string, pat: string, rep: string, i: nat)
    requires |pat| > 0 && IndexOf(s, pat) == Some(i)
    ensures i + |pat| <= |s|
    ensures |Replace(s, pat, rep)| == i + |rep| + |Replace(s[i + |pat|..], pat, rep)|
  {
  }

  lemma OneMoreTimes(n: int, d: int)
    ensures (n + 1) * d == n * d + d
  {
  }

  /** The characters Python's `str.strip()` removes (`str.isspace()`). */
  predicate IsSpace(c: char) {
    || '\U{9}' <= c <= '\U{D}'
    || '\U{1C}' <= c <= '\U{20}'
    || c == '\U{85}' || c == '\U{A0}' || c == '\U{1680}'
    || '\U{2000}' <= c <= '\U{200A}'
    || c == '\U{2028}' || c == '\U{2029}' || c == '\U{202F}' || c == '\U{205F}' || c == '\U{3000}'
  }

  predicate AllSpace(s: string) {
    forall i :: 0 <= i < |s| ==> IsSpace(s[i])
  }

  /** Python's `s.lstrip()`: the suffix left after dropping the leading whitespace. */
  function TrimStart(s: string): (r: string)
    ensures |r| <= |s| && r == s[|s| - |r|..]
    ensures AllSpace(s[..|s| - |r|])
    ensures r == [] || !IsSpace(r[0])
  {
    if s != [] && IsSpace(s[0]) then
      var r := TrimStart(s[1..]);
      SpaceThenSpaces(s, r);
      r
    else s
  }

  /** A suffix of `s[1..]` after spaces is a suffix of `s` after spaces when `s` starts with a space. */
  lemma SpaceThenSpaces(s: string, r: string)
    requires s != [] && IsSpace(s[0])
    requires |r| <= |s| - 1 && r == s[1..][|s| - 1 - |r|..] && AllSpace(s[1..][..|s| - 1 - |r|])
    ensures r == s[|s| - |r|..] && AllSpace(s[..|s| - |r|])
  {
    var n := |s| - |r|;
    assert s[1..][n - 1..] == s[n..];
    forall k | 0 < k < n
      ensures IsSpace(s[..n][k])
    {
      assert s[..n][k] == s[1..][..n - 1][k - 1];
    }
  }

  /** Python's `s.rstrip()`: the prefix left after dropping the trailing whitespace. */
  function TrimEnd(s: string): (r: string)
    ensures |r| <= |s| && r == s[..|r|]
    ensures AllSpace(s[|r|..])
    ensures r == [] || !IsSpace(r[|r| - 1])
  {
    if s != [] && IsSpace(s[|s| - 1]) then
      var r := TrimEnd(s[..|s| - 1]);
      assert s[..|s| - 1][..|r|] == s[..|r|];
      SpacesThenSpace(s, |r|);
      r
    else s
  }

  /** Spaces from `m` up to the last character, which is a space too, end `s` with spaces. */
  lemma SpacesThenSpace(s: string, m: nat)
    requires m < |s| && IsSpace(s[|s| - 1]) && AllSpace(s[..|s| - 1][m..])
    ensures AllSpace(s[m..])
  {
    forall k | 0 <= k < |s| - 1 - m
      ensures IsSpace(s[m..][k])
    {
      assert s[m..][k] == s[..|s| - 1][m..][k];
    }
  }

  /** A prefix of a suffix of `s`, each cut off from all-space text, is a piece of `s` between two all-space texts. */
  lemma TrimmedPiece(s: string, t: string, r: string)
    requires |t| <= |s| && t == s[|s| - |t|..] && AllSpace(s[..|s| - |t|])
    requires |r| <= |t| && r == t[..|r|] && AllSpace(t[|r|..])
    ensures exists i | 0 <= i <= |s| - |r| :: OccursAt(s, r, i) && AllSpace(s[..i]) && AllSpace(s[i + |r|..])
  {
    var i := |s| - |t|;
    assert s[i..i + |r|] == r;
    assert s[i + |r|..] == t[|r|..];
    assert OccursAt(s, r, i);
  }

  /**
    Python's `s.strip()`: the text with whitespace removed from both ends.
    The result is the piece of `s` between an all-whitespace head and an
    all-whitespace tail, and begins and ends with a non-space.
   */
  function Strip(s: string): (r: string)
    ensures r == [] || (!IsSpace(r[0]) && !IsSpace(r[|r| - 1]))
    ensures exists i | 0 <= i <= |s| - |r| :: OccursAt(s, r, i) && AllSpace(s[..i]) && AllSpace(s[i + |r|..])
  {
    var t := TrimStart(s);
    var r := TrimEnd(t);
    TrimmedPiece(s, t, r);
    r
  }

  /** A prefix of a suffix of `s` holds no character that `s` does not hold. */
  lemma PieceKeepsOut(s: string, t: string, r: string, c: char)
    requires c !in s
    requires |t| <= |s| && t == s[|s| - |t|..]
    requires |r| <= |t| && r == t[..|r|]
    ensures c !in r
  {
    assert c !in t;
  }

  /** Stripping never brings in a character the text did not hold. */
  lemma StripKeepsOut(s: string, c: char)
    requires c !in s
    ensures c !in Strip(s)
  {
    var t := TrimStart(s);
    PieceKeepsOut(s, t, TrimEnd(t), c);
  }
}

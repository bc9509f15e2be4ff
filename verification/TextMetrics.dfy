/**
 The text metrics.  Lower-casing and white space are taken per character and abstractly:
 the results hold for every classification with an idempotent lower case that leaves the
 blank alone.
 */
module TextMetrics {
  import opened Collections

  datatype Script = Script(lower: char -> char, space: char -> bool) {
    ghost predicate Valid() {
      && (forall c :: lower(lower(c)) == lower(c))
      && lower(' ') == ' '
      && space(' ')
    }
  }

  const PUNCTUATION: string :=
    "!\"#$%&'()*+,-./:;<=>?@[\\]^_`{|}~" + "\U{AB}\U{BB}\U{2014}\U{2013}\U{2026}"

  // ---------------------------------------------------------------- normalisation

  function LowerAll(t: Script, s: string): string {
    seq(|s|, i requires 0 <= i < |s| => t.lower(s[i]))
  }

  function WithoutPunctuation(s: string): string {
    if s == "" then ""
    else (if s[0] in PUNCTUATION then "" else [s[0]]) + WithoutPunctuation(s[1..])
  }

  function TrimLeft(t: Script, s: string): (r: string)
    ensures |r| <= |s|
  {
    if s != "" && t.space(s[0]) then TrimLeft(t, s[1..]) else s
  }

  function TrimRight(t: Script, s: string): string {
    if s != "" && t.space(s[|s| - 1]) then TrimRight(t, s[..|s| - 1]) else s
  }

  function Strip(t: Script, s: string): string {
    TrimRight(t, TrimLeft(t, s))
  }

  /** Every maximal run of white space becomes one blank. */
  function Collapse(t: Script, s: string): string
    decreases |s|
  {
    if s == "" then ""
    else if t.space(s[0]) then " " + Collapse(t, TrimLeft(t, s[1..]))
    else [s[0]] + Collapse(t, s[1..])
  }

  function Clean(t: Script, s: string): string {
    WithoutPunctuation(LowerAll(t, s))
  }

  function NormalizeText(t: Script, s: string): string {
    Strip(t, Collapse(t, Clean(t, s)))
  }

  // ---------------------------------------------------------------- scores

  function ExactMatch(t: Script, output: string, expected: string): real {
    if Strip(t, LowerAll(t, output)) == Strip(t, LowerAll(t, expected)) then 1.0 else 0.0
  }

  function NormalizedExactMatch(t: Script, output: string, expected: string): real {
    if NormalizeText(t, output) == NormalizeText(t, expected) then 1.0 else 0.0
  }

  predicate OccursAt(hay: string, needle: string, i: nat) {
    i + |needle| <= |hay| && hay[i..i + |needle|] == needle
  }

  predicate Contains(hay: string, needle: string) {
    exists i: nat | i <= |hay| :: OccursAt(hay, needle, i)
  }

  /** How many of the keywords occur, normalised, in the normalised output. */
  function Found(t: Script, output: string, keywords: seq<string>): nat {
    if keywords == [] then 0
    else
      var last := |keywords| - 1;
      Found(t, output, keywords[..last])
      + (if Contains(NormalizeText(t, output), NormalizeText(t, keywords[last])) then 1 else 0)
  }

  function Score(t: Script, output: string, keywords: seq<string>): real {
    if keywords == [] then 1.0
    else Found(t, output, keywords) as real / |keywords| as real
  }

  method KeywordScore(t: Script, output: string, keywords: seq<string>) returns (score: real)
    ensures score == Score(t, output, keywords)
  {
    if keywords == [] {
      return 1.0;
    }
    var normalizedOutput := NormalizeText(t, output);
    var found: nat := 0;
    for k := 0 to |keywords|
      invariant found == Found(t, output, keywords[..k])
    {
      assert keywords[..k + 1][..k] == keywords[..k];
      if Contains(normalizedOutput, NormalizeText(t, keywords[k])) {
        found := found + 1;
      }
    }
    assert keywords[..|keywords|] == keywords;
    score := found as real / |keywords| as real;
  }

  // ---------------------------------------------------------------- white space

  ghost predicate Blank(t: Script, s: string) {
    forall c :: c in s ==> t.space(c)
  }

  /** Neither empty nor starting or ending in white space. */
  ghost predicate Solid(t: Script, s: string) {
    s != "" && !t.space(s[0]) && !t.space(s[|s| - 1])
  }

  lemma {:induction false} TrimLeftSplit(t: Script, s: string) returns (left: string)
    ensures Blank(t, left) && s == left + TrimLeft(t, s)
    ensures TrimLeft(t, s) != "" ==> !t.space(TrimLeft(t, s)[0])
  {
    if s != "" && t.space(s[0]) {
      var rest := TrimLeftSplit(t, s[1..]);
      left := [s[0]] + rest;
    } else {
      left := "";
    }
  }

  lemma {:induction false} TrimRightSplit(t: Script, s: string) returns (right: string)
    ensures Blank(t, right) && s == TrimRight(t, s) + right
    ensures TrimRight(t, s) != "" ==> !t.space(TrimRight(t, s)[|TrimRight(t, s)| - 1])
  {
    if s != "" && t.space(s[|s| - 1]) {
      var rest := TrimRightSplit(t, s[..|s| - 1]);
      right := rest + [s[|s| - 1]];
    } else {
      right := "";
    }
  }

  lemma StripSplit(t: Script, s: string) returns (left: string, right: string)
    ensures Blank(t, left) && Blank(t, right) && s == left + Strip(t, s) + right
    ensures Strip(t, s) == "" || Solid(t, Strip(t, s))
  {
    left := TrimLeftSplit(t, s);
    right := TrimRightSplit(t, TrimLeft(t, s));
    var core := Strip(t, s);
    if core != "" {
      assert core[0] == TrimLeft(t, s)[0];
    }
  }

  lemma {:induction false} TrimLeftAbsorbs(t: Script, left: string, s: string)
    requires Blank(t, left)
    ensures TrimLeft(t, left + s) == TrimLeft(t, s)
  {
    if left == "" {
      assert left + s == s;
    } else {
      assert (left + s)[1..] == left[1..] + s;
      assert left[0] in left;
      TrimLeftAbsorbs(t, left[1..], s);
    }
  }

  lemma {:induction false} TrimRightAbsorbs(t: Script, s: string, right: string)
    requires Blank(t, right)
    ensures TrimRight(t, s + right) == TrimRight(t, s)
  {
    if right == "" {
      assert s + right == s;
    } else {
      var last := |right| - 1;
      assert (s + right)[..|s + right| - 1] == s + right[..last];
      assert right[last] in right;
      TrimRightAbsorbs(t, s, right[..last]);
    }
  }

  /** Trimming the left of a text with a solid core only eats into what precedes the core. */
  lemma {:induction false} TrimLeftKeeps(t: Script, a: string, c: string) returns (a': string)
    requires c != "" && !t.space(c[0])
    ensures TrimLeft(t, a + c) == a' + c
    ensures Blank(t, a) ==> a' == ""
    decreases |a|
  {
    if a != "" && t.space(a[0]) {
      assert (a + c)[1..] == a[1..] + c;
      a' := TrimLeftKeeps(t, a[1..], c);
    } else {
      a' := a;
      if a != "" { assert a[0] in a; }
    }
  }

  lemma {:induction false} TrimRightKeeps(t: Script, c: string, b: string) returns (b': string)
    requires c != "" && !t.space(c[|c| - 1])
    ensures TrimRight(t, c + b) == c + b'
    ensures Blank(t, b) ==> b' == ""
    decreases |b|
  {
    if b != "" && t.space(b[|b| - 1]) {
      assert (c + b)[..|c + b| - 1] == c + b[..|b| - 1];
      b' := TrimRightKeeps(t, c, b[..|b| - 1]);
    } else {
      b' := b;
      if b != "" { assert b[|b| - 1] in b; }
    }
  }

  lemma StripKeeps(t: Script, a: string, c: string, b: string) returns (a': string, b': string)
    requires Solid(t, c)
    ensures Strip(t, a + c + b) == a' + c + b'
    ensures Blank(t, a) ==> a' == ""
    ensures Blank(t, b) ==> b' == ""
  {
    assert a + c + b == a + (c + b);
    a' := TrimLeftKeeps(t, a, c + b);
    assert a' + (c + b) == (a' + c) + b;
    b' := TrimRightKeeps(t, a' + c, b);
  }

  lemma StripIgnoresBlanks(t: Script, left: string, s: string, right: string)
    requires Blank(t, left) && Blank(t, right)
    ensures Strip(t, left + s + right) == Strip(t, s)
  {
    var l, r := StripSplit(t, s);
    var core := Strip(t, s);
    if core == "" {
      assert Blank(t, left + s + right);
      assert left + s + right == (left + s + right) + "";
      TrimLeftAbsorbs(t, left + s + right, "");
    } else {
      assert left + s + right == (left + l) + core + (r + right);
      var a', b' := StripKeeps(t, left + l, core, r + right);
      assert a' + core + b' == core;
    }
  }

  // ---------------------------------------------------------------- collapsing

  /** Concatenation is associative. */
  lemma Regroup(a: string, b: string, c: string)
    ensures a + (b + c) == (a + b) + c
  {
  }

  lemma {:induction false} CollapseConcat(t: Script, u: string, v: string)
    requires u == "" || v == "" || !t.space(u[|u| - 1]) || !t.space(v[0])
    ensures Collapse(t, u + v) == Collapse(t, u) + Collapse(t, v)
    decreases |u|
  {
    if u == "" {
      assert u + v == v;
    } else if v == "" {
      assert u + v == u;
    } else {
      var rest := u[1..];
      assert (u + v)[1..] == rest + v;
      if t.space(u[0]) {
        TrimLeftOfConcat(t, rest, v);
        var trimmed := TrimLeft(t, rest);
        CollapseConcat(t, trimmed, v);
        Regroup(" ", Collapse(t, trimmed), Collapse(t, v));
      } else {
        CollapseConcat(t, rest, v);
        Regroup([u[0]], Collapse(t, rest), Collapse(t, v));
      }
    }
  }

  /** Used above: the run of white space that starts in `u` stops before `v` does. */
  lemma {:induction false} TrimLeftOfConcat(t: Script, u: string, v: string)
    requires v != ""
    requires u == "" ==> !t.space(v[0])
    requires u != "" ==> !t.space(u[|u| - 1]) || !t.space(v[0])
    ensures TrimLeft(t, u + v) == TrimLeft(t, u) + v
    ensures var r := TrimLeft(t, u); r == "" || r[|r| - 1] == u[|u| - 1]
    decreases |u|
  {
    if u == "" {
      assert u + v == v;
    } else if t.space(u[0]) {
      assert (u + v)[1..] == u[1..] + v;
      TrimLeftOfConcat(t, u[1..], v);
    }
  }

  lemma {:induction false} CollapseSolid(t: Script, s: string)
    requires s != "" && !t.space(s[|s| - 1])
    ensures var r := Collapse(t, s); r != "" && !t.space(r[|r| - 1]) && (!t.space(s[0]) ==> r[0] == s[0])
    decreases |s|
  {
    if t.space(s[0]) {
      var left := TrimLeftSplit(t, s[1..]);
      var rest := TrimLeft(t, s[1..]);
      assert (left + rest)[|s| - 2] == s[|s| - 1];
      assert forall i :: 0 <= i < |left| ==> left[i] in left;
      assert rest[|rest| - 1] == s[|s| - 1];
      CollapseSolid(t, rest);
    } else if |s| > 1 {
      CollapseSolid(t, s[1..]);
    }
  }

  /** A solid core is collapsed on its own, whatever stands around it. */
  lemma CollapseAround(t: Script, a: string, core: string, b: string)
    requires Solid(t, core)
    ensures Collapse(t, a + core + b) == Collapse(t, a) + Collapse(t, core) + Collapse(t, b)
    ensures Solid(t, Collapse(t, core))
  {
    CollapseConcat(t, a + core, b);
    CollapseConcat(t, a, core);
    CollapseSolid(t, core);
  }

  lemma CollapseBlank(t: Script, s: string)
    requires t.Valid() && Blank(t, s)
    ensures Blank(t, Collapse(t, s))
  {
    if s != "" {
      assert s[0] in s;
      assert s[1..] + "" == s[1..];
      TrimLeftAbsorbs(t, s[1..], "");
    }
  }

  /** Collapsing and then trimming is trimming and then collapsing. */
  lemma StripCollapse(t: Script, s: string)
    requires t.Valid()
    ensures Strip(t, Collapse(t, s)) == Collapse(t, Strip(t, s))
  {
    var left, right := StripSplit(t, s);
    var core := Strip(t, s);
    if core == "" {
      assert Blank(t, s);
      CollapseBlank(t, s);
      var collapsed := Collapse(t, s);
      assert collapsed == collapsed + "";
      TrimLeftAbsorbs(t, collapsed, "");
    } else {
      CollapseAround(t, left, core, right);
      CollapseBlank(t, left);
      CollapseBlank(t, right);
      var a', b' := StripKeeps(t, Collapse(t, left), Collapse(t, core), Collapse(t, right));
      assert a' + Collapse(t, core) + b' == Collapse(t, core);
    }
  }

  // ---------------------------------------------------------------- cleaning

  lemma {:induction false} WithoutConcat(a: string, b: string)
    ensures WithoutPunctuation(a + b) == WithoutPunctuation(a) + WithoutPunctuation(b)
  {
    if a == "" {
      assert a + b == b;
    } else {
      assert (a + b)[1..] == a[1..] + b;
      WithoutConcat(a[1..], b);
    }
  }

  lemma CleanConcat(t: Script, a: string, b: string)
    ensures Clean(t, a + b) == Clean(t, a) + Clean(t, b)
  {
    assert LowerAll(t, a + b) == LowerAll(t, a) + LowerAll(t, b);
    WithoutConcat(LowerAll(t, a), LowerAll(t, b));
  }

  lemma {:induction false} WithoutChars(s: string)
    ensures forall c :: c in WithoutPunctuation(s) ==> c in s && c !in PUNCTUATION
  {
    if s != "" {
      WithoutChars(s[1..]);
    }
  }

  // ---------------------------------------------------------------- main results

  lemma SolidPartIsContained(t: Script, a: string, core: string, b: string)
    requires Solid(t, core)
    ensures Contains(Strip(t, Collapse(t, a + core + b)), Collapse(t, core))
  {
    CollapseAround(t, a, core, b);
    var c := Collapse(t, core);
    var a', b' := StripKeeps(t, Collapse(t, a), c, Collapse(t, b));
    assert OccursAt(a' + c + b', c, |a'|);
  }

  /** Collapsing and stripping keeps a part of a cleaned text as a part. */
  lemma CleanPartIsContained(t: Script, p: string, o: string, q: string)
    requires t.Valid()
    ensures Contains(Strip(t, Collapse(t, p + o + q)), Strip(t, Collapse(t, o)))
  {
    StripCollapse(t, o);
    var left, right := StripSplit(t, o);
    var core := Strip(t, o);
    if core == "" {
      assert OccursAt(Strip(t, Collapse(t, p + o + q)), "", 0);
    } else {
      assert p + o + q == (p + left) + core + (right + q);
      SolidPartIsContained(t, p + left, core, right + q);
    }
  }

  /** The normalised output is a contiguous part of the normalised whole. */
  lemma NormalizedPartIsContained(t: Script, pre: string, out: string, post: string)
    requires t.Valid()
    ensures Contains(NormalizeText(t, pre + out + post), NormalizeText(t, out))
  {
    CleanConcat(t, pre + out, post);
    CleanConcat(t, pre, out);
    CleanPartIsContained(t, Clean(t, pre), Clean(t, out), Clean(t, post));
  }

  lemma ContainsTransitive(a: string, b: string, c: string)
    requires Contains(a, b) && Contains(b, c)
    ensures Contains(a, c)
  {
    var i: nat :| i <= |a| && OccursAt(a, b, i);
    var j: nat :| j <= |b| && OccursAt(b, c, j);
    forall k | 0 <= k < |c| ensures a[i + j + k] == c[k] {
      assert a[i..i + |b|][j + k] == b[j + k];
      assert b[j..j + |c|][k] == c[k];
    }
    assert a[i + j..i + j + |c|] == c;
    assert OccursAt(a, c, i + j);
  }

  lemma {:induction false} FoundMonotone(t: Script, pre: string, out: string, post: string, keywords: seq<string>)
    requires t.Valid()
    ensures Found(t, out, keywords) <= Found(t, pre + out + post, keywords) <= |keywords|
  {
    if keywords != [] {
      var last := |keywords| - 1;
      FoundMonotone(t, pre, out, post, keywords[..last]);
      NormalizedPartIsContained(t, pre, out, post);
      if Contains(NormalizeText(t, out), NormalizeText(t, keywords[last])) {
        ContainsTransitive(NormalizeText(t, pre + out + post), NormalizeText(t, out), NormalizeText(t, keywords[last]));
      }
    }
  }

  /** Saying more around an output never lowers its keyword score, which stays within [0, 1]. */
  lemma KeywordScoreMonotone(t: Script, pre: string, out: string, post: string, keywords: seq<string>)
    requires t.Valid()
    ensures 0.0 <= Score(t, out, keywords) <= Score(t, pre + out + post, keywords) <= 1.0
  {
    if keywords != [] {
      FoundMonotone(t, pre, out, post, keywords);
      DivideMonotone(Found(t, out, keywords) as real, Found(t, pre + out + post, keywords) as real, |keywords| as real);
    }
  }

  lemma DivideMonotone(x: real, y: real, n: real)
    requires 0.0 <= x <= y <= n && n > 0.0
    ensures 0.0 <= x / n <= y / n <= 1.0
  {
  }

  lemma {:induction false} FoundAll(t: Script, output: string, keywords: seq<string>)
    ensures Found(t, output, keywords) <= |keywords|
    ensures Found(t, output, keywords) == |keywords| <==>
            forall k :: k in keywords ==> Contains(NormalizeText(t, output), NormalizeText(t, k))
  {
    if keywords != [] {
      var last := |keywords| - 1;
      FoundAll(t, output, keywords[..last]);
      assert keywords == keywords[..last] + [keywords[last]];
    }
  }

  predicate Occurs(t: Script, output: string, keyword: string) {
    Contains(NormalizeText(t, output), NormalizeText(t, keyword))
  }

  /** Keyword by keyword, whether it occurs. */
  ghost function Marks(t: Script, output: string, keywords: seq<string>): (marks: seq<bool>)
    ensures |marks| == |keywords|
    ensures forall k :: 0 <= k < |keywords| ==> marks[k] == Occurs(t, output, keywords[k])
  {
    seq(|keywords|, k requires 0 <= k < |keywords| => Occurs(t, output, keywords[k]))
  }

  /** The positions of the keywords that occur, normalised, in the normalised output. */
  ghost function Hits(t: Script, output: string, keywords: seq<string>): (hits: set<nat>)
    ensures forall k: nat ::
              k in hits <==> k < |keywords| && Contains(NormalizeText(t, output), NormalizeText(t, keywords[k]))
  {
    Marked(Marks(t, output, keywords))
  }

  lemma FoundGrows(t: Script, output: string, keywords: seq<string>)
    requires keywords != []
    ensures var last := |keywords| - 1;
            var before := Found(t, output, keywords[..last]);
            Found(t, output, keywords) == before + (if Occurs(t, output, keywords[last]) then 1 else 0)
  {
  }

  lemma {:induction false} FoundCountsHits(t: Script, output: string, keywords: seq<string>)
    ensures Found(t, output, keywords) == |Hits(t, output, keywords)|
  {
    var marks := Marks(t, output, keywords);
    if keywords == [] {
      assert Marked(marks) == {};
    } else {
      var last := |keywords| - 1;
      FoundGrows(t, output, keywords);
      FoundCountsHits(t, output, keywords[..last]);
      MarkedGrows(marks);
      assert marks[..last] == Marks(t, output, keywords[..last]);
    }
  }

  /** The score is the share of the keywords that occur. */
  lemma ScoreCountsHits(t: Script, output: string, keywords: seq<string>)
    requires keywords != []
    ensures Score(t, output, keywords) == |Hits(t, output, keywords)| as real / |keywords| as real
  {
    FoundCountsHits(t, output, keywords);
  }

  /** A full score means that every keyword occurs. */
  lemma FullScoreIff(t: Script, output: string, keywords: seq<string>)
    ensures Score(t, output, keywords) == 1.0 <==>
            forall k :: k in keywords ==> Contains(NormalizeText(t, output), NormalizeText(t, k))
  {
    FoundAll(t, output, keywords);
    if keywords != [] {
      var found, n := Found(t, output, keywords), |keywords|;
      assert (found as real / n as real) * n as real == found as real;
    }
  }

  /** Normalisation sees a lowered text only up to its surrounding white space. */
  lemma NormalizeOfStripped(t: Script, lowered: string)
    requires t.Valid()
    ensures Strip(t, Collapse(t, WithoutPunctuation(lowered)))
         == Strip(t, Collapse(t, WithoutPunctuation(Strip(t, lowered))))
  {
    var left, right := StripSplit(t, lowered);
    var core := Strip(t, lowered);
    WithoutConcat(left + core, right);
    WithoutConcat(left, core);
    WithoutChars(left);
    WithoutChars(right);
    StripIgnoresBlanks(t, WithoutPunctuation(left), WithoutPunctuation(core), WithoutPunctuation(right));
    StripCollapse(t, WithoutPunctuation(lowered));
    StripCollapse(t, WithoutPunctuation(core));
  }

  /** The text is `core` between white space. */
  ghost predicate Padded(t: Script, s: string, core: string) {
    exists left, right :: IsPadding(t, s, core, left, right)
  }

  ghost predicate IsPadding(t: Script, s: string, core: string, left: string, right: string) {
    Blank(t, left) && Blank(t, right) && s == left + core + right
  }

  lemma PaddedStrips(t: Script, s: string, core: string)
    requires Padded(t, s, core)
    ensures Strip(t, s) == Strip(t, core)
  {
    var left, right :| IsPadding(t, s, core, left, right);
    StripIgnoresBlanks(t, left, core, right);
  }

  lemma StripPads(t: Script, s: string)
    ensures Padded(t, s, Strip(t, s))
  {
    var left, right := StripSplit(t, s);
    assert IsPadding(t, s, Strip(t, s), left, right);
  }

  /** Two texts match exactly when, lowered, they are the same text between white space. */
  lemma ExactMatchIff(t: Script, output: string, expected: string)
    ensures ExactMatch(t, output, expected) == 1.0 <==>
            exists core :: Padded(t, LowerAll(t, output), core) && Padded(t, LowerAll(t, expected), core)
  {
    StripPads(t, LowerAll(t, output));
    StripPads(t, LowerAll(t, expected));
    if core :| Padded(t, LowerAll(t, output), core) && Padded(t, LowerAll(t, expected), core) {
      PaddedStrips(t, LowerAll(t, output), core);
      PaddedStrips(t, LowerAll(t, expected), core);
    }
  }

  /** An exact match is always a normalised exact match. */
  lemma ExactImpliesNormalized(t: Script, output: string, expected: string)
    requires t.Valid()
    ensures ExactMatch(t, output, expected) <= NormalizedExactMatch(t, output, expected)
  {
    NormalizeOfStripped(t, LowerAll(t, output));
    NormalizeOfStripped(t, LowerAll(t, expected));
  }

  /** What normalised text looks like. */
  ghost predicate NormalForm(t: Script, s: string) {
    && (forall c :: c in s ==> t.lower(c) == c && c !in PUNCTUATION && (t.space(c) ==> c == ' '))
    && (forall i :: 0 <= i < |s| - 1 ==> !(t.space(s[i]) && t.space(s[i + 1])))
    && (s == "" || Solid(t, s))
  }

  lemma {:induction false} CollapseShape(t: Script, s: string)
    requires t.Valid()
    ensures var r := Collapse(t, s);
            && (forall c :: c in r ==> (c in s || c == ' ') && (t.space(c) ==> c == ' '))
            && (forall i :: 0 <= i < |r| - 1 ==> !(t.space(r[i]) && t.space(r[i + 1])))
            && (s != "" && !t.space(s[0]) ==> r != "" && r[0] == s[0])
    decreases |s|
  {
    if s != "" {
      var rest := if t.space(s[0]) then TrimLeft(t, s[1..]) else s[1..];
      var left := TrimLeftSplit(t, s[1..]);
      assert s == (if t.space(s[0]) then [s[0]] + left else [s[0]]) + rest;
      CollapseShape(t, rest);
    }
  }

  lemma {:induction false} CollapseFixes(t: Script, s: string)
    requires forall c :: c in s && t.space(c) ==> c == ' '
    requires forall i :: 0 <= i < |s| - 1 ==> !(t.space(s[i]) && t.space(s[i + 1]))
    ensures Collapse(t, s) == s
    decreases |s|
  {
    if s != "" {
      assert s[0] in s;
      assert forall c :: c in s[1..] ==> c in s;
      if |s| > 1 && t.space(s[0]) {
        assert !t.space(s[1]);
      }
      CollapseFixes(t, s[1..]);
    }
  }

  lemma {:induction false} WithoutFixes(s: string)
    requires forall c :: c in s ==> c !in PUNCTUATION
    ensures WithoutPunctuation(s) == s
  {
    if s != "" {
      assert s[0] in s;
      WithoutFixes(s[1..]);
    }
  }

  lemma NormalizedIsNormal(t: Script, s: string)
    requires t.Valid()
    ensures NormalForm(t, NormalizeText(t, s))
  {
    var clean := Clean(t, s);
    StripCollapse(t, clean);
    var left, right := StripSplit(t, clean);
    var core := Strip(t, clean);
    CollapseShape(t, core);
    CleanChars(t, s);
    BlankIsNotPunctuation();
    forall c | c in NormalizeText(t, s)
      ensures t.lower(c) == c && c !in PUNCTUATION && (t.space(c) ==> c == ' ')
    {
      assert c in core ==> c in clean;
    }
    if core != "" {
      CollapseSolid(t, core);
    }
  }

  lemma BlankIsNotPunctuation()
    ensures ' ' !in PUNCTUATION
  {
  }

  lemma CleanChars(t: Script, s: string)
    requires t.Valid()
    ensures forall c :: c in Clean(t, s) ==> t.lower(c) == c && c !in PUNCTUATION
  {
    WithoutChars(LowerAll(t, s));
  }

  /** The texts that normalisation leaves alone are exactly the normal forms; so it is idempotent. */
  lemma NormalizeFixesNormalForms(t: Script, s: string)
    requires t.Valid()
    ensures NormalizeText(t, s) == s <==> NormalForm(t, s)
    ensures NormalizeText(t, NormalizeText(t, s)) == NormalizeText(t, s)
  {
    NormalizedIsNormal(t, s);
    NormalFormFixed(t, NormalizeText(t, s));
    if NormalForm(t, s) {
      NormalFormFixed(t, s);
    }
  }

  lemma NormalFormFixed(t: Script, s: string)
    requires t.Valid() && NormalForm(t, s)
    ensures NormalizeText(t, s) == s
  {
    assert LowerAll(t, s) == s by {
      forall i | 0 <= i < |s| ensures LowerAll(t, s)[i] == s[i] { assert s[i] in s; }
    }
    WithoutFixes(s);
    CollapseFixes(t, s);
    if s != "" {
      assert "" + s + "" == s;
      var a', b' := StripKeeps(t, "", s, "");
      assert a' + s + b' == s;
    }
  }
}

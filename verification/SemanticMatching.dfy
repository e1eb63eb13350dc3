/** How well a source column matches a target column: the names' tokens, their longest
    common substring, the target table's name and the types. */
module SemanticMatching {
  import opened Common

  // ----- longest common substring -----

  ghost predicate CommonSubstring(a: string, b: string, length: nat) {
    exists i: nat, j: nat :: OccursAt(a, b, i, j, length)
  }

  ghost predicate OccursAt(a: string, b: string, i: nat, j: nat, length: nat) {
    i + length <= |a| && j + length <= |b| && a[i..i + length] == b[j..j + length]
  }

  /** The length of the longest common suffix of a[..i] and b[..j]. */
  function CommonSuffix(a: string, b: string, i: nat, j: nat): nat
    requires i <= |a| && j <= |b|
  {
    if i == 0 || j == 0 || a[i - 1] != b[j - 1] then 0 else CommonSuffix(a, b, i - 1, j - 1) + 1
  }

  /** a[..i] and b[..j] end in the same `length` characters. */
  ghost predicate EndAlike(a: string, b: string, i: nat, j: nat, length: nat)
    requires i <= |a| && j <= |b|
  {
    length <= i && length <= j && a[i - length..i] == b[j - length..j]
  }

  lemma SameSnoc(x: string, c: char, y: string, d: char)
    ensures x + [c] == y + [d] <==> x == y && c == d
  {
    if x + [c] == y + [d] {
      assert x == (x + [c])[..|x|] && y == (y + [d])[..|y|];
      assert c == (x + [c])[|x|] && d == (y + [d])[|y|];
    }
  }

  lemma EndOneLonger(a: string, b: string, i: nat, j: nat, length: nat)
    requires 0 < i <= |a| && 0 < j <= |b| && 0 < length
    ensures EndAlike(a, b, i, j, length) <==> a[i - 1] == b[j - 1] && EndAlike(a, b, i - 1, j - 1, length - 1)
  {
    if length <= i && length <= j {
      assert a[i - length..i] == a[i - length..i - 1] + [a[i - 1]];
      assert b[j - length..j] == b[j - length..j - 1] + [b[j - 1]];
      SameSnoc(a[i - length..i - 1], a[i - 1], b[j - length..j - 1], b[j - 1]);
    }
  }

  lemma {:induction false} CommonSuffixIsLongest(a: string, b: string, i: nat, j: nat, length: nat)
    requires i <= |a| && j <= |b|
    ensures CommonSuffix(a, b, i, j) <= i && CommonSuffix(a, b, i, j) <= j
    ensures EndAlike(a, b, i, j, length) <==> length <= CommonSuffix(a, b, i, j)
  {
    if i > 0 && j > 0 {
      CommonSuffixIsLongest(a, b, i - 1, j - 1, if length > 0 then length - 1 else 0);
      if length > 0 {
        EndOneLonger(a, b, i, j, length);
      }
    }
  }

  /** Rows before i hold common-suffix lengths; the others are still zero. */
  ghost predicate RowsFilled(dp: array2<nat>, a: string, b: string, i: nat)
    reads dp
    requires i <= |a| + 1
  {
    && dp.Length0 == |a| + 1 && dp.Length1 == |b| + 1
    && (forall k, l {:trigger dp[k, l]} :: 0 <= k < i && 0 <= l <= |b| ==> dp[k, l] == CommonSuffix(a, b, k, l))
    && (forall k, l {:trigger dp[k, l]} :: i <= k <= |a| && 0 <= l <= |b| ==> dp[k, l] == 0)
  }

  /** `max` is the largest common suffix before row i, and is attained. */
  ghost predicate BestBefore(a: string, b: string, i: nat, max: nat)
    requires i <= |a| + 1
  {
    && CommonSubstring(a, b, max)
    && forall k, l :: 0 <= k < i && 0 <= l <= |b| ==> CommonSuffix(a, b, k, l) <= max
  }

  lemma SuffixOccurs(a: string, b: string, i: nat, j: nat)
    requires i <= |a| && j <= |b|
    ensures CommonSubstring(a, b, CommonSuffix(a, b, i, j))
  {
    var length := CommonSuffix(a, b, i, j);
    CommonSuffixIsLongest(a, b, i, j, length);
    assert OccursAt(a, b, i - length, j - length, length);
  }

  method FillRow(dp: array2<nat>, a: string, b: string, i: nat, max0: nat) returns (max: nat)
    requires 1 <= i <= |a| && RowsFilled(dp, a, b, i) && BestBefore(a, b, i, max0)
    modifies dp
    ensures RowsFilled(dp, a, b, i + 1) && BestBefore(a, b, i + 1, max)
  {
    max := max0;
    for j := 1 to |b| + 1
      invariant forall k, l {:trigger dp[k, l]} :: 0 <= k < i && 0 <= l <= |b| ==> dp[k, l] == CommonSuffix(a, b, k, l)
      invariant forall k, l {:trigger dp[k, l]} :: i < k <= |a| && 0 <= l <= |b| ==> dp[k, l] == 0
      invariant forall l {:trigger dp[i, l]} :: 0 <= l < j ==> dp[i, l] == CommonSuffix(a, b, i, l)
      invariant forall l :: 0 <= l < j ==> CommonSuffix(a, b, i, l) <= max
      invariant forall l {:trigger dp[i, l]} :: j <= l <= |b| ==> dp[i, l] == 0
      invariant max0 <= max && CommonSubstring(a, b, max)
    {
      if a[i - 1] == b[j - 1] {
        dp[i, j] := dp[i - 1, j - 1] + 1;
        SuffixOccurs(a, b, i, j);
        max := if dp[i, j] > max then dp[i, j] else max;
      }
    }
  }

  /** The table of common suffixes, filled row by row; the answer is its largest entry. */
  method LongestCommonSubstring(a: string, b: string) returns (max: nat)
    ensures CommonSubstring(a, b, max)
    ensures forall length: nat :: CommonSubstring(a, b, length) ==> length <= max
  {
    var dp := new nat[|a| + 1, |b| + 1]((i, j) => 0);
    max := 0;
    assert OccursAt(a, b, 0, 0, 0);
    for i := 1 to |a| + 1
      invariant RowsFilled(dp, a, b, i) && BestBefore(a, b, i, max)
    {
      max := FillRow(dp, a, b, i, max);
    }
    forall length: nat | CommonSubstring(a, b, length)
      ensures length <= max
    {
      var i: nat, j: nat :| OccursAt(a, b, i, j, length);
      CommonSuffixIsLongest(a, b, i + length, j + length, length);
    }
  }

  // ----- tokens -----

  const STOP_WORDS := {
    "id", "ref", "code", "key", "num", "fk", "foreign",
    "by", "to", "from", "for", "of", "in", "the", "a", "an",
    "is", "are", "was", "were", "be", "been"}

  predicate IsTokenChar(c: char) {
    'a' <= c <= 'z' || '0' <= c <= '9'
  }

  /** The longest token a string starts with. */
  function Leading(s: string): (t: string)
    ensures |t| <= |s|
  {
    if s != "" && IsTokenChar(s[0]) then [s[0]] + Leading(s[1..]) else ""
  }

  /** The tokens of a lower-cased name, stop words left out. */
  function Tokens(s: string): seq<string>
    decreases |s|
  {
    if s == "" then []
    else if !IsTokenChar(s[0]) then Tokens(s[1..])
    else
      var t := Leading(s);
      (if t in STOP_WORDS then [] else [t]) + Tokens(s[|t|..])
  }

  function StemPlural(word: string): string {
    if |word| > 3 && word[|word| - 1] == 's' then word[..|word| - 1] else word
  }

  function Shared(tokens: seq<string>, set0: set<string>): nat {
    |Filter(tokens, t => t in set0)|
  }

  /** How often the list repeats a token of `set0` it has had before. */
  function Repeats(tokens: seq<string>, set0: set<string>): nat {
    if tokens == [] then 0
    else
      var before, last := tokens[..|tokens| - 1], tokens[|tokens| - 1];
      Repeats(before, set0) + if last in set0 && last in before then 1 else 0
  }

  function Ratio(a: nat, b: nat): real {
    if b == 0 then 0.0 else a as real / b as real
  }

  function Overlap(a: seq<string>, b: seq<string>): real {
    if a == [] then 0.0 else Ratio(Shared(b, Elems(a)), |Elems(a + b)|)
  }

  method TokenOverlap(a: seq<string>, b: seq<string>) returns (score: real)
    ensures score == Overlap(a, b)
  {
    var setA := Elems(a);
    assert a != [] ==> a[0] in setA;
    if setA == {} {
      return 0.0;
    }
    var intersection := 0;
    for i := 0 to |b|
      invariant intersection == Shared(b[..i], setA)
    {
      assert b[..i + 1] == b[..i] + [b[i]];
      FilterSnoc(b[..i], b[i], t => t in setA);
      if b[i] in setA {
        intersection := intersection + 1;
      }
    }
    assert b[..|b|] == b;
    return Ratio(intersection, |Elems(a + b)|);
  }

  lemma OneMoreStem(s: set<string>, t: set<string>, left: set<string>, x: string)
    requires left <= s && x in left
    ensures |(s - (left - {x})) * t| == |(s - left) * t| + if x in t then 1 else 0
  {
    if x in t {
      assert (s - (left - {x})) * t == (s - left) * t + {x};
    } else {
      assert (s - (left - {x})) * t == (s - left) * t;
    }
  }

  /** Shared stems over the larger number of stems. */
  method TableHintScore(sourceTokens: seq<string>, tableTokens: seq<string>) returns (score: real)
    ensures score == Hint(sourceTokens, tableTokens)
  {
    if |sourceTokens| == 0 || |tableTokens| == 0 {
      return 0.0;
    }
    var s, t := Stems(sourceTokens), Stems(tableTokens);
    var matches := 0;
    var left := s;
    while left != {}
      invariant left <= s && matches == |(s - left) * t|
      decreases left
    {
      var x :| x in left;
      OneMoreStem(s, t, left, x);
      left := left - {x};
      if x in t {
        matches := matches + 1;
      }
    }
    assert s - {} == s;
    return Ratio(matches, if |s| > |t| then |s| else |t|);
  }

  function Stems(tokens: seq<string>): set<string> {
    set w | w in tokens :: StemPlural(w)
  }

  function Hint(source: seq<string>, table: seq<string>): real {
    if source == [] || table == [] then 0.0
    else
      var s, t := Stems(source), Stems(table);
      Ratio(|s * t|, if |s| > |t| then |s| else |t|)
  }

  datatype TypeCategory = NumberType | BooleanType | StringType | DateType | JsonType | OtherType

  function TypeCompatibility(s: TypeCategory, t: TypeCategory): real {
    if s == t then 1.0
    else if (s == NumberType && t == StringType) || (s == StringType && t == NumberType) then 0.5
    else 0.0
  }

  /** A column: its name, its lower-cased name, its table's lower-cased name, its type. */
  datatype ColumnInfo = ColumnInfo(name: string, lower: string, tableLower: string, category: TypeCategory)

  /** The longest common substring over the longer name, at most 1. */
  method Nearness(source: ColumnInfo, target: ColumnInfo) returns (lcs: real)
    ensures lcs == Closeness(source, target)
  {
    var longest := LongestCommonSubstring(source.lower, target.lower);
    LongestIsUnique(source.lower, target.lower, longest);
    var longer := if |source.name| > |target.name| then |source.name| else |target.name|;
    lcs := if Ratio(longest, longer) < 1.0 then Ratio(longest, longer) else 1.0;
  }

  /** The target repeats shared tokens no more often than there are tokens not shared. */
  ghost predicate FewRepeats(a: seq<string>, b: seq<string>) {
    Repeats(b, Elems(a)) <= |Elems(a) - Elems(b)| + |Elems(b) - Elems(a)|
  }

  /** The combined score: never negative, and at most 1 unless the target repeats shared
      tokens too often. */
  method HeuristicScore(source: ColumnInfo, target: ColumnInfo) returns (score: real)
    requires source.name != "" || target.name != ""
    ensures 0.0 <= score
    ensures FewRepeats(Tokens(source.lower), Tokens(target.lower)) ==> score <= 1.0
    ensures NoDup(Tokens(target.lower)) ==> score <= 1.0
    ensures score == Score(source, target)
  {
    var jaccard := TokenOverlap(Tokens(source.lower), Tokens(target.lower));
    var lcs := Nearness(source, target);
    var hint := TableHintScore(Tokens(source.lower), Tokens(target.tableLower));
    if Tokens(source.lower) != [] {
      OverlapWithinOneJustWhen(Tokens(source.lower), Tokens(target.lower));
    }
    if NoDup(Tokens(target.lower)) {
      NothingRepeats(Tokens(target.lower), Elems(Tokens(source.lower)));
    }
    HintWithinOne(Tokens(source.lower), Tokens(target.tableLower));
    ScoreWithinOne(source, target);
    score := (jaccard * 0.4 + lcs * 0.2 + hint * 0.4) * 0.6
           + TypeCompatibility(source.category, target.category) * 0.4;
  }

  /** The length of the longest common substring, as the number it is. */
  ghost function Longest(a: string, b: string): (max: nat)
    ensures CommonSubstring(a, b, max)
    ensures forall length: nat :: CommonSubstring(a, b, length) ==> length <= max
  {
    LongestExists(a, b, |a|);
    var max: nat :| CommonSubstring(a, b, max) && forall length: nat :: CommonSubstring(a, b, length) ==> length <= max;
    max
  }

  lemma {:induction false} LongestExists(a: string, b: string, n: nat)
    requires forall length: nat :: CommonSubstring(a, b, length) ==> length <= n
    ensures exists max: nat :: CommonSubstring(a, b, max) && forall length: nat :: CommonSubstring(a, b, length) ==> length <= max
  {
    assert OccursAt(a, b, 0, 0, 0);
    if !CommonSubstring(a, b, n) {
      assert n > 0;
      LongestExists(a, b, n - 1);
    }
  }

  lemma LongestIsUnique(a: string, b: string, max: nat)
    requires CommonSubstring(a, b, max) && forall length: nat :: CommonSubstring(a, b, length) ==> length <= max
    ensures max == Longest(a, b)
  {
  }

  /** The longest common substring over the longer name, at most 1. */
  ghost function Closeness(source: ColumnInfo, target: ColumnInfo): (r: real)
    ensures 0.0 <= r <= 1.0
  {
    var longer := if |source.name| > |target.name| then |source.name| else |target.name|;
    var r := Ratio(Longest(source.lower, target.lower), longer);
    if r < 1.0 then r else 1.0
  }

  ghost function Score(source: ColumnInfo, target: ColumnInfo): real {
    (Overlap(Tokens(source.lower), Tokens(target.lower)) * 0.4
     + Closeness(source, target) * 0.2
     + Hint(Tokens(source.lower), Tokens(target.tableLower)) * 0.4) * 0.6
    + TypeCompatibility(source.category, target.category) * 0.4
  }

  lemma ScoreWithinOne(source: ColumnInfo, target: ColumnInfo)
    requires 0.0 <= Hint(Tokens(source.lower), Tokens(target.tableLower)) <= 1.0
    ensures 0.0 <= Overlap(Tokens(source.lower), Tokens(target.lower)) ==> 0.0 <= Score(source, target)
    ensures Overlap(Tokens(source.lower), Tokens(target.lower)) <= 1.0 ==> Score(source, target) <= 1.0
  {
  }

  /** The shared tokens of a list are its distinct ones and the repeats. */
  lemma {:induction false} SharedIsDistinctAndRepeats(b: seq<string>, set0: set<string>)
    ensures Shared(b, set0) == |Elems(b) * set0| + Repeats(b, set0)
  {
    if b == [] {
      assert Elems(b) * set0 == {};
    } else {
      var before, last := b[..|b| - 1], b[|b| - 1];
      SharedIsDistinctAndRepeats(before, set0);
      assert b == before + [last];
      FilterSnoc(before, last, t => t in set0);
      DistinctSnoc(before, last, set0);
    }
  }

  lemma DistinctSnoc(before: seq<string>, last: string, set0: set<string>)
    ensures |Elems(before + [last]) * set0|
            == |Elems(before) * set0| + if last in set0 && last !in before then 1 else 0
  {
    assert Elems(before + [last]) == Elems(before) + {last};
    if last in set0 && last !in before {
      assert Elems(before + [last]) * set0 == Elems(before) * set0 + {last};
    } else {
      assert Elems(before + [last]) * set0 == Elems(before) * set0;
    }
  }

  lemma UnionInParts(s: set<string>, t: set<string>)
    ensures |s + t| == |t * s| + |s - t| + |t - s|
  {
    assert s + t == t * s + (s - t) + (t - s);
  }

  /** The overlap passes 1 exactly when the target repeats shared tokens more often than the
      two lists have tokens that are not shared. */
  lemma OverlapWithinOneJustWhen(a: seq<string>, b: seq<string>)
    requires a != []
    ensures 0.0 <= Overlap(a, b)
    ensures Overlap(a, b) <= 1.0 <==> FewRepeats(a, b)
  {
    SharedIsDistinctAndRepeats(b, Elems(a));
    UnionInParts(Elems(a), Elems(b));
    assert Elems(a + b) == Elems(a) + Elems(b);
    assert a[0] in Elems(a + b);
    RatioAgainstOne(Shared(b, Elems(a)), |Elems(a + b)|);
  }

  lemma TimesPositive(q: real, y: real)
    requires y > 0.0
    ensures 0.0 <= q * y <==> 0.0 <= q
    ensures q * y <= y <==> q <= 1.0
  {
    if q <= 1.0 {
      assert (1.0 - q) * y >= 0.0;
    } else {
      assert (q - 1.0) * y > 0.0;
    }
  }

  lemma RatioAgainstOne(a: nat, b: nat)
    requires b > 0
    ensures 0.0 <= Ratio(a, b) && (Ratio(a, b) <= 1.0 <==> a <= b)
  {
    var x, y := a as real, b as real;
    var q := x / y;
    assert q * y == x;
    TimesPositive(q, y);
  }

  /** So it stays within 1 where the target's tokens do not repeat. */
  lemma {:induction false} NothingRepeats(b: seq<string>, set0: set<string>)
    requires NoDup(b)
    ensures Repeats(b, set0) == 0
  {
    if b != [] {
      NothingRepeats(b[..|b| - 1], set0);
    }
  }

  lemma HintWithinOne(source: seq<string>, table: seq<string>)
    ensures 0.0 <= Hint(source, table) <= 1.0
  {
    var s, t := Stems(source), Stems(table);
    SubsetSize(s * t, s);
    RatioWithinOne(|s * t|, if |s| > |t| then |s| else |t|);
  }

  lemma RatioWithinOne(a: nat, b: nat)
    requires a <= b
    ensures 0.0 <= Ratio(a, b) <= 1.0
  {
    if b != 0 {
      RatioAgainstOne(a, b);
    }
  }

  lemma RepeatedTokensOverlapThrice()
    ensures Overlap(["x"], ["x", "x", "x"]) == 3.0
  {
    var p := (t: string) => t in Elems(["x"]);
    assert Elems(["x"]) == {"x"} == Elems(["x"] + ["x", "x", "x"]);
    assert ["x", "x", "x"][1..] == ["x", "x"] && ["x", "x"][1..] == ["x"] && ["x"][1..] == [];
    assert Filter(["x"], p) == ["x"];
    assert Filter(["x", "x"], p) == ["x", "x"];
  }

  lemma TokensOfRepeated()
    ensures Tokens("x") == ["x"] && Tokens("x_x_x") == ["x", "x", "x"]
  {
    assert "x"[1..] == "" && Leading("x") == "x";
    assert "x_x"[1..] == "_x" && "_x"[1..] == "x" && Leading("x_x") == "x" && Tokens("x_x") == ["x"] + Tokens("_x");
    assert "x_x_x"[1..] == "_x_x" && "_x_x"[1..] == "x_x" && Leading("x_x_x") == "x";
    assert Tokens("x_x_x") == ["x"] + Tokens("_x_x");
  }

  /** Why the target's tokens must not repeat: a shared token counts once for each repeat,
      so column x scores more than 1 against column x_x_x of table x. */
  lemma RepeatedTokensOvershoot()
    ensures Score(ColumnInfo("x", "x", "x", NumberType), ColumnInfo("x_x_x", "x_x_x", "x", NumberType)) > 1.0
  {
    TokensOfRepeated();
    RepeatedTokensOverlapThrice();
    HintWithinOne(["x"], ["x"]);
  }
}

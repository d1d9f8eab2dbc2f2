/**
 * The JavaScript built-ins that the word counter relies on, modelled on
 * strings as sequences of characters: the `\s` character class (the same
 * set that `String.prototype.trim` removes), `trim`, `split(/\s+/)`,
 * `Array.prototype.filter` and `parseInt(s, 10)`.
 */
module Builtins {

  datatype Option<T> = None | Some(value: T)

  /** ECMA-262 WhiteSpace and LineTerminator: what `\s` matches and `trim` strips. */
  predicate IsWhitespace(c: char) {
    var n := c as int;
    n == 0x09 || n == 0x0A || n == 0x0B || n == 0x0C || n == 0x0D || n == 0x20
    || n == 0xA0 || n == 0x1680 || (0x2000 <= n <= 0x200A) || n == 0x2028
    || n == 0x2029 || n == 0x202F || n == 0x205F || n == 0x3000 || n == 0xFEFF
  }

  predicate IsNotWhitespace(c: char) { !IsWhitespace(c) }

  /** Empty, or whitespace only. */
  predicate IsBlank(s: string) {
    forall i :: 0 <= i < |s| ==> IsWhitespace(s[i])
  }

  predicate HasNoWhitespace(s: string) {
    forall i :: 0 <= i < |s| ==> !IsWhitespace(s[i])
  }

  /** JavaScript truthiness of a string, as used by `filter(Boolean)`. */
  predicate IsNonEmpty(s: string) { |s| > 0 }

  /** `a` is obtained from `b` by deleting elements (greedy matching decides this). */
  predicate IsSubsequence<T(==)>(a: seq<T>, b: seq<T>)
    decreases |b|
  {
    if |a| == 0 then true
    else if |b| == 0 then false
    else if a[0] == b[0] then IsSubsequence(a[1..], b[1..])
    else IsSubsequence(a, b[1..])
  }

  /**
   * `Array.prototype.filter`: the elements satisfying `p`, in their order,
   * each with its original multiplicity, and nothing else.
   */
  function Filter<T(==)>(s: seq<T>, p: T -> bool): (r: seq<T>)
    ensures |r| <= |s|
    ensures forall i :: 0 <= i < |r| ==> p(r[i]) && r[i] in s
  {
    if |s| == 0 then []
    else if p(s[0]) then [s[0]] + Filter(s[1..], p)
    else Filter(s[1..], p)
  }

  /** What `Filter` keeps: an order-preserving selection of `s`. */
  lemma {:induction false} FilterIsSubsequence<T>(s: seq<T>, p: T -> bool)
    ensures IsSubsequence(Filter(s, p), s)
    decreases |s|
  {
    if |s| > 0 {
      FilterIsSubsequence(s[1..], p);
      var r := Filter(s, p);
      if p(s[0]) {
        assert r[1..] == Filter(s[1..], p);
      }
    }
  }

  /** What `Filter` keeps: every element satisfying `p`, with its multiplicity, and no other. */
  lemma {:induction false} FilterMultiplicity<T(!new)>(s: seq<T>, p: T -> bool)
    ensures forall x :: multiset(Filter(s, p))[x] == if p(x) then multiset(s)[x] else 0
    decreases |s|
  {
    if |s| > 0 {
      FilterMultiplicity(s[1..], p);
      assert s == [s[0]] + s[1..];
      assert multiset(s) == multiset([s[0]]) + multiset(s[1..]);
    }
  }

  lemma {:induction false} FilterConcat<T>(a: seq<T>, b: seq<T>, p: T -> bool)
    ensures Filter(a + b, p) == Filter(a, p) + Filter(b, p)
    decreases |a|
  {
    if |a| == 0 {
      assert a + b == b;
    } else {
      assert (a + b)[0] == a[0];
      assert (a + b)[1..] == a[1..] + b;
      FilterConcat(a[1..], b, p);
    }
  }

  lemma {:induction false} FilterKeepsAll<T>(s: seq<T>, p: T -> bool)
    requires forall i :: 0 <= i < |s| ==> p(s[i])
    ensures Filter(s, p) == s
    decreases |s|
  {
    if |s| > 0 {
      FilterKeepsAll(s[1..], p);
    }
  }

  /** Every element of a subsequence is an element of the sequence it came from. */
  lemma {:induction false} SubsequenceElements<T>(a: seq<T>, b: seq<T>)
    requires IsSubsequence(a, b)
    ensures forall x :: x in a ==> x in b
    decreases |b|
  {
    if |a| > 0 && |b| > 0 {
      if a[0] == b[0] {
        SubsequenceElements(a[1..], b[1..]);
        assert a == [a[0]] + a[1..];
      } else {
        SubsequenceElements(a, b[1..]);
      }
    }
  }

  /** Length of the longest prefix of `s` whose characters all satisfy `p`. */
  function PrefixLength(s: string, p: char -> bool): (n: nat)
    ensures n <= |s|
    ensures forall i :: 0 <= i < n ==> p(s[i])
    ensures n < |s| ==> !p(s[n])
  {
    if |s| > 0 && p(s[0]) then 1 + PrefixLength(s[1..], p) else 0
  }

  /** `String.prototype.trimStart`. */
  function TrimStart(s: string): (r: string)
    ensures |r| <= |s| && r == s[|s| - |r|..]
    ensures |r| > 0 ==> !IsWhitespace(r[0])
    ensures IsBlank(s[..|s| - |r|])
  {
    if |s| > 0 && IsWhitespace(s[0]) then TrimStart(s[1..]) else s
  }

  /** `String.prototype.trimEnd`. */
  function TrimEnd(s: string): (r: string)
    ensures |r| <= |s| && r == s[..|r|]
    ensures |r| > 0 ==> !IsWhitespace(r[|r| - 1])
    ensures IsBlank(s[|r|..])
  {
    if |s| > 0 && IsWhitespace(s[|s| - 1]) then TrimEnd(s[..|s| - 1]) else s
  }

  /**
   * `String.prototype.trim`: what follows the leading whitespace run, cut
   * where only whitespace remains; it begins and ends with non-whitespace.
   */
  function Trim(s: string): (r: string)
    ensures |r| <= |s|
    ensures var rest := s[PrefixLength(s, IsWhitespace)..];
      |r| <= |rest| && r == rest[..|r|] && IsBlank(rest[|r|..])
    ensures r == "" <==> IsBlank(s)
    ensures |r| > 0 ==> !IsWhitespace(r[0]) && !IsWhitespace(r[|r| - 1])
  {
    TrimIsSliceOfRest(s, TrimStart(s), TrimEnd(TrimStart(s)));
    TrimBlank(s, TrimStart(s), TrimEnd(TrimStart(s)));
    TrimEnds(s, TrimStart(s), TrimEnd(TrimStart(s)));
    TrimEnd(TrimStart(s))
  }

  /** What `trim` keeps is a prefix of what follows the leading whitespace, with only whitespace after it. */
  lemma TrimIsSliceOfRest(s: string, t: string, r: string)
    requires t == TrimStart(s) && r == TrimEnd(t)
    ensures var rest := s[PrefixLength(s, IsWhitespace)..];
      |r| <= |rest| && r == rest[..|r|] && IsBlank(rest[|r|..])
  {
    TrimStartSkipsLeadingWhitespace(s);
  }

  /** What `trim` keeps starts and ends with non-whitespace. */
  lemma TrimEnds(s: string, t: string, r: string)
    requires t == TrimStart(s) && r == TrimEnd(t)
    ensures |r| > 0 ==> !IsWhitespace(r[0]) && !IsWhitespace(r[|r| - 1])
  {
    TrimBlank(s, t, r);
  }

  /** Trimming leaves nothing exactly when the text is blank, and keeps the first non-whitespace character. */
  lemma TrimBlank(s: string, t: string, r: string)
    requires t == TrimStart(s) && r == TrimEnd(t)
    ensures r == "" <==> IsBlank(s)
    ensures |r| > 0 ==> r[0] == t[0]
  {
    var k := |s| - |t|;
    if r == "" {
      assert t[|r|..] == t;
      assert |t| == 0;
      forall i | 0 <= i < |s| ensures IsWhitespace(s[i]) {
        assert s[..k][i] == s[i];
      }
    } else {
      assert r[0] == t[0] == s[k];
    }
  }

  lemma {:induction false} TrimStartSkipsLeadingWhitespace(s: string)
    ensures |s| - |TrimStart(s)| == PrefixLength(s, IsWhitespace)
    decreases |s|
  {
    if |s| > 0 && IsWhitespace(s[0]) {
      TrimStartSkipsLeadingWhitespace(s[1..]);
    }
  }

  /** A text that already begins and ends with non-whitespace is its own trim. */
  lemma TrimOfTrimmed(s: string)
    requires |s| > 0 && !IsWhitespace(s[0]) && !IsWhitespace(s[|s| - 1])
    ensures Trim(s) == s
  {
    assert TrimStart(s) == s;
    assert TrimEnd(s) == s;
  }

  lemma {:induction false} FilterOfBlank(s: string)
    requires IsBlank(s)
    ensures Filter(s, IsNotWhitespace) == []
    decreases |s|
  {
    if |s| > 0 {
      FilterOfBlank(s[1..]);
    }
  }

  /** Trimming removes whitespace only: the non-whitespace characters stay, in order. */
  lemma TrimKeepsNonWhitespace(s: string)
    ensures Filter(Trim(s), IsNotWhitespace) == Filter(s, IsNotWhitespace)
  {
    TrimStartKeepsNonWhitespace(s);
    TrimEndKeepsNonWhitespace(TrimStart(s));
  }

  /** Trimming the end removes whitespace only. */
  lemma TrimEndKeepsNonWhitespace(t: string)
    ensures Filter(TrimEnd(t), IsNotWhitespace) == Filter(t, IsNotWhitespace)
  {
    var r := TrimEnd(t);
    var post := t[|r|..];
    assert t == r + post;
    FilterConcat(r, post, IsNotWhitespace);
    FilterOfBlank(post);
    assert Filter(r, IsNotWhitespace) + [] == Filter(r, IsNotWhitespace);
  }

  /** Trimming the start removes whitespace only. */
  lemma TrimStartKeepsNonWhitespace(s: string)
    ensures Filter(TrimStart(s), IsNotWhitespace) == Filter(s, IsNotWhitespace)
  {
    var t := TrimStart(s);
    var k := |s| - |t|;
    assert s == s[..k] + t;
    FilterConcat(s[..k], t, IsNotWhitespace);
    FilterOfBlank(s[..k]);
  }

  /**
   * `s.split(/\s+/)`: the fields between maximal whitespace runs. A leading
   * or trailing run yields an empty first or last field, and "" splits to [""].
   */
  function Split(s: string): (fields: seq<string>)
    ensures |fields| >= 1
    ensures forall i :: 0 <= i < |fields| ==> HasNoWhitespace(fields[i])
    ensures Concat(fields) == Filter(s, IsNotWhitespace)
    decreases |s|
  {
    if |s| == 0 then [""]
    else if IsWhitespace(s[0]) then
      var rest := Split(TrimStart(s));
      TrimStartKeepsNonWhitespace(s);
      assert Concat([""] + rest) == Concat(rest) by {
        assert ([""] + rest)[1..] == rest;
      }
      [""] + rest
    else
      var rest := Split(s[1..]);
      var fields := [[s[0]] + rest[0]] + rest[1..];
      assert Concat(fields) == [s[0]] + Concat(rest) by {
        assert fields[1..] == rest[1..];
      }
      fields
  }

  /**
   * The maximal runs of non-whitespace characters of `s`, in order: an
   * independent account of the words a whitespace tokenizer yields.
   */
  function Runs(s: string): seq<string>
    decreases |s|
  {
    if |s| == 0 then []
    else if IsWhitespace(s[0]) then Runs(s[1..])
    else
      var n := PrefixLength(s, IsNotWhitespace);
      [s[..n]] + Runs(s[n..])
  }

  /** A prefix run of `x` that stops inside `x`, or where `y` cannot continue it, is the run of `x + y`. */
  lemma {:induction false} PrefixLengthAppend(x: string, y: string, p: char -> bool)
    requires PrefixLength(x, p) < |x| || |y| == 0 || !p(y[0])
    ensures PrefixLength(x + y, p) == PrefixLength(x, p)
    decreases |x|
  {
    if |x| == 0 {
      assert x + y == y;
    } else {
      assert (x + y)[0] == x[0];
      if p(x[0]) {
        assert (x + y)[1..] == x[1..] + y;
        PrefixLengthAppend(x[1..], y, p);
      }
    }
  }

  lemma {:induction false} RunsOfBlank(s: string)
    requires IsBlank(s)
    ensures Runs(s) == []
    decreases |s|
  {
    if |s| > 0 {
      RunsOfBlank(s[1..]);
    }
  }

  lemma {:induction false} RunsTrimStart(s: string)
    ensures Runs(TrimStart(s)) == Runs(s)
    decreases |s|
  {
    if |s| > 0 && IsWhitespace(s[0]) {
      RunsTrimStart(s[1..]);
    }
  }

  /** Whitespace after a text adds no run. */
  lemma {:induction false} RunsAppendBlank(x: string, b: string)
    requires IsBlank(b)
    ensures Runs(x + b) == Runs(x)
    decreases |x|
  {
    if |x| == 0 {
      assert x + b == b;
      RunsOfBlank(b);
    } else if IsWhitespace(x[0]) {
      assert (x + b)[0] == x[0];
      assert (x + b)[1..] == x[1..] + b;
      RunsAppendBlank(x[1..], b);
    } else {
      var m := PrefixLength(x, IsNotWhitespace);
      assert (x + b)[0] == x[0];
      PrefixLengthAppend(x, b, IsNotWhitespace);
      assert (x + b)[..m] == x[..m];
      assert (x + b)[m..] == x[m..] + b;
      RunsAppendBlank(x[m..], b);
    }
  }

  /** Trimming keeps the runs. */
  lemma RunsTrim(s: string)
    ensures Runs(Trim(s)) == Runs(s)
  {
    RunsTrimStart(s);
    RunsTrimEnd(TrimStart(s));
  }

  lemma RunsTrimEnd(t: string)
    ensures Runs(TrimEnd(t)) == Runs(t)
  {
    var r := TrimEnd(t);
    assert t == r + t[|r|..];
    RunsAppendBlank(r, t[|r|..]);
  }

  /** The non-empty fields of `split(/\s+/)` are exactly the maximal runs, in order. */
  lemma {:induction false} SplitFieldsAreRuns(s: string)
    ensures Filter(Split(s), IsNonEmpty) == Runs(s)
    decreases |s|
  {
    if |s| == 0 {
    } else if IsWhitespace(s[0]) {
      var u := TrimStart(s);
      assert u == TrimStart(s[1..]);
      SplitFieldsAreRuns(u);
      RunsTrimStart(s);
      assert ([""] + Split(u))[1..] == Split(u);
    } else {
      var n := PrefixLength(s, IsNotWhitespace);
      var w, r := s[..n], s[n..];
      FirstRun(s);
      assert s == w + r;
      SplitWordThen(w, r);
      if |r| == 0 {
        assert w + "" == w;
        assert Runs(r) == [];
      } else {
        var u := TrimStart(r);
        SplitFieldsAreRuns(u);
        RunsTrimStart(r);
        FieldsAfterRun(w, Split(r), Split(u), Split(s));
      }
    }
  }

  /** The first run of a text that starts with one: a whitespace-free prefix followed by nothing or whitespace. */
  lemma FirstRun(s: string)
    requires |s| > 0 && !IsWhitespace(s[0])
    ensures var n := PrefixLength(s, IsNotWhitespace);
      0 < n && HasNoWhitespace(s[..n]) && (n == |s| || IsWhitespace(s[n..][0]))
  {
    var n := PrefixLength(s, IsNotWhitespace);
    forall i | 0 <= i < n ensures !IsWhitespace(s[..n][i]) {
      assert s[..n][i] == s[i];
      assert IsNotWhitespace(s[i]);
    }
  }

  /** A run followed by whitespace keeps its own field, ahead of the fields after the whitespace. */
  lemma FieldsAfterRun(w: string, gap: seq<string>, after: seq<string>, fields: seq<string>)
    requires |w| > 0
    requires gap == [""] + after
    requires fields == [w + gap[0]] + gap[1..]
    ensures Filter(fields, IsNonEmpty) == [w] + Filter(after, IsNonEmpty)
  {
    FieldsAfterWord(w, after, gap, fields);
    assert fields[1..] == after;
  }

  /** `ss.join('')`. */
  function Concat(ss: seq<string>): string
  {
    if |ss| == 0 then "" else ss[0] + Concat(ss[1..])
  }

  /** Dropping empty fields does not change what they spell together. */
  lemma {:induction false} ConcatOfNonEmpty(ss: seq<string>)
    ensures Concat(Filter(ss, IsNonEmpty)) == Concat(ss)
    decreases |ss|
  {
    if |ss| > 0 {
      ConcatOfNonEmpty(ss[1..]);
      if IsNonEmpty(ss[0]) {
        assert ([ss[0]] + Filter(ss[1..], IsNonEmpty))[1..] == Filter(ss[1..], IsNonEmpty);
      } else {
        assert ss[0] + Concat(ss[1..]) == Concat(ss[1..]);
      }
    }
  }

  /**
   * Number of maximal non-whitespace runs in `s`: positions holding a
   * non-whitespace character that start the text or follow whitespace.
   * `afterWhitespace` says whether the position before `s` counts as such.
   */
  function RunStarts(s: string, afterWhitespace: bool): nat
  {
    if |s| == 0 then 0
    else (if afterWhitespace && !IsWhitespace(s[0]) then 1 else 0) + RunStarts(s[1..], IsWhitespace(s[0]))
  }

  function RunCount(s: string): nat { RunStarts(s, true) }

  lemma {:induction false} RunCountPositive(s: string)
    requires !IsBlank(s)
    ensures RunCount(s) >= 1
    decreases |s|
  {
    if IsWhitespace(s[0]) {
      assert !IsBlank(s[1..]) by {
        var i :| 0 <= i < |s| && !IsWhitespace(s[i]);
        assert s[1..][i - 1] == s[i];
      }
      RunCountPositive(s[1..]);
    }
  }

  lemma {:induction false} RunCountOfBlank(s: string, b: bool)
    requires IsBlank(s)
    ensures RunStarts(s, b) == 0
    decreases |s|
  {
    if |s| > 0 {
      RunCountOfBlank(s[1..], true);
    }
  }

  lemma {:induction false} RunStartsSkipBlankPrefix(s: string, b: bool)
    requires |s| > 0 && IsWhitespace(s[0])
    ensures RunStarts(s, b) == RunStarts(TrimStart(s), true)
    decreases |s|
  {
    if |s[1..]| > 0 && IsWhitespace(s[1..][0]) {
      RunStartsSkipBlankPrefix(s[1..], true);
    }
  }

  lemma RunCountTrimStart(s: string)
    ensures RunCount(TrimStart(s)) == RunCount(s)
  {
    if |s| > 0 && IsWhitespace(s[0]) {
      RunStartsSkipBlankPrefix(s, true);
    }
  }

  lemma {:induction false} RunStartsAppendWhitespace(s: string, c: char, b: bool)
    requires IsWhitespace(c)
    ensures RunStarts(s + [c], b) == RunStarts(s, b)
    decreases |s|
  {
    if |s| > 0 {
      assert (s + [c])[1..] == s[1..] + [c];
      RunStartsAppendWhitespace(s[1..], c, IsWhitespace(s[0]));
    } else {
      assert [c][1..] == [];
    }
  }

  lemma {:induction false} RunStartsTrimEnd(s: string, b: bool)
    ensures RunStarts(TrimEnd(s), b) == RunStarts(s, b)
    decreases |s|
  {
    if |s| > 0 && IsWhitespace(s[|s| - 1]) {
      assert s == s[..|s| - 1] + [s[|s| - 1]];
      RunStartsAppendWhitespace(s[..|s| - 1], s[|s| - 1], b);
      RunStartsTrimEnd(s[..|s| - 1], b);
    }
  }

  /** Trimming never changes how many words a text has. */
  lemma RunCountTrim(s: string)
    ensures RunCount(Trim(s)) == RunCount(s)
  {
    RunCountTrimStart(s);
    RunStartsTrimEnd(TrimStart(s), true);
  }

  /**
   * The non-empty fields of `split(/\s+/)` are exactly the maximal runs:
   * there are as many of them as runs start in `t`, and all but the first
   * field account for the runs that start after the first character.
   */
  lemma {:induction false} SplitCountsRuns(t: string)
    ensures |Filter(Split(t), IsNonEmpty)| == RunStarts(t, true)
    ensures |Filter(Split(t)[1..], IsNonEmpty)| == RunStarts(t, false)
    decreases |t|
  {
    if |t| == 0 {
    } else if IsWhitespace(t[0]) {
      var u := TrimStart(t);
      SplitCountsRuns(u);
      RunStartsSkipBlankPrefix(t, true);
      RunStartsSkipBlankPrefix(t, false);
      FilterConcat([""], Split(u), IsNonEmpty);
      assert Split(t)[1..] == Split(u);
    } else {
      var rest := Split(t[1..]);
      SplitCountsRuns(t[1..]);
      var first := [t[0]] + rest[0];
      assert Split(t) == [first] + rest[1..];
      FilterConcat([first], rest[1..], IsNonEmpty);
    }
  }

  /** A trimmed, non-empty text splits into non-empty fields only. */
  lemma {:induction false} SplitOfTrimmedHasNoEmptyField(x: string)
    requires |x| > 0 && !IsWhitespace(x[0]) && !IsWhitespace(x[|x| - 1])
    ensures forall i :: 0 <= i < |Split(x)| ==> IsNonEmpty(Split(x)[i])
    decreases |x|
  {
    var tail := x[1..];
    var rest := Split(tail);
    assert Split(x) == [[x[0]] + rest[0]] + rest[1..];
    if |tail| > 0 {
      assert tail[|tail| - 1] == x[|x| - 1];
      if IsWhitespace(tail[0]) {
        var u := TrimStart(tail);
        assert rest[1..] == Split(u);
        assert u == tail[|tail| - |u|..];
        assert |u| > 0;
        assert u[|u| - 1] == tail[|tail| - 1];
        SplitOfTrimmedHasNoEmptyField(u);
      } else {
        SplitOfTrimmedHasNoEmptyField(tail);
      }
    }
  }

  /** `words.join(' ')`. */
  function JoinWithSpaces(words: seq<string>): string
  {
    if |words| == 0 then ""
    else if |words| == 1 then words[0]
    else words[0] + " " + JoinWithSpaces(words[1..])
  }

  /** A joined list of words begins with the first word's first character and ends with the last word's last. */
  lemma {:induction false} JoinEnds(words: seq<string>)
    requires |words| > 0 && forall i :: 0 <= i < |words| ==> |words[i]| > 0
    ensures var j := JoinWithSpaces(words); |j| > 0 && j[0] == words[0][0] && j[|j| - 1] == words[|words| - 1][|words[|words| - 1]| - 1]
    decreases |words|
  {
    if |words| > 1 {
      JoinEnds(words[1..]);
    }
  }

  /** A word followed by nothing or by whitespace extends the first field of what follows. */
  lemma {:induction false} SplitWordThen(w: string, rest: string)
    requires |w| > 0 && HasNoWhitespace(w)
    requires |rest| == 0 || IsWhitespace(rest[0])
    ensures Split(w + rest) == [w + Split(rest)[0]] + Split(rest)[1..]
    decreases |w|
  {
    assert (w + rest)[0] == w[0];
    assert (w + rest)[1..] == w[1..] + rest;
    if |w| == 1 {
      assert w[1..] + rest == rest;
      assert [w[0]] == w;
    } else {
      SplitWordThen(w[1..], rest);
      assert [w[0]] + (w[1..] + Split(rest)[0]) == w + Split(rest)[0];
    }
  }

  /** `split(/\s+/)` takes apart what `join(' ')` puts together. */
  lemma {:induction false} SplitOfJoin(words: seq<string>)
    requires |words| > 0
    requires forall i :: 0 <= i < |words| ==> |words[i]| > 0 && HasNoWhitespace(words[i])
    ensures Split(JoinWithSpaces(words)) == words
    decreases |words|
  {
    if |words| == 1 {
      SplitWordThen(words[0], "");
      assert words[0] + "" == words[0];
    } else {
      var rest := words[1..];
      var tail := JoinWithSpaces(rest);
      assert JoinWithSpaces(words) == words[0] + (" " + tail);
      SplitOfJoin(rest);
      JoinStartsWord(rest);
      SplitWordSpaceJoin(words[0], tail, rest);
      assert [words[0]] + rest == words;
    }
  }

  /** A word, a space and a text that splits into `rest` split into the word followed by `rest`. */
  lemma SplitWordSpaceJoin(w: string, tail: string, rest: seq<string>)
    requires |w| > 0 && HasNoWhitespace(w)
    requires |tail| > 0 && !IsWhitespace(tail[0]) && Split(tail) == rest
    ensures Split(w + (" " + tail)) == [w] + rest
  {
    SplitAfterSpace(tail);
    SplitWordThen(w, " " + tail);
    FieldsAfterWord(w, rest, Split(" " + tail), Split(w + (" " + tail)));
  }

  /** A word glued to an empty first field becomes a field of its own. */
  lemma FieldsAfterWord(w: string, rest: seq<string>, gap: seq<string>, fields: seq<string>)
    requires gap == [""] + rest
    requires fields == [w + gap[0]] + gap[1..]
    ensures fields == [w] + rest
  {
    assert w + "" == w;
    assert gap[1..] == rest;
  }

  lemma JoinStartsWord(words: seq<string>)
    requires |words| > 0
    requires forall i :: 0 <= i < |words| ==> |words[i]| > 0 && HasNoWhitespace(words[i])
    ensures |JoinWithSpaces(words)| > 0 && !IsWhitespace(JoinWithSpaces(words)[0])
  {
    JoinEnds(words);
    assert HasNoWhitespace(words[0]) && |words[0]| > 0;
  }

  lemma SplitAfterSpace(tail: string)
    requires |tail| > 0 && !IsWhitespace(tail[0])
    ensures Split(" " + tail) == [""] + Split(tail)
  {
    var gap := " " + tail;
    assert gap[1..] == tail;
    assert TrimStart(gap) == TrimStart(tail) == tail;
  }

  /** Joining two non-empty lists puts one space between their joins. */
  lemma {:induction false} JoinAppend(a: seq<string>, b: seq<string>)
    requires |a| > 0 && |b| > 0
    ensures JoinWithSpaces(a + b) == JoinWithSpaces(a) + " " + JoinWithSpaces(b)
    decreases |a|
  {
    var ab := a + b;
    assert ab[0] == a[0];
    if |a| == 1 {
      assert ab[1..] == b;
    } else {
      assert ab[1..] == a[1..] + b;
      JoinAppend(a[1..], b);
    }
  }

  lemma {:induction false} RunStartsSkipWord(w: string, rest: string, b: bool)
    requires |w| > 0 && HasNoWhitespace(w)
    ensures RunStarts(w + rest, b) == (if b then 1 else 0) + RunStarts(rest, false)
    decreases |w|
  {
    assert (w + rest)[0] == w[0];
    assert (w + rest)[1..] == w[1..] + rest;
    if |w| > 1 {
      RunStartsSkipWord(w[1..], rest, false);
    }
  }

  /** Joining words with single spaces gives a text with exactly that many words. */
  lemma {:induction false} RunCountOfJoin(words: seq<string>)
    requires forall i :: 0 <= i < |words| ==> |words[i]| > 0 && HasNoWhitespace(words[i])
    ensures RunCount(JoinWithSpaces(words)) == |words|
    decreases |words|
  {
    if |words| == 1 {
      assert words[0] + "" == words[0];
      RunStartsSkipWord(words[0], "", true);
    } else if |words| > 1 {
      var rest := JoinWithSpaces(words[1..]);
      RunCountOfJoin(words[1..]);
      assert words[0] + " " + rest == words[0] + (" " + rest);
      RunStartsSkipWord(words[0], " " + rest, true);
      assert (" " + rest)[1..] == rest;
    }
  }

  predicate IsDigit(c: char) { 48 <= c as int <= 57 }

  /** The number written by a string of decimal digits, most significant first. */
  function DigitsValue(ds: string): nat
    requires forall i :: 0 <= i < |ds| ==> IsDigit(ds[i])
  {
    if |ds| == 0 then 0
    else
      assert IsDigit(ds[|ds| - 1]);
      DigitsValue(ds[..|ds| - 1]) * 10 + (ds[|ds| - 1] as int - 48)
  }

  /**
   * `parseInt(s, 10)`: skip leading whitespace, read an optional sign, then
   * the longest run of decimal digits; `None` stands for NaN (no digits).
   */
  function ParseInt(s: string): (r: Option<int>)
    ensures r.None? <==> PrefixLength(DropSign(TrimStart(s)), IsDigit) == 0
  {
    var t := TrimStart(s);
    var negative := |t| > 0 && t[0] == '-';
    var body := DropSign(t);
    var n := PrefixLength(body, IsDigit);
    if n == 0 then None
    else
      var magnitude: int := DigitsValue(body[..n]);
      Some(if negative then -magnitude else magnitude)
  }

  function DropSign(t: string): (r: string)
    ensures |t| > 0 && (t[0] == '-' || t[0] == '+') ==> r == t[1..]
    ensures !(|t| > 0 && (t[0] == '-' || t[0] == '+')) ==> r == t
  {
    if |t| > 0 && (t[0] == '-' || t[0] == '+') then t[1..] else t
  }

  /** Decimal rendering of a natural number, as the length fields hold it. */
  function Decimal(n: nat): (s: string)
    ensures |s| > 0 && forall i :: 0 <= i < |s| ==> IsDigit(s[i])
  {
    var digit := (48 + n % 10) as char;
    if n < 10 then [digit] else Decimal(n / 10) + [digit]
  }

  lemma {:induction false} DigitsValueOfDecimal(n: nat)
    ensures DigitsValue(Decimal(n)) == n
  {
    var s := Decimal(n);
    if n >= 10 {
      DigitsValueOfDecimal(n / 10);
      assert s[..|s| - 1] == Decimal(n / 10);
    }
  }

  /** `parseInt` reads back every decimal numeral. */
  lemma ParseIntOfDecimal(n: nat)
    ensures ParseInt(Decimal(n)) == Some(n)
  {
    var s := Decimal(n);
    DigitIsNotWhitespace(s[0]);
    assert TrimStart(s) == s;
    assert DropSign(s) == s;
    PrefixLengthOfDigits(s);
    assert s[..|s|] == s;
    DigitsValueOfDecimal(n);
  }

  /**
   * `parseInt` on any numeral a user might type: leading whitespace, an
   * optional sign, decimal digits (leading zeros allowed), then anything
   * that does not start with a digit, which is ignored.
   */
  lemma ParseIntOfNumeral(ws: string, sign: string, ds: string, rest: string)
    requires IsBlank(ws) && (sign == "" || sign == "+" || sign == "-")
    requires |ds| > 0 && forall i :: 0 <= i < |ds| ==> IsDigit(ds[i])
    requires rest == "" || !IsDigit(rest[0])
    ensures var v: int := DigitsValue(ds);
      ParseInt(ws + sign + ds + rest) == Some(if sign == "-" then -v else v)
  {
    var t := sign + (ds + rest);
    Regroup(ws, sign, ds, rest);
    NumeralStart(t, sign, ds + rest);
    TrimStartOfBlankThen(ws, t);
    ParseIntOfSigned(t, sign, ds, rest);
    ParseIntSkipsWhitespace(ws + t, t);
  }

  /** A numeral begins with its sign or its first digit, neither of them whitespace. */
  lemma NumeralStart(t: string, sign: string, body: string)
    requires t == sign + body && (sign == "" || sign == "+" || sign == "-")
    requires |body| > 0 && IsDigit(body[0])
    ensures |t| > 0 && !IsWhitespace(t[0]) && TrimStart(t) == t
  {
    DigitIsNotWhitespace(body[0]);
    assert t[0] == if sign == "" then body[0] else sign[0];
  }

  lemma Regroup(a: string, b: string, c: string, d: string)
    ensures a + b + c + d == a + (b + (c + d))
  {
  }

  /** `parseInt` reads past the whitespace that `trimStart` removes. */
  lemma ParseIntSkipsWhitespace(s: string, t: string)
    requires TrimStart(s) == TrimStart(t)
    ensures ParseInt(s) == ParseInt(t)
  {
  }

  /** A numeral without leading whitespace: the sign, then the digit run. */
  lemma ParseIntOfSigned(t: string, sign: string, ds: string, rest: string)
    requires t == sign + (ds + rest) && TrimStart(t) == t
    requires sign == "" || sign == "+" || sign == "-"
    requires |ds| > 0 && forall i :: 0 <= i < |ds| ==> IsDigit(ds[i])
    requires rest == "" || !IsDigit(rest[0])
    ensures var v: int := DigitsValue(ds);
      ParseInt(t) == Some(if sign == "-" then -v else v)
  {
    SignDropped(t, sign, ds + rest);
    DigitRun(ds, rest);
    ParseIntOfParts(t, ds + rest, ds, sign == "-");
  }

  /** `parseInt`'s result once the sign and the digit run are known. */
  lemma ParseIntOfParts(t: string, body: string, ds: string, negative: bool)
    requires TrimStart(t) == t && DropSign(t) == body
    requires negative <==> |t| > 0 && t[0] == '-'
    requires forall i :: 0 <= i < |ds| ==> IsDigit(ds[i])
    requires |ds| > 0 && PrefixLength(body, IsDigit) == |ds| && body[..|ds|] == ds
    ensures var v: int := DigitsValue(ds);
      ParseInt(t) == Some(if negative then -v else v)
  {
  }

  /** Reading the optional sign in front of a body that starts with a digit. */
  lemma SignDropped(t: string, sign: string, body: string)
    requires t == sign + body && (sign == "" || sign == "+" || sign == "-")
    requires |body| > 0 && IsDigit(body[0])
    ensures DropSign(t) == body
    ensures (|t| > 0 && t[0] == '-') <==> sign == "-"
  {
    DigitIsNotWhitespace(body[0]);
    if sign == "" {
      assert t == body;
    } else {
      assert t[0] == sign[0];
      assert t[1..] == body;
    }
  }

  /** The digit run of `ds + rest` is `ds` when `rest` does not start with a digit. */
  lemma DigitRun(ds: string, rest: string)
    requires forall i :: 0 <= i < |ds| ==> IsDigit(ds[i])
    requires rest == "" || !IsDigit(rest[0])
    ensures PrefixLength(ds + rest, IsDigit) == |ds| && (ds + rest)[..|ds|] == ds
  {
    PrefixLengthOfDigits(ds);
    PrefixLengthAppend(ds, rest, IsDigit);
    assert (ds + rest)[..|ds|] == ds;
  }

  /** `trimStart` removes a blank prefix in front of a non-whitespace character. */
  lemma {:induction false} TrimStartOfBlankThen(ws: string, x: string)
    requires IsBlank(ws) && |x| > 0 && !IsWhitespace(x[0])
    ensures TrimStart(ws + x) == x
    decreases |ws|
  {
    if |ws| == 0 {
      assert ws + x == x;
    } else {
      assert (ws + x)[0] == ws[0];
      assert (ws + x)[1..] == ws[1..] + x;
      TrimStartOfBlankThen(ws[1..], x);
    }
  }

  lemma DigitIsNotWhitespace(c: char)
    requires IsDigit(c)
    ensures !IsWhitespace(c) && c != '-' && c != '+'
  {
  }

  lemma {:induction false} PrefixLengthOfDigits(s: string)
    requires forall i :: 0 <= i < |s| ==> IsDigit(s[i])
    ensures PrefixLength(s, IsDigit) == |s|
    decreases |s|
  {
    if |s| > 0 {
      PrefixLengthOfDigits(s[1..]);
    }
  }

  /** `parseInt("")` is NaN: an empty bound imposes nothing. */
  lemma ParseIntOfEmpty()
    ensures ParseInt("") == None
  {
  }
}

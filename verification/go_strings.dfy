/**
 * The part of Go's `strings` package the generator relies on, over
 * `seq<char>`, a string being its sequence of Unicode code points. On valid
 * UTF-8 the byte-wise Go functions modelled here agree with these.
 * Separators passed to Split and ReplaceAll are never empty in the
 * generator, so those two require a non-empty separator.
 */
module GoStrings {
  import opened Wrappers

  /** `sub` occurs in `s` starting at position `j`. */
  predicate OccursAt(s: string, sub: string, j: int)
  {
    0 <= j && j + |sub| <= |s| && s[j..j + |sub|] == sub
  }

  /** The first occurrence of `sub` in `s` at or after position `k`. */
  function IndexFrom(s: string, sub: string, k: nat): (r: Option<nat>)
    ensures r.Some? ==> k <= r.value && OccursAt(s, sub, r.value)
    ensures r.Some? ==> forall j :: k <= j < r.value ==> !OccursAt(s, sub, j)
    ensures r.None? ==> forall j :: k <= j ==> !OccursAt(s, sub, j)
    decreases |s| - k
  {
    if k + |sub| > |s| then None
    else if s[k..k + |sub|] == sub then Some(k)
    else IndexFrom(s, sub, k + 1)
  }

  /** strings.Index: the position of the first occurrence, None for -1. */
  function Index(s: string, sub: string): (r: Option<nat>)
    ensures r.Some? ==> OccursAt(s, sub, r.value)
    ensures r.Some? ==> forall j :: 0 <= j < r.value ==> !OccursAt(s, sub, j)
    ensures r.None? <==> forall j :: !OccursAt(s, sub, j)
  {
    IndexFrom(s, sub, 0)
  }

  /** strings.Contains. */
  function Contains(s: string, sub: string): (b: bool)
    ensures b <==> exists j :: OccursAt(s, sub, j)
  {
    Index(s, sub).Some?
  }

  /** The first occurrence is unique: any occurrence with none before it is the one Index finds. */
  lemma IndexIs(s: string, sub: string, i: nat)
    requires OccursAt(s, sub, i)
    requires forall j :: 0 <= j < i ==> !OccursAt(s, sub, j)
    ensures Index(s, sub) == Some(i)
  {
  }

  lemma OccursInConcat(a: string, b: string, sub: string, j: int)
    ensures OccursAt(a, sub, j) ==> OccursAt(a + b, sub, j)
    ensures OccursAt(b, sub, j) ==> OccursAt(a + b, sub, |a| + j)
  {
    if OccursAt(a, sub, j) {
      assert (a + b)[j..j + |sub|] == a[j..j + |sub|];
    }
    if OccursAt(b, sub, j) {
      assert (a + b)[|a| + j..|a| + j + |sub|] == b[j..j + |sub|];
    }
  }

  /** A string built around `sub` contains it. */
  lemma ContainsInfix(a: string, sub: string, b: string)
    ensures Contains(a + sub + b, sub)
  {
    assert (a + sub + b)[|a|..|a| + |sub|] == sub;
    assert OccursAt(a + sub + b, sub, |a|);
  }

  /** Shifting past a first character that does not start an occurrence. */
  lemma OccursShift(s: string, sub: string)
    requires |s| >= 1
    ensures forall j :: 0 <= j ==> (OccursAt(s[1..], sub, j) <==> OccursAt(s, sub, j + 1))
  {
    forall j | 0 <= j
      ensures OccursAt(s[1..], sub, j) <==> OccursAt(s, sub, j + 1)
    {
      if 0 <= j && j + |sub| <= |s| - 1 {
        assert s[1..][j..j + |sub|] == s[j + 1..j + 1 + |sub|];
      }
    }
  }

  lemma IndexTail(s: string, sub: string)
    requires |s| >= 1 && !OccursAt(s, sub, 0)
    ensures Index(s, sub).None? ==> Index(s[1..], sub).None?
    ensures Index(s, sub).Some? ==>
              Index(s, sub).value >= 1 && Index(s[1..], sub) == Some(Index(s, sub).value - 1)
  {
    OccursShift(s, sub);
    match Index(s, sub)
    case None =>
      forall j ensures !OccursAt(s[1..], sub, j) {
        assert !OccursAt(s, sub, j + 1);
      }
    case Some(i) =>
      assert i >= 1;
      forall j | 0 <= j < i - 1 ensures !OccursAt(s[1..], sub, j) {
        assert !OccursAt(s, sub, j + 1);
      }
      IndexIs(s[1..], sub, i - 1);
  }

  /** The text before the first occurrence of `sep`, or all of `s` when there is none. */
  function Before(s: string, sep: string): (r: string)
    requires |sep| > 0
    ensures |r| <= |s| && r == s[..|r|]
    ensures !Contains(r, sep)
    ensures forall j :: 0 <= j < |r| ==> !OccursAt(s, sep, j)
    ensures Contains(s, sep) ==> OccursAt(s, sep, |r|)
    ensures !Contains(s, sep) ==> r == s
  {
    match Index(s, sep)
    case None => s
    case Some(i) =>
      var r := s[..i];
      assert !Contains(r, sep) by {
        forall j | OccursAt(r, sep, j) ensures false {
          assert s[j..j + |sep|] == r[j..j + |sep|];
          assert OccursAt(s, sep, j);
        }
      }
      r
  }

  /** The text after the first occurrence of `sep`. */
  function After(s: string, sep: string): (r: string)
    requires |sep| > 0 && Contains(s, sep)
    ensures s == Before(s, sep) + sep + r
  {
    var i := Index(s, sep).value;
    assert s == s[..i] + s[i..i + |sep|] + s[i + |sep|..];
    s[i + |sep|..]
  }

  /** No occurrence of `sep` starts inside the text before the first one. */
  lemma BeforeIsLeftmost(s: string, sep: string)
    requires |sep| > 0 && Contains(s, sep)
    ensures !Contains(Before(s, sep) + sep[..|sep| - 1], sep)
  {
    var b := Before(s, sep);
    var t := b + sep[..|sep| - 1];
    assert s == b + sep + After(s, sep);
    forall j | OccursAt(t, sep, j)
      ensures false
    {
      assert t == s[..|t|];
      assert s[j..j + |sep|] == t[j..j + |sep|];
      assert OccursAt(s, sep, j);
    }
  }

  /** strings.HasSuffix (strings.HasPrefix is Dafny's `<=` on sequences). */
  predicate HasSuffix(s: string, suffix: string)
  {
    |suffix| <= |s| && s[|s| - |suffix|..] == suffix
  }

  /** strings.Join. */
  function Join(parts: seq<string>, sep: string): string
  {
    if |parts| == 0 then ""
    else if |parts| == 1 then parts[0]
    else parts[0] + sep + Join(parts[1..], sep)
  }

  /**
   * strings.Split with a non-empty separator: the pieces between
   * successive occurrences of `sep`. Joining them back with `sep` gives
   * `s` again, and no piece contains `sep`. Each separator taken is the
   * leftmost one: no occurrence starts inside the piece before it.
   */
  function Split(s: string, sep: string): (r: seq<string>)
    requires |sep| > 0
    ensures |r| >= 1 && r[0] == Before(s, sep)
    ensures |r| >= 2 <==> Contains(s, sep)
    ensures forall k :: 0 <= k < |r| ==> !Contains(r[k], sep)
    ensures forall k :: 0 <= k < |r| - 1 ==> !Contains(r[k] + sep[..|sep| - 1], sep)
    ensures Join(r, sep) == s
    decreases |s|
  {
    if Contains(s, sep) then
      BeforeIsLeftmost(s, sep);
      var rest := Split(After(s, sep), sep);
      var r := [Before(s, sep)] + rest;
      assert r[1..] == rest;
      r
    else [s]
  }

  /** Go's `strings.Split(s, sep)[1]`: the text between the first and the second occurrence. */
  lemma SplitSecond(s: string, sep: string)
    requires |sep| > 0 && Contains(s, sep)
    ensures |Split(s, sep)| >= 2 && Split(s, sep)[1] == Before(After(s, sep), sep)
  {
  }

  lemma JoinPrependHead(c: string, parts: seq<string>, sep: string)
    requires |parts| >= 1
    ensures Join([c + parts[0]] + parts[1..], sep) == c + Join(parts, sep)
  {
    var q := [c + parts[0]] + parts[1..];
    if |parts| >= 2 {
      assert q[1..] == parts[1..];
    }
  }

  /** Splitting a string whose first character starts no occurrence. */
  lemma SplitCons(s: string, sep: string)
    requires |sep| > 0 && |s| >= 1 && !OccursAt(s, sep, 0)
    ensures Split(s, sep) == [[s[0]] + Split(s[1..], sep)[0]] + Split(s[1..], sep)[1..]
  {
    IndexTail(s, sep);
    var t := s[1..];
    assert s == [s[0]] + t;
    if Contains(s, sep) {
      var i := Index(s, sep).value;
      assert Before(s, sep) == s[..i];
      assert Before(t, sep) == t[..i - 1];
      assert s[..i] == [s[0]] + t[..i - 1];
      assert After(s, sep) == s[i + |sep|..];
      assert After(t, sep) == t[i - 1 + |sep|..];
      assert s[i + |sep|..] == t[i - 1 + |sep|..];
    } else {
      assert !Contains(t, sep);
    }
  }

  /**
   * strings.Replace(s, old, new, -1): every non-overlapping occurrence of
   * `pat`, scanning from the left, is replaced by `rep`. Its reference
   * definition is Join(Split(s, pat), rep).
   */
  function ReplaceAll(s: string, pat: string, rep: string): (r: string)
    requires |pat| > 0
    ensures r == Join(Split(s, pat), rep)
    decreases |s|
  {
    if |s| < |pat| then
      assert !Contains(s, pat);
      s
    else if s[..|pat|] == pat then
      assert OccursAt(s, pat, 0);
      IndexIs(s, pat, 0);
      assert After(s, pat) == s[|pat|..];
      rep + ReplaceAll(s[|pat|..], pat, rep)
    else
      SplitCons(s, pat);
      JoinPrependHead([s[0]], Split(s[1..], pat), rep);
      [s[0]] + ReplaceAll(s[1..], pat, rep)
  }

  /** strings.TrimRightFunc: drops the longest suffix whose characters all satisfy `f`. */
  function TrimRightFunc(s: string, f: char -> bool): (r: string)
    ensures |r| <= |s|
    ensures |r| == 0 || !f(r[|r| - 1])
    ensures forall k :: |r| <= k < |s| ==> f(s[k])
    decreases |s|
  {
    if |s| == 0 || !f(s[|s| - 1]) then s else TrimRightFunc(s[..|s| - 1], f)
  }

  /** strings.TrimLeftFunc: drops the longest prefix whose characters all satisfy `f`. */
  function TrimLeftFunc(s: string, f: char -> bool): (r: string)
    ensures |r| <= |s|
    ensures |r| == 0 || !f(r[0])
    ensures forall k :: 0 <= k < |s| - |r| ==> f(s[k])
    decreases |s|
  {
    if |s| == 0 || !f(s[0]) then s else TrimLeftFunc(s[1..], f)
  }

  /** What TrimRightFunc keeps is a prefix of its input. */
  lemma {:induction false} TrimRightFuncPrefix(s: string, f: char -> bool)
    ensures TrimRightFunc(s, f) == s[..|TrimRightFunc(s, f)|]
    decreases |s|
  {
    if |s| > 0 && f(s[|s| - 1]) {
      var t := s[..|s| - 1];
      TrimRightFuncPrefix(t, f);
      assert t[..|TrimRightFunc(t, f)|] == s[..|TrimRightFunc(t, f)|];
    }
  }

  /** What TrimLeftFunc keeps is a suffix of its input. */
  lemma {:induction false} TrimLeftFuncSuffix(s: string, f: char -> bool)
    ensures TrimLeftFunc(s, f) == s[|s| - |TrimLeftFunc(s, f)|..]
    decreases |s|
  {
    if |s| > 0 && f(s[0]) {
      var t := s[1..];
      TrimLeftFuncSuffix(t, f);
      assert t[|t| - |TrimLeftFunc(t, f)|..] == s[|s| - |TrimLeftFunc(t, f)|..];
    }
  }

  /** Trimming keeps any prefix whose last character `f` rejects. */
  lemma TrimRightFuncKeeps(s: string, f: char -> bool, p: string)
    requires |p| >= 1 && p <= s && !f(p[|p| - 1])
    ensures p <= TrimRightFunc(s, f)
  {
    TrimRightFuncPrefix(s, f);
    assert s[|p| - 1] == p[|p| - 1];
  }

  /** strings.TrimRight with a cutset: the input less its longest suffix of cutset characters. */
  function TrimRight(s: string, cutset: string): (r: string)
    ensures |r| <= |s| && r == s[..|r|]
    ensures |r| == 0 || r[|r| - 1] !in cutset
    ensures forall k :: |r| <= k < |s| ==> s[k] in cutset
  {
    TrimRightFuncPrefix(s, c => c in cutset);
    TrimRightFunc(s, c => c in cutset)
  }

  /** A prefix ending outside the cutset survives TrimRight. */
  lemma TrimRightKeeps(s: string, cutset: string, p: string)
    requires |p| >= 1 && p <= s && p[|p| - 1] !in cutset
    ensures p <= TrimRight(s, cutset)
  {
    TrimRightFuncKeeps(s, c => c in cutset, p);
  }

  /** Trimming both ends leaves an infix, starting where the left trim stopped. */
  lemma TrimFuncCore(s: string, f: char -> bool)
    ensures var l := TrimLeftFunc(s, f);
            var r := TrimRightFunc(l, f);
            var i := |s| - |l|;
            && r == l[..|r|]
            && 0 <= i <= |s| && r <= s[i..]
            && (forall k :: 0 <= k < i ==> f(s[k]))
            && (forall k :: i + |r| <= k < |s| ==> f(s[k]))
  {
    var l := TrimLeftFunc(s, f);
    var r := TrimRightFunc(l, f);
    var i := |s| - |l|;
    assert l == s[i..] by { TrimLeftFuncSuffix(s, f); }
    assert r == l[..|r|] by { TrimRightFuncPrefix(l, f); }
    forall k | i + |r| <= k < |s|
      ensures f(s[k])
    {
      assert s[k] == l[k - i];
    }
  }

  /**
   * strings.TrimFunc: drops the longest prefix and the longest suffix whose
   * characters satisfy `f`. What remains is an infix of `s` whose ends fail
   * `f`, and every character around it satisfies `f`.
   */
  function TrimFunc(s: string, f: char -> bool): (r: string)
    ensures |r| <= |s|
    ensures |r| == 0 || (!f(r[0]) && !f(r[|r| - 1]))
    ensures exists i :: 0 <= i <= |s| && r <= s[i..]
                        && (forall k :: 0 <= k < i ==> f(s[k]))
                        && (forall k :: i + |r| <= k < |s| ==> f(s[k]))
  {
    TrimFuncCore(s, f);
    TrimRightFunc(TrimLeftFunc(s, f), f)
  }

  /** strings.Trim with a cutset: both ends. */
  function Trim(s: string, cutset: string): (r: string)
    ensures |r| <= |s|
    ensures |r| == 0 || (r[0] !in cutset && r[|r| - 1] !in cutset)
    ensures exists i :: 0 <= i <= |s| && r <= s[i..]
                        && (forall k :: 0 <= k < i ==> s[k] in cutset)
                        && (forall k :: i + |r| <= k < |s| ==> s[k] in cutset)
  {
    TrimFunc(s, c => c in cutset)
  }

  /** unicode.IsSpace: the Latin-1 spaces and the other White_Space code points. */
  predicate IsSpace(c: char)
  {
    c == ' ' || c == '\t' || c == '\n' || c == '\r' || c == '\U{000B}' || c == '\U{000C}'
    || c == '\U{0085}' || c == '\U{00A0}' || c == '\U{1680}' || '\U{2000}' <= c <= '\U{200A}'
    || c == '\U{2028}' || c == '\U{2029}' || c == '\U{202F}' || c == '\U{205F}' || c == '\U{3000}'
  }

  /** strings.TrimSpace: TrimFunc with unicode.IsSpace. */
  function TrimSpace(s: string): (r: string)
    ensures |r| <= |s|
    ensures |r| == 0 || (!IsSpace(r[0]) && !IsSpace(r[|r| - 1]))
    ensures exists i :: 0 <= i <= |s| && r <= s[i..]
                        && (forall k :: 0 <= k < i ==> IsSpace(s[k]))
                        && (forall k :: i + |r| <= k < |s| ==> IsSpace(s[k]))
  {
    TrimFunc(s, IsSpace)
  }

  /** Removing trailing quotes from a string that gained exactly one. */
  lemma TrimRightOneQuote(x: string)
    requires |x| >= 1 && x[|x| - 1] != '"'
    ensures TrimRight(x + "\"", "\"") == x
  {
    var s := x + "\"";
    TrimRightFuncPrefix(s, c => c in "\"");
    assert s[|x| - 1] == x[|x| - 1];
  }
}

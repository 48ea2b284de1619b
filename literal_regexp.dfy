/** The regular expressions the build helpers construct. Each is a
    `|`-union whose alternatives are literal text, except that the nested
    plugin pattern also uses the class-star `([^/]*)`. A pattern is kept as
    the list of its top-level alternatives, i.e. its source text split at
    `|`; so the empty source `''` is the single empty alternative, which
    matches at every position. Every pattern here carries the `i` flag, so
    literal text is compared after case folding. Names are interpolated
    unescaped in the source; they are taken to hold no RegExp
    metacharacters, which makes each piece of them literal text. */
module LiteralRegExp {
  import opened JsRuntime

  /** Literal text, or `([^/]*)`: any run of characters other than `/`. */
  datatype Atom = Lit(text: string) | Segment

  type Alternative = seq<Atom>

  /** The alternatives of `a0|a1|...`, in source order. */
  type Pattern = seq<Alternative>

  /** `new RegExp('')`. */
  const EmptySource: Pattern := [[]]

  /** A pattern whose source is the literal text `t`. */
  function Literal(t: string): Pattern
  {
    [[Lit(t)]]
  }

  /** The source `x + '|' + y`. */
  function Or(x: Pattern, y: Pattern): Pattern
  {
    x + y
  }

  function Concat(parts: seq<Pattern>): Pattern
  {
    if parts == [] then [] else parts[0] + Concat(parts[1..])
  }

  /** The source `parts.join('|')`: the empty list joins to `''`. */
  function Join(parts: seq<Pattern>): Pattern
  {
    if parts == [] then EmptySource else Concat(parts)
  }

  /** Literal text `t` occurs at index `i` of `s`, ignoring case. */
  predicate LitAt(s: string, i: nat, t: string)
  {
    i + |t| <= |s| && ToLower(s[i..i + |t|]) == ToLower(t)
  }

  /** Case-insensitive substring occurrence. */
  ghost predicate ContainsCI(s: string, t: string)
  {
    exists i :: 0 <= i <= |s| && LitAt(s, i, t)
  }

  /** No `/` in `s[j..k]`. */
  ghost predicate SlashFree(s: string, j: nat, k: nat)
    requires j <= k <= |s|
  {
    forall m :: j <= m < k ==> s[m] != '/'
  }

  /** Whether alternative `alt` matches `s` starting at index `i`. */
  predicate MatchAt(s: string, i: nat, alt: Alternative)
    requires i <= |s|
    decreases |alt|, 1, 0
  {
    if alt == [] then true
    else match alt[0]
      case Lit(t) => LitAt(s, i, t) && MatchAt(s, i + |t|, alt[1..])
      case Segment => SegmentThen(s, i, alt[1..])
  }

  /** A run of non-`/` characters starting at `j`, then `rest`. */
  predicate SegmentThen(s: string, j: nat, rest: Alternative)
    requires j <= |s|
    decreases |rest| + 1, 0, |s| - j
  {
    MatchAt(s, j, rest) || (j < |s| && s[j] != '/' && SegmentThen(s, j + 1, rest))
  }

  /** The class-star consumes exactly the slash-free runs. */
  lemma {:induction false} SegmentThenMeaning(s: string, j: nat, rest: Alternative)
    requires j <= |s|
    ensures SegmentThen(s, j, rest) <==>
      exists k :: j <= k <= |s| && SlashFree(s, j, k) && MatchAt(s, k, rest)
    decreases |s| - j
  {
    if MatchAt(s, j, rest) {
      assert SlashFree(s, j, j);
    } else if j < |s| && s[j] != '/' {
      SegmentThenMeaning(s, j + 1, rest);
      if SegmentThen(s, j, rest) {
        var k :| j + 1 <= k <= |s| && SlashFree(s, j + 1, k) && MatchAt(s, k, rest);
        assert SlashFree(s, j, k);
      }
    } else {
      forall k | j <= k <= |s| && SlashFree(s, j, k)
        ensures !MatchAt(s, k, rest)
      {
        assert k == j;
      }
    }
  }

  /** Some alternative of `p` matches at index `i`. */
  predicate AnyMatchAt(s: string, i: nat, p: Pattern)
    requires i <= |s|
  {
    exists k :: 0 <= k < |p| && MatchAt(s, i, p[k])
  }

  /** `s.search(p)`: the first index at which `p` matches, or -1. */
  function Search(s: string, p: Pattern): (r: int)
    ensures -1 <= r <= |s|
    ensures r == -1 <==> forall i :: 0 <= i <= |s| ==> !AnyMatchAt(s, i, p)
    ensures 0 <= r ==> AnyMatchAt(s, r, p) && forall i :: 0 <= i < r ==> !AnyMatchAt(s, i, p)
  {
    SearchFrom(s, p, 0)
  }

  function SearchFrom(s: string, p: Pattern, from: nat): (r: int)
    requires from <= |s|
    ensures r == -1 || from <= r <= |s|
    ensures r == -1 <==> forall i :: from <= i <= |s| ==> !AnyMatchAt(s, i, p)
    ensures 0 <= r ==> AnyMatchAt(s, r, p) && forall i :: from <= i < r ==> !AnyMatchAt(s, i, p)
    decreases |s| - from
  {
    if AnyMatchAt(s, from, p) then from
    else if from == |s| then -1
    else SearchFrom(s, p, from + 1)
  }

  /** `s.search(p) !== -1`, which is also what `!!s.match(p)` tests. */
  predicate Matches(s: string, p: Pattern)
  {
    Search(s, p) != -1
  }

  /** Some alternative of `p` matches somewhere in `s`. */
  ghost predicate Found(s: string, p: Pattern)
  {
    exists i :: 0 <= i <= |s| && AnyMatchAt(s, i, p)
  }

  lemma MatchesIsFound(s: string, p: Pattern)
    ensures Matches(s, p) <==> Found(s, p)
  {
  }

  lemma {:induction false} FoundOr(s: string, x: Pattern, y: Pattern)
    ensures Found(s, Or(x, y)) <==> Found(s, x) || Found(s, y)
  {
    forall i | 0 <= i <= |s|
      ensures AnyMatchAt(s, i, x + y) <==> AnyMatchAt(s, i, x) || AnyMatchAt(s, i, y)
    {
      if AnyMatchAt(s, i, x + y) {
        var k :| 0 <= k < |x + y| && MatchAt(s, i, (x + y)[k]);
        if k >= |x| {
          assert MatchAt(s, i, y[k - |x|]);
        }
      }
      if AnyMatchAt(s, i, y) {
        var k :| 0 <= k < |y| && MatchAt(s, i, y[k]);
        assert (x + y)[|x| + k] == y[k];
      }
      if AnyMatchAt(s, i, x) {
        var k :| 0 <= k < |x| && MatchAt(s, i, x[k]);
        assert (x + y)[k] == x[k];
      }
    }
  }

  /** The empty source matches every string, at index 0. */
  lemma FoundEmptySource(s: string)
    ensures Found(s, EmptySource)
  {
    assert MatchAt(s, 0, EmptySource[0]);
    assert AnyMatchAt(s, 0, EmptySource);
  }

  lemma {:induction false} FoundConcat(s: string, parts: seq<Pattern>)
    ensures Found(s, Concat(parts)) <==> exists k :: 0 <= k < |parts| && Found(s, parts[k])
  {
    if parts != [] {
      FoundConcat(s, parts[1..]);
      FoundOr(s, parts[0], Concat(parts[1..]));
      if exists k :: 0 <= k < |parts| && Found(s, parts[k]) {
        var k :| 0 <= k < |parts| && Found(s, parts[k]);
        if k > 0 {
          assert parts[1..][k - 1] == parts[k];
        }
      }
    } else {
      assert Concat(parts) == [];
    }
  }

  /** A joined pattern matches when one of the joined patterns does, and
      the join of no patterns matches everything. */
  lemma FoundJoin(s: string, parts: seq<Pattern>)
    ensures Found(s, Join(parts)) <==> parts == [] || exists k :: 0 <= k < |parts| && Found(s, parts[k])
  {
    if parts == [] {
      FoundEmptySource(s);
    } else {
      FoundConcat(s, parts);
    }
  }

  /** A literal pattern matches exactly where its text occurs. */
  lemma FoundLiteral(s: string, t: string)
    ensures Found(s, Literal(t)) <==> ContainsCI(s, t)
  {
    if ContainsCI(s, t) {
      var i :| 0 <= i <= |s| && LitAt(s, i, t);
      assert [Lit(t)][1..] == [];
      assert MatchAt(s, i, Literal(t)[0]);
      assert AnyMatchAt(s, i, Literal(t));
    }
    if Found(s, Literal(t)) {
      var i :| 0 <= i <= |s| && AnyMatchAt(s, i, Literal(t));
      var k :| 0 <= k < |Literal(t)| && MatchAt(s, i, Literal(t)[k]);
      assert Literal(t)[k] == [Lit(t)];
      assert LitAt(s, i, t);
    }
  }

  /** One literal pattern per text. */
  function Literals(ts: seq<string>): (r: seq<Pattern>)
    ensures |r| == |ts|
    ensures forall k :: 0 <= k < |ts| ==> r[k] == Literal(ts[k])
  {
    if ts == [] then [] else [Literal(ts[0])] + Literals(ts[1..])
  }

  /** `ts.join('|')` as a pattern matches exactly where one of the texts
      occurs, and everywhere when there are none. */
  lemma FoundJoinLiterals(s: string, ts: seq<string>)
    ensures Found(s, Join(Literals(ts))) <==> ts == [] || exists k :: 0 <= k < |ts| && ContainsCI(s, ts[k])
  {
    FoundJoin(s, Literals(ts));
    forall k | 0 <= k < |ts|
      ensures Found(s, Literals(ts)[k]) <==> ContainsCI(s, ts[k])
    {
      FoundLiteral(s, ts[k]);
    }
  }
}

/** The small part of the JavaScript runtime the build scripts rely on:
    optional values, thrown errors, and the string operations they call
    (`replace(/\\/g, '/')`, `toLowerCase`, `substr`, and `<` on strings). */
module JsRuntime {

  /** A setting that may be absent (`undefined`). */
  datatype Option<+T> = None | Some(value: T)

  /** A returned value, or the error the call throws. */
  datatype Result<+T> = Ok(value: T) | Err(error: string)

  /** `x || []` for a setting whose value is an array. */
  function OrEmpty<T>(x: Option<seq<T>>): seq<T>
  {
    if x.Some? then x.value else []
  }

  /** `s.replace(/\\/g, '/')`: every backslash becomes a forward slash. */
  function ConvertSlashes(s: string): (r: string)
    ensures |r| == |s|
    ensures forall i :: 0 <= i < |s| ==> r[i] == (if s[i] == '\\' then '/' else s[i])
    ensures '\\' !in r
  {
    if s == [] then [] else [if s[0] == '\\' then '/' else s[0]] + ConvertSlashes(s[1..])
  }

  /** A path without backslashes is left as it is. */
  lemma ConvertSlashesUnchanged(s: string)
    requires '\\' !in s
    ensures ConvertSlashes(s) == s
  {
  }

  /** Converting twice is converting once. */
  lemma ConvertSlashesIdempotent(s: string)
    ensures ConvertSlashes(ConvertSlashes(s)) == ConvertSlashes(s)
  {
  }

  /** Case folding of one character, as the `i` flag of a RegExp and
      `toLowerCase` do it on ASCII letters. */
  function LowerChar(c: char): (r: char)
    ensures 'A' <= c <= 'Z' ==> r as int == c as int + 32
    ensures !('A' <= c <= 'Z') ==> r == c
  {
    if 'A' <= c <= 'Z' then (c as int + 32) as char else c
  }

  /** `s.toLowerCase()` on ASCII letters. */
  function ToLower(s: string): (r: string)
    ensures |r| == |s|
    ensures forall i :: 0 <= i < |s| ==> r[i] == LowerChar(s[i])
  {
    if s == [] then [] else [LowerChar(s[0])] + ToLower(s[1..])
  }

  /** `s.substr(start)` for a non-negative start: the tail from `start`,
      or the empty string when `start` is past the end. */
  function Substr(s: string, start: nat): (r: string)
    ensures start <= |s| ==> s == s[..start] + r
    ensures |s| <= start ==> r == ""
  {
    if start >= |s| then "" else s[start..]
  }

  /** JavaScript `a < b` on strings: lexicographic order by character,
      a proper prefix coming first. */
  predicate LexLess(a: string, b: string)
  {
    if a == [] then b != []
    else if b == [] then false
    else if a[0] != b[0] then a[0] < b[0]
    else LexLess(a[1..], b[1..])
  }

  lemma {:induction false} LexLessIrreflexive(a: string)
    ensures !LexLess(a, a)
  {
    if a != [] {
      LexLessIrreflexive(a[1..]);
    }
  }

  lemma {:induction false} LexLessAsymmetric(a: string, b: string)
    ensures !(LexLess(a, b) && LexLess(b, a))
  {
    if a != [] && b != [] && a[0] == b[0] {
      LexLessAsymmetric(a[1..], b[1..]);
    }
  }

  /** Two different strings are always ordered one way or the other. */
  lemma {:induction false} LexLessTotal(a: string, b: string)
    ensures a == b || LexLess(a, b) || LexLess(b, a)
  {
    if a != [] && b != [] && a[0] == b[0] {
      LexLessTotal(a[1..], b[1..]);
      if a[1..] == b[1..] {
        assert a == [a[0]] + a[1..] && b == [b[0]] + b[1..];
      }
    }
  }

  /** A shared prefix does not change the order. */
  lemma {:induction false} LexLessCommonPrefix(p: string, a: string, b: string)
    ensures LexLess(p + a, p + b) == LexLess(a, b)
  {
    if p != [] {
      assert (p + a)[0] == p[0] == (p + b)[0];
      assert (p + a)[1..] == p[1..] + a;
      assert (p + b)[1..] == p[1..] + b;
      LexLessCommonPrefix(p[1..], a, b);
    } else {
      assert p + a == a && p + b == b;
    }
  }

  /** The order of two strings is decided at the first index where they
      differ, whatever follows it. */
  lemma {:induction false} LexLessAtDifference(a: string, b: string, x: string, y: string, k: nat)
    requires k < |a| && k < |b| && a[..k] == b[..k] && a[k] != b[k]
    ensures LexLess(a + x, b + y) == LexLess(a, b) == (a[k] < b[k])
  {
    if k > 0 {
      assert (a + x)[1..] == a[1..] + x;
      assert (b + y)[1..] == b[1..] + y;
      assert a[1..][..k - 1] == a[..k][1..] == b[..k][1..] == b[1..][..k - 1];
      LexLessAtDifference(a[1..], b[1..], x, y, k - 1);
    }
  }

  /** A proper prefix comes first. */
  lemma {:induction false} LexLessProperPrefix(a: string, b: string)
    requires a <= b && a != b
    ensures LexLess(a, b)
  {
    if a != [] {
      LexLessProperPrefix(a[1..], b[1..]);
    }
  }

  /** Two strings neither of which starts the other differ at some index
      both reach, after a common stretch. */
  lemma {:induction false} FirstDifference(a: string, b: string) returns (k: nat)
    requires !(a <= b) && !(b <= a)
    ensures k < |a| && k < |b| && a[..k] == b[..k] && a[k] != b[k]
  {
    if a[0] != b[0] {
      k := 0;
    } else {
      var j := FirstDifference(a[1..], b[1..]);
      k := j + 1;
      assert a[..k] == [a[0]] + a[1..][..j];
      assert b[..k] == [b[0]] + b[1..][..j];
    }
  }
}

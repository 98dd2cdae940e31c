/** JavaScript and MongoDB value semantics that the controllers rely on:
    optional request fields, truthiness, `a || b`, `String.prototype.trim`,
    `toLowerCase`, `replace` with a string pattern, and "first matching
    document" lookups over a collection kept in natural (insertion) order. */
module Js {

  datatype Option<+T> = None | Some(value: T)

  /** Record identifiers (Mongo ObjectIds); the source only compares them for equality. */
  type Id = nat

  /** `!!v` for a string-valued request field: present and not the empty string. */
  predicate Truthy(v: Option<string>) {
    v.Some? && v.value != ""
  }

  /** Mongoose's `required` validator on a String path: set and not the empty string. */
  predicate RequiredString(v: Option<string>) {
    Truthy(v)
  }

  /** JavaScript `a || b` on two optional strings. */
  function Or(a: Option<string>, b: Option<string>): (r: Option<string>)
    ensures Truthy(r) <==> Truthy(a) || Truthy(b)
    ensures Truthy(a) ==> r == a
  {
    if Truthy(a) then a else b
  }

  // ---------------------------------------------------------------------------
  // Whitespace and String.prototype.trim

  /** ECMAScript WhiteSpace and LineTerminator code points (what `trim` removes). */
  predicate IsSpace(c: char) {
    c == ' ' || c == '\t' || c == '\n' || c == '\r' || c == '\U{B}' || c == '\U{C}'
    || c == '\U{A0}' || c == '\U{FEFF}' || c == '\U{1680}' || ('\U{2000}' <= c <= '\U{200A}')
    || c == '\U{2028}' || c == '\U{2029}' || c == '\U{202F}' || c == '\U{205F}' || c == '\U{3000}'
  }

  /** Drops leading whitespace: the result is the suffix of `s` that starts at its first
      non-whitespace character. */
  function TrimStart(s: string): (r: string)
    ensures |r| <= |s| && r == s[|s| - |r|..]
    ensures r == [] || !IsSpace(r[0])
    ensures forall k :: 0 <= k < |s| - |r| ==> IsSpace(s[k])
  {
    if |s| > 0 && IsSpace(s[0]) then TrimStart(s[1..]) else s
  }

  /** Drops trailing whitespace: the result is the prefix of `s` that ends at its last
      non-whitespace character. */
  function TrimEnd(s: string): (r: string)
    ensures |r| <= |s| && r == s[..|r|]
    ensures r == [] || !IsSpace(r[|r| - 1])
    ensures forall k :: |r| <= k < |s| ==> IsSpace(s[k])
  {
    if |s| > 0 && IsSpace(s[|s| - 1]) then TrimEnd(s[..|s| - 1]) else s
  }

  /** `s.trim()` */
  function Trim(s: string): string {
    TrimEnd(TrimStart(s))
  }

  /** A prefix `r` of a suffix `t` of `s`, cut only at whitespace, is the infix of `s` at
      `|s| - |t|`, with whitespace on both sides of it. */
  lemma InfixCutAtSpace(s: string, t: string, r: string)
    requires |t| <= |s| && t == s[|s| - |t|..] && forall k :: 0 <= k < |s| - |t| ==> IsSpace(s[k])
    requires |r| <= |t| && r == t[..|r|] && forall k :: |r| <= k < |t| ==> IsSpace(t[k])
    ensures forall k :: 0 <= k < |r| ==> r[k] == s[|s| - |t| + k]
    ensures forall k :: |s| - |t| + |r| <= k < |s| ==> IsSpace(s[k])
  {
    var i := |s| - |t|;
    forall k | 0 <= k < |r| ensures r[k] == s[i + k] {
      assert r[k] == t[k];
    }
    forall k | i + |r| <= k < |s| ensures IsSpace(s[k]) {
      assert s[k] == t[k - i];
    }
  }

  /** Trim keeps the contiguous infix of its input that starts at `i`, cut only at
      whitespace, and leaves no whitespace at either end. */
  lemma {:induction false} TrimIsInfix(s: string) returns (i: nat)
    ensures i + |Trim(s)| <= |s|
    ensures forall k :: 0 <= k < |Trim(s)| ==> Trim(s)[k] == s[i + k]
    ensures forall k :: 0 <= k < i ==> IsSpace(s[k])
    ensures forall k :: i + |Trim(s)| <= k < |s| ==> IsSpace(s[k])
    ensures Trim(s) == [] || (!IsSpace(Trim(s)[0]) && !IsSpace(Trim(s)[|Trim(s)| - 1]))
  {
    var t := TrimStart(s);
    var r := TrimEnd(t);
    i := |s| - |t|;
    InfixCutAtSpace(s, t, r);
    if r != [] {
      assert r[0] == t[0];
    }
  }

  /** No whitespace at either end: what `trim` leaves. */
  predicate Unpadded(s: string) {
    s == [] || (!IsSpace(s[0]) && !IsSpace(s[|s| - 1]))
  }

  /** Trimmed text is unpadded, and unpadded text is its own trim. */
  lemma TrimUnpadded(s: string)
    ensures Unpadded(Trim(s))
    ensures Unpadded(s) ==> Trim(s) == s
  {
    var _ := TrimIsInfix(s);
    if Unpadded(s) {
      assert TrimStart(s) == s;
    }
  }

  /** Trimming twice is trimming once. */
  lemma TrimIdempotent(s: string)
    ensures Trim(Trim(s)) == Trim(s)
  {
    var r := Trim(s);
    var _ := TrimIsInfix(s);
    assert TrimStart(r) == r;
    assert TrimEnd(r) == r;
  }

  // ---------------------------------------------------------------------------
  // String.prototype.toLowerCase (ASCII letters)

  function LowerChar(c: char): char {
    if 'A' <= c <= 'Z' then (c as int + 32) as char else c
  }

  /** `s.toLowerCase()` on the ASCII letters. */
  function ToLower(s: string): (r: string)
    ensures |r| == |s| && forall k :: 0 <= k < |s| ==> r[k] == LowerChar(s[k])
  {
    if s == [] then [] else [LowerChar(s[0])] + ToLower(s[1..])
  }

  predicate IsLower(s: string) {
    forall k :: 0 <= k < |s| ==> LowerChar(s[k]) == s[k]
  }

  lemma {:induction false} LowerOfLower(s: string)
    requires IsLower(s)
    ensures ToLower(s) == s
  {
    if s != [] {
      assert IsLower(s[1..]) by {
        forall k | 0 <= k < |s[1..]| ensures LowerChar(s[1..][k]) == s[1..][k] {
          assert s[1..][k] == s[k + 1];
        }
      }
      LowerOfLower(s[1..]);
    }
  }

  /** What a Mongoose schema path with `lowercase: true, trim: true` stores for `s`. */
  function Normalize(s: string): string {
    Trim(ToLower(s))
  }

  /** The form such a path's value always has: lower case, no whitespace at either end. */
  predicate IsNormalized(s: string) {
    IsLower(s) && Unpadded(s)
  }

  /** The lowercase-and-trim setter is idempotent, so a normalised value that passes through
      it again (on a later assignment or when used in a query) is unchanged. */
  lemma NormalizeIdempotent(s: string)
    ensures Normalize(Normalize(s)) == Normalize(s)
    ensures IsNormalized(Normalize(s))
  {
    var r := Trim(ToLower(s));
    TrimOfLowerIsLower(s);
    LowerOfLower(r);
    TrimUnpadded(ToLower(s));
    TrimUnpadded(r);
  }

  /** Trimming a lower-cased value keeps it lower case. */
  lemma TrimOfLowerIsLower(s: string)
    ensures IsLower(Trim(ToLower(s)))
  {
    var l := ToLower(s);
    assert IsLower(l) by {
      forall k | 0 <= k < |l| ensures LowerChar(l[k]) == l[k] {
        assert l[k] == LowerChar(s[k]);
      }
    }
    var i := TrimIsInfix(l);
    InfixOfLowerIsLower(l, Trim(l), i);
  }

  /** Every infix of a lower-case value is lower case. */
  lemma InfixOfLowerIsLower(l: string, r: string, i: nat)
    requires IsLower(l) && i + |r| <= |l|
    requires forall k :: 0 <= k < |r| ==> r[k] == l[i + k]
    ensures IsLower(r)
  {
    forall k | 0 <= k < |r| ensures LowerChar(r[k]) == r[k] {
      assert r[k] == l[i + k];
    }
  }

  // ---------------------------------------------------------------------------
  // String.prototype.indexOf / replace with a string pattern

  /** `pat` occurs in `s` starting at position `k`. */
  predicate OccursAt(s: string, pat: string, k: nat) {
    k + |pat| <= |s| && forall j :: 0 <= j < |pat| ==> s[k + j] == pat[j]
  }

  /** `s.indexOf(pat)`: the first position at which `pat` occurs in `s`, or None for -1. */
  function IndexOf(s: string, pat: string): (r: Option<nat>)
    ensures r.Some? ==> OccursAt(s, pat, r.value)
    ensures forall k: nat :: OccursAt(s, pat, k) ==> r.Some? && r.value <= k
    decreases |s|
  {
    if |pat| > |s| then None
    else if OccursAt(s, pat, 0) then Some(0)
    else
      var rest := IndexOf(s[1..], pat);
      assert forall k: nat :: k >= 1 ==> (OccursAt(s, pat, k) <==> OccursAt(s[1..], pat, k - 1));
      match rest
      case None => None
      case Some(j) => Some(j + 1)
  }

  /** `s.replace(pat, rep)` with a string pattern: only the first occurrence is replaced. */
  function ReplaceFirst(s: string, pat: string, rep: string): string {
    match IndexOf(s, pat)
    case None => s
    case Some(k) => s[..k] + rep + s[k + |pat|..]
  }

  /** Removing the first occurrence of a pattern: the input is unchanged when the pattern does
      not occur, and otherwise exactly that occurrence is cut out. */
  lemma ReplaceFirstRemoves(s: string, pat: string)
    ensures IndexOf(s, pat).None? ==> ReplaceFirst(s, pat, "") == s
    ensures IndexOf(s, pat).Some? ==> |ReplaceFirst(s, pat, "")| == |s| - |pat|
    ensures OccursAt(s, pat, 0) ==> ReplaceFirst(s, pat, "") == s[|pat|..]
    ensures IndexOf(s, pat).Some? ==>
      var k := IndexOf(s, pat).value;
      k + |pat| <= |s| && ReplaceFirst(s, pat, "") == s[..k] + s[k + |pat|..]
  {
  }

  // ---------------------------------------------------------------------------
  // Collections in natural order

  /** `findOne(filter)`: the position of the first element satisfying `p`. */
  function First<T>(s: seq<T>, p: T -> bool): (r: Option<nat>)
    ensures r.Some? ==> r.value < |s| && p(s[r.value]) && forall j :: 0 <= j < r.value ==> !p(s[j])
    ensures r.None? ==> forall j :: 0 <= j < |s| ==> !p(s[j])
  {
    if s == [] then None
    else if p(s[0]) then Some(0)
    else
      match First(s[1..], p)
      case None => None
      case Some(j) => Some(j + 1)
  }

  /** `First` finds exactly the position whose element is the earliest to satisfy `p`. */
  lemma {:induction false} FirstAt<T>(s: seq<T>, p: T -> bool, i: nat)
    requires i < |s| && p(s[i])
    requires forall j :: 0 <= j < i ==> !p(s[j])
    ensures First(s, p) == Some(i)
  {
    if i > 0 {
      assert forall j :: 0 <= j < i - 1 ==> s[1..][j] == s[j + 1];
      FirstAt(s[1..], p, i - 1);
    }
  }

  /** When the first element misses and the second matches, `First` finds the second. */
  lemma FirstIsSecond<T>(s: seq<T>, p: T -> bool)
    requires |s| >= 2 && !p(s[0]) && p(s[1])
    ensures First(s, p) == Some(1)
  {
    FirstAt(s, p, 1);
  }

  /** The elements satisfying `p`, in their order (`$match`, `Array.prototype.filter`). */
  function Filter<T(!new)>(s: seq<T>, p: T -> bool): (r: seq<T>)
    ensures |r| == Count(s, p)
    ensures forall x :: x in r <==> x in s && p(x)
  {
    if s == [] then [] else (if p(s[0]) then [s[0]] else []) + Filter(s[1..], p)
  }

  /** Filtering twice with the same test is filtering once. */
  lemma {:induction false} FilterIdempotent<T(!new)>(s: seq<T>, p: T -> bool)
    ensures Filter(Filter(s, p), p) == Filter(s, p)
  {
    if s != [] {
      FilterIdempotent(s[1..], p);
      var rest := Filter(s[1..], p);
      if p(s[0]) {
        assert ([s[0]] + rest)[1..] == rest;
      } else {
        assert Filter(s, p) == rest;
      }
    }
  }

  /** The number of elements satisfying `p` (`countDocuments(filter)`, `$size` of a lookup). */
  function Count<T>(s: seq<T>, p: T -> bool): (n: nat)
    ensures n <= |s|
    ensures n == 0 <==> forall j :: 0 <= j < |s| ==> !p(s[j])
  {
    if s == [] then 0 else (if p(s[0]) then 1 else 0) + Count(s[1..], p)
  }

  lemma {:induction false} CountAppend<T>(s: seq<T>, x: T, p: T -> bool)
    ensures Count(s + [x], p) == Count(s, p) + (if p(x) then 1 else 0)
  {
    if s != [] {
      assert (s + [x])[1..] == s[1..] + [x];
      CountAppend(s[1..], x, p);
    }
  }

  /** Replacing one element changes the count only by what `p` says of the old and new element. */
  lemma {:induction false} CountUpdate<T>(s: seq<T>, i: nat, x: T, p: T -> bool)
    requires i < |s|
    ensures Count(s[i := x], p) == Count(s, p) - (if p(s[i]) then 1 else 0) + (if p(x) then 1 else 0)
  {
    if i > 0 {
      assert s[i := x][1..] == s[1..][i - 1 := x];
      CountUpdate(s[1..], i - 1, x, p);
    } else {
      assert s[i := x][1..] == s[1..];
    }
  }

  /** Deleting one element lowers the count by what `p` says of it. */
  lemma {:induction false} CountRemove<T>(s: seq<T>, i: nat, p: T -> bool)
    requires i < |s|
    ensures Count(s[..i] + s[i + 1..], p) == Count(s, p) - (if p(s[i]) then 1 else 0)
  {
    if i > 0 {
      assert (s[..i] + s[i + 1..])[1..] == s[1..][..i - 1] + s[1..][i..];
      CountRemove(s[1..], i - 1, p);
    } else {
      assert s[..i] + s[i + 1..] == s[1..];
    }
  }

  /** Two elements satisfying `p` make the count at least two. */
  lemma {:induction false} CountTwo<T>(s: seq<T>, i: nat, j: nat, p: T -> bool)
    requires i < j < |s| && p(s[i]) && p(s[j])
    ensures Count(s, p) >= 2
  {
    if i > 0 {
      CountTwo(s[1..], i - 1, j - 1, p);
    } else {
      assert p(s[1..][j - 1]);
    }
  }

  /** `parseInt(x) || d`: the parsed number unless it is NaN (None) or 0, else the default. */
  function ParsedOr(parsed: Option<int>, d: int): (r: int)
    ensures parsed.Some? && parsed.value != 0 ==> r == parsed.value
    ensures parsed.None? || parsed.value == 0 ==> r == d
  {
    if parsed.Some? && parsed.value != 0 then parsed.value else d
  }

  /** The number of entries before page `page` when pages hold `limit` entries. */
  function PageSkip(page: int, limit: int): int {
    (page - 1) * limit
  }

  /** The first page starts at no negative position. */
  lemma PageSkipNonNegative(page: int, limit: int)
    requires page >= 1 && limit >= 0
    ensures PageSkip(page, limit) >= 0 && PageSkip(page, limit) == (page - 1) * limit
  {
  }

  function Min(a: int, b: int): int { if a <= b then a else b }
  function Max(a: int, b: int): int { if a >= b then a else b }
}

/** The handful of JavaScript string primitives the extension's decision logic
    relies on — `trim`, `startsWith`, `includes`, `indexOf` and the search behind
    `lastIndexOf` — stated over `seq<char>`. Lengths count Dafny characters. */
module JsText {
  import opened Wrappers

  /** ECMAScript WhiteSpace and LineTerminator code points. `String.prototype.trim`
      strips exactly these, and the regular-expression class `\s` matches exactly
      these, so one predicate serves both. */
  predicate IsSpace(c: char) {
    || c == '\t' || c == '\n' || c == '\U{000B}' || c == '\U{000C}' || c == '\r'
    || c == ' ' || c == '\U{00A0}' || c == '\U{1680}'
    || ('\U{2000}' <= c <= '\U{200A}')
    || c == '\U{2028}' || c == '\U{2029}' || c == '\U{202F}' || c == '\U{205F}'
    || c == '\U{3000}' || c == '\U{FEFF}'
  }

  /** `s.trimStart()`: the suffix left after dropping leading white space. */
  function TrimStart(s: string): (r: string)
    ensures |r| <= |s| && r == s[|s| - |r|..]
    ensures forall j | 0 <= j < |s| - |r| :: IsSpace(s[j])
    ensures r == [] || !IsSpace(r[0])
  {
    if |s| > 0 && IsSpace(s[0]) then
      var r := TrimStart(s[1..]);
      assert s[1..][|s| - 1 - |r|..] == s[|s| - |r|..];
      assert forall j | 1 <= j < |s| - |r| :: s[j] == s[1..][j - 1];
      r
    else s
  }

  /** `s.trimEnd()`: the prefix left after dropping trailing white space. */
  function TrimEnd(s: string): (r: string)
    ensures |r| <= |s| && r == s[..|r|]
    ensures forall j | |r| <= j < |s| :: IsSpace(s[j])
    ensures r == [] || !IsSpace(r[|r| - 1])
  {
    if |s| > 0 && IsSpace(s[|s| - 1]) then TrimEnd(s[..|s| - 1]) else s
  }

  /** How many leading white-space characters `trim` drops. */
  function LeadingSpaces(s: string): nat
  {
    |s| - |TrimStart(s)|
  }

  /** `s.trim()`: the slice of `s` between its leading and its trailing white space. */
  function Trim(s: string): (r: string)
    ensures LeadingSpaces(s) + |r| <= |s|
    ensures r == s[LeadingSpaces(s)..LeadingSpaces(s) + |r|]
    ensures forall j | 0 <= j < LeadingSpaces(s) :: IsSpace(s[j])
    ensures forall j | LeadingSpaces(s) + |r| <= j < |s| :: IsSpace(s[j])
    ensures r == [] || (!IsSpace(r[0]) && !IsSpace(r[|r| - 1]))
  {
    var t := TrimStart(s);
    var r := TrimEnd(t);
    TrimComposes(s, t, r);
    r
  }

  /** Dropping white space from the front and then from the back leaves a middle
      slice with white space on both sides. */
  lemma TrimComposes(s: string, t: string, r: string)
    requires |t| <= |s| && t == s[|s| - |t|..]
    requires t == [] || !IsSpace(t[0])
    requires |r| <= |t| && r == t[..|r|]
    requires forall j | |r| <= j < |t| :: IsSpace(t[j])
    ensures r == s[|s| - |t|..|s| - |t| + |r|]
    ensures forall j | |s| - |t| + |r| <= j < |s| :: IsSpace(s[j])
    ensures r == [] || !IsSpace(r[0])
  {
    var offset := |s| - |t|;
    assert r == s[offset..offset + |r|] by {
      assert t[..|r|] == s[offset..][..|r|] == s[offset..offset + |r|];
    }
    if r != [] {
      assert r[0] == t[0];
    }
    forall j | offset + |r| <= j < |s| ensures IsSpace(s[j]) {
      assert s[j] == t[j - offset];
    }
  }

  /** A string with no white space at either end is its own trim. */
  lemma TrimOfTrimmed(s: string)
    requires s == [] || (!IsSpace(s[0]) && !IsSpace(s[|s| - 1]))
    ensures Trim(s) == s
  {
  }

  /** All of `s` is white space. */
  predicate AllSpace(s: string) {
    forall j | 0 <= j < |s| :: IsSpace(s[j])
  }

  /** Trimming recovers a non-empty trimmed string from trailing white space. */
  lemma TrimOfPadded(s: string, post: string)
    requires AllSpace(post)
    requires |s| > 0 && !IsSpace(s[0]) && !IsSpace(s[|s| - 1])
    ensures Trim(s + post) == s
  {
    var x := s + post;
    var r := Trim(x);
    assert !IsSpace(x[0]) && !IsSpace(x[|s| - 1]);
    assert LeadingSpaces(x) == 0;
    assert |s| <= |r|;
    assert r[|r| - 1] == x[|r| - 1];
    assert forall j | |s| <= j < |x| :: IsSpace(x[j]) by {
      forall j | |s| <= j < |x| ensures IsSpace(x[j]) {
        assert x[j] == post[j - |s|];
      }
    }
    assert |r| == |s|;
    assert r == x[..|s|] == s;
  }

  /** Trimming twice is trimming once. */
  lemma TrimIdempotent(s: string)
    ensures Trim(Trim(s)) == Trim(s)
  {
    TrimOfTrimmed(Trim(s));
  }

  /** `p` occurs in `s` starting at index `i`. */
  predicate OccursAt(s: string, p: string, i: int) {
    0 <= i && i + |p| <= |s| && s[i..i + |p|] == p
  }

  /** `s.startsWith(p)`. */
  predicate StartsWith(s: string, p: string) {
    OccursAt(s, p, 0)
  }

  /** `s.indexOf(p, from)`, with -1 as `None`: the first occurrence at or after `from`. */
  function IndexOf(s: string, p: string, from: nat): (r: Option<nat>)
    ensures r.Some? ==> from <= r.value && OccursAt(s, p, r.value)
    ensures r.Some? ==> forall q | from <= q < r.value :: !OccursAt(s, p, q)
    ensures r.None? ==> forall q | from <= q :: !OccursAt(s, p, q)
    decreases |s| - from
  {
    if from + |p| > |s| then None
    else if s[from..from + |p|] == p then Some(from)
    else IndexOf(s, p, from + 1)
  }

  /** An occurrence with nothing earlier is the one `indexOf` finds. */
  lemma IndexOfIs(s: string, p: string, from: nat, i: nat)
    requires from <= i && OccursAt(s, p, i)
    requires forall q | from <= q < i :: !OccursAt(s, p, q)
    ensures IndexOf(s, p, from) == Some(i)
  {
  }

  /** A single mismatching character rules out an occurrence. */
  lemma MismatchRefutes(s: string, p: string, i: int, k: nat)
    requires k < |p|
    requires 0 <= i && i + |p| <= |s| ==> s[i + k] != p[k]
    ensures !OccursAt(s, p, i)
  {
  }

  /** `s.includes(p)`. */
  predicate Contains(s: string, p: string)
    ensures Contains(s, p) <==> exists i :: OccursAt(s, p, i)
  {
    IndexOf(s, p, 0).Some?
  }

  /** The last index holding `c` (the position `/{[\s\S]*}/` ends its greedy match on). */
  function LastIndexOfChar(s: string, c: char): (r: Option<nat>)
    ensures r.Some? ==> r.value < |s| && s[r.value] == c
    ensures r.Some? ==> forall k | r.value < k < |s| :: s[k] != c
    ensures r.None? ==> c !in s
  {
    if |s| == 0 then None
    else if s[|s| - 1] == c then Some(|s| - 1)
    else LastIndexOfChar(s[..|s| - 1], c)
  }

  /** An occurrence inside a slice is an occurrence in the whole string. */
  lemma OccursInSlice(t: string, a: nat, b: nat, p: string, i: int)
    requires a <= b <= |t|
    requires OccursAt(t[a..b], p, i)
    ensures OccursAt(t, p, a + i)
  {
    assert forall k | i <= k < i + |p| :: t[a..b][k] == t[a + k];
    assert t[a..b][i..i + |p|] == t[a + i..a + i + |p|];
  }

  /** A pattern absent from a text is absent from every slice of it. */
  lemma SliceKeepsOut(t: string, a: nat, b: nat, p: string)
    requires a <= b <= |t| && !Contains(t, p)
    ensures !Contains(t[a..b], p)
  {
    forall i | OccursAt(t[a..b], p, i) ensures false {
      OccursInSlice(t, a, b, p, i);
    }
  }

  /** A pattern holding a character the text lacks cannot occur in the text. */
  lemma MissingCharExcludes(s: string, p: string, c: char)
    requires c in p && c !in s
    ensures !Contains(s, p)
  {
  }
}

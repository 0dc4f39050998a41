/** Whitespace, trimming and searching: the string operations of the host
    languages that the rest of the model is stated in. */
module Text {

  datatype Option<+T> = None | Some(value: T)

  /** The characters for which Python's `str.isspace` answers true. */
  predicate IsSpace(c: char) {
    || '\t' <= c <= '\r'
    || '\U{1c}' <= c <= ' '
    || c == '\U{85}' || c == '\U{a0}' || c == '\U{1680}'
    || '\U{2000}' <= c <= '\U{200a}'
    || c == '\U{2028}' || c == '\U{2029}' || c == '\U{202f}' || c == '\U{205f}' || c == '\U{3000}'
  }

  predicate AllSpace(s: string) {
    forall i :: 0 <= i < |s| ==> IsSpace(s[i])
  }

  /** Nonempty, and neither end is whitespace. */
  predicate InkBounded(s: string) {
    s != "" && !IsSpace(s[0]) && !IsSpace(s[|s| - 1])
  }

  function SkipSpaces(s: string, i: nat): (j: nat)
    requires i <= |s|
    ensures i <= j <= |s| && forall k :: i <= k < j ==> IsSpace(s[k])
    ensures j < |s| ==> !IsSpace(s[j])
    decreases |s| - i
  {
    if i < |s| && IsSpace(s[i]) then SkipSpaces(s, i + 1) else i
  }

  function BackSpaces(s: string, lo: nat, j: nat): (k: nat)
    requires lo <= j <= |s|
    ensures lo <= k <= j && forall i :: k <= i < j ==> IsSpace(s[i])
    ensures lo < k ==> !IsSpace(s[k - 1])
  {
    if lo < j && IsSpace(s[j - 1]) then BackSpaces(s, lo, j - 1) else j
  }

  /** `str.strip()`. */
  function Strip(s: string): (r: string)
    ensures |r| <= |s|
    ensures r == "" || InkBounded(r)
  {
    var a := SkipSpaces(s, 0);
    s[a..BackSpaces(s, a, |s|)]
  }

  /** Stripping is determined by its result: whitespace around something that
      neither begins nor ends with whitespace strips to exactly that. */
  lemma {:induction false} StripUnique(lead: string, core: string, trail: string)
    requires AllSpace(lead) && AllSpace(trail)
    requires core == "" || InkBounded(core)
    ensures Strip(lead + core + trail) == core
  {
    var s := lead + core + trail;
    var a := SkipSpaces(s, 0);
    var b := BackSpaces(s, a, |s|);
    if core == "" {
      forall i | 0 <= i < |s| ensures IsSpace(s[i]) {
        if i < |lead| { assert s[i] == lead[i]; } else { assert s[i] == trail[i - |lead|]; }
      }
      assert a == |s|;
    } else {
      assert s[|lead|] == core[0] && s[|lead| + |core| - 1] == core[|core| - 1];
      forall i | 0 <= i < |lead| ensures IsSpace(s[i]) { assert s[i] == lead[i]; }
      forall i | |lead| + |core| <= i < |s| ensures IsSpace(s[i]) {
        assert s[i] == trail[i - |lead| - |core|];
      }
      assert a == |lead| && b == |lead| + |core|;
    }
  }

  lemma {:induction false} StripDecompose(s: string) returns (lead: string, trail: string)
    ensures s == lead + Strip(s) + trail && AllSpace(lead) && AllSpace(trail)
  {
    var a := SkipSpaces(s, 0);
    var b := BackSpaces(s, a, |s|);
    lead, trail := s[..a], s[b..];
    assert s == s[..a] + s[a..b] + s[b..];
  }

  lemma SliceOfDrop<T>(s: seq<T>, c: nat, i: nat, j: nat)
    requires c <= i <= j <= |s|
    ensures s[c..][i - c..j - c] == s[i..j]
  {
  }

  /** At most the first `n` elements: `s[:n]`. */
  function First<T>(s: seq<T>, n: nat): (r: seq<T>)
    ensures |r| == (if n < |s| then n else |s|) && forall i :: 0 <= i < |r| ==> r[i] == s[i]
  {
    if n < |s| then s[..n] else s
  }

  /** Is `pat` found in `s` at position `i`? */
  predicate At(s: string, pat: string, i: nat) {
    i + |pat| <= |s| && s[i..i + |pat|] == pat
  }

  /** `s.find(pat, from)`: the least position, or none. */
  function Find(s: string, pat: string, from: nat): (r: Option<nat>)
    ensures r.Some? ==> from <= r.value && At(s, pat, r.value)
    ensures r.Some? ==> forall i :: from <= i < r.value ==> !At(s, pat, i)
    ensures r.None? ==> forall i :: from <= i ==> !At(s, pat, i)
    decreases |s| - from
  {
    if |s| < from + |pat| then None
    else if At(s, pat, from) then Some(from)
    else Find(s, pat, from + 1)
  }

  /** The lines with a newline between each two: `"\n".join(lines)`. */
  function Join(lines: seq<string>): string {
    if lines == [] then ""
    else if |lines| == 1 then lines[0]
    else lines[0] + "\n" + Join(lines[1..])
  }
}

/**
 * The few JavaScript value and string behaviours the dashboard relies on:
 * `undefined` for reads and log arguments that have not resolved, truthiness,
 * `toLowerCase` for address comparison and `slice` for shortened addresses.
 */
module JsText {

  /** A value that may be `undefined`. */
  datatype Option<+T> = None | Some(value: T)

  /** Truthiness of a possibly-undefined string: `undefined` and `""` are falsy. */
  predicate Truthy(s: Option<string>) {
    s.Some? && s.value != ""
  }

  /** `b === true` for a possibly-undefined boolean (also its truthiness). */
  predicate IsTrue(b: Option<bool>) {
    b == Some(true)
  }

  function Min(a: int, b: int): int {
    if a <= b then a else b
  }

  /** Lower-casing of one character; only the ASCII letters change. */
  function LowerChar(c: char): char {
    if 'A' <= c <= 'Z' then (c as int + 32) as char else c
  }

  /** `s.toLowerCase()`, restricted to ASCII case folding. */
  function ToLower(s: string): (r: string)
    ensures |r| == |s|
    ensures forall i :: 0 <= i < |s| ==> r[i] == LowerChar(s[i])
  {
    if s == [] then [] else [LowerChar(s[0])] + ToLower(s[1..])
  }

  /** Two strings that agree character by character once both are lower-cased. */
  predicate EqualIgnoringCase(a: string, b: string) {
    |a| == |b| && forall i :: 0 <= i < |a| ==> LowerChar(a[i]) == LowerChar(b[i])
  }

  /** Comparing lower-cased copies is exactly case-insensitive equality. */
  lemma ToLowerEqualIff(a: string, b: string)
    ensures ToLower(a) == ToLower(b) <==> EqualIgnoringCase(a, b)
  {
    if EqualIgnoringCase(a, b) {
      assert forall i :: 0 <= i < |a| ==> ToLower(a)[i] == ToLower(b)[i];
    }
    if ToLower(a) == ToLower(b) {
      assert forall i :: 0 <= i < |a| ==> ToLower(a)[i] == ToLower(b)[i];
    }
  }

  /** Lower-casing twice changes nothing more. */
  lemma ToLowerIdempotent(s: string)
    ensures ToLower(ToLower(s)) == ToLower(s)
  {
    assert forall i :: 0 <= i < |s| ==> ToLower(ToLower(s))[i] == ToLower(s)[i];
  }

  /** `s.slice(0, n)`: the first n characters, or all of s when it is shorter. */
  function SliceHead(s: string, n: nat): string {
    s[..Min(n, |s|)]
  }

  /** `s.slice(-n)`: the last n characters, or all of s when it is shorter
      (`slice(-0)` is `slice(0)`, the whole string). */
  function SliceTail(s: string, n: nat): string {
    if n == 0 then s else if n <= |s| then s[|s| - n..] else s
  }

  /** `` `${s.slice(0, head)}...${s.slice(-tail)}` `` for positive head and tail. */
  function Shorten(s: string, head: nat, tail: nat): (r: string)
    ensures |r| == Min(head, |s|) + 3 + (if tail == 0 then |s| else Min(tail, |s|))
    ensures r[Min(head, |s|)..Min(head, |s|) + 3] == "..."
  {
    SliceHead(s, head) + "..." + SliceTail(s, tail)
  }

  /** On a string at least as long as both ends, the short form keeps exactly
      the first `head` and the last `tail` characters around the ellipsis. */
  lemma ShortenKeepsEnds(s: string, head: nat, tail: nat)
    requires 0 < tail && head <= |s| && tail <= |s|
    ensures Shorten(s, head, tail) == s[..head] + "..." + s[|s| - tail..]
    ensures |Shorten(s, head, tail)| == head + 3 + tail
  {
  }

  /** On a string shorter than the tail, both ends repeat the whole string. */
  lemma ShortenOfShortString(s: string, head: nat, tail: nat)
    requires |s| < tail && |s| <= head
    ensures Shorten(s, head, tail) == s + "..." + s
  {
  }
}

/** The parts of Go's package strings that the comment and URL parsers use. */
module Strings {
  import opened Wrappers

  predicate OccursAt(s: string, sub: string, i: nat) {
    i + |sub| <= |s| && s[i..i + |sub|] == sub
  }

  predicate Contains(s: string, sub: string) {
    Index(s, sub, 0).Some?
  }

  /** The first occurrence of `sub` at or after `start`. */
  function Index(s: string, sub: string, start: nat): (r: Option<nat>)
    ensures r.Some? ==> start <= r.value && OccursAt(s, sub, r.value)
    ensures r.Some? ==> forall i | start <= i < r.value :: !OccursAt(s, sub, i)
    ensures r.None? ==> forall i: nat | start <= i :: !OccursAt(s, sub, i)
    decreases |s| - start
  {
    if start + |sub| > |s| then None
    else if OccursAt(s, sub, start) then Some(start)
    else Index(s, sub, start + 1)
  }

  /** `unicode.IsSpace`. */
  predicate IsSpace(c: char) {
    '\t' <= c <= '\r' || c == ' ' || c == '\U{85}' || c == '\U{a0}' || c == '\U{1680}' || '\U{2000}' <= c <= '\U{200a}'
    || c == '\U{2028}' || c == '\U{2029}' || c == '\U{202f}' || c == '\U{205f}' || c == '\U{3000}'
  }

  predicate AllSpace(s: string) {
    forall i | 0 <= i < |s| :: IsSpace(s[i])
  }

  function TrimLeft(s: string): string {
    if s != [] && IsSpace(s[0]) then TrimLeft(s[1..]) else s
  }

  function TrimRight(s: string): string {
    if s != [] && IsSpace(s[|s| - 1]) then TrimRight(s[..|s| - 1]) else s
  }

  function TrimSpace(s: string): string {
    TrimRight(TrimLeft(s))
  }

  function TrimPrefix(s: string, prefix: string): string {
    if prefix <= s then s[|prefix|..] else s
  }

  function TrimSuffix(s: string, suffix: string): string {
    if |suffix| <= |s| && s[|s| - |suffix|..] == suffix then s[..|s| - |suffix|] else s
  }

  /** No space at either end. */
  predicate Trimmed(s: string) {
    s == [] || (!IsSpace(s[0]) && !IsSpace(s[|s| - 1]))
  }

  lemma {:induction false} TrimLeftSkips(w: string, s: string)
    requires AllSpace(w)
    ensures TrimLeft(w + s) == TrimLeft(s)
  {
    hide IsSpace;
    if w == [] {
      assert w + s == s;
    } else {
      TrimLeftSkips(w[1..], s);
      assert (w + s)[1..] == w[1..] + s;
    }
  }

  lemma {:induction false} TrimRightSkips(s: string, w: string)
    requires AllSpace(w)
    ensures TrimRight(s + w) == TrimRight(s)
  {
    hide IsSpace;
    if w == [] {
      assert s + w == s;
    } else {
      TrimRightSkips(s, w[..|w| - 1]);
      assert (s + w)[..|s + w| - 1] == s + w[..|w| - 1];
    }
  }

  /** Trimming recovers a trimmed text from any white space around it. */
  lemma TrimRecovers(w: string, s: string, v: string)
    requires AllSpace(w) && AllSpace(v) && Trimmed(s)
    ensures TrimSpace(w + s + v) == s
  {
    hide IsSpace;
    assert w + s + v == w + (s + v);
    TrimLeftSkips(w, s + v);
    if s == [] {
      assert s + v == v + [] && [] + v == v;
      TrimLeftSkips(v, []);
    } else {
      assert TrimLeft(s + v) == s + v;
      TrimRightSkips(s, v);
    }
  }

  /** The first occurrence is where no earlier one is. */
  lemma IndexIs(s: string, sub: string, i: nat)
    requires OccursAt(s, sub, i) && forall j: nat | j < i :: !OccursAt(s, sub, j)
    ensures Index(s, sub, 0) == Some(i)
  {
  }

  predicate Solid(s: string) {
    exists i | 0 <= i < |s| :: !IsSpace(s[i])
  }

  lemma {:induction false} TrimLeftStops(s: string, t: string)
    requires Solid(s)
    ensures TrimLeft(s + t) == TrimLeft(s) + t && Solid(TrimLeft(s)) && |TrimLeft(s)| <= |s|
    ensures TrimLeft(s) == s[|s| - |TrimLeft(s)|..]
  {
    hide IsSpace;
    if IsSpace(s[0]) {
      var i :| 0 <= i < |s| && !IsSpace(s[i]);
      assert s[1..][i - 1] == s[i];
      TrimLeftStops(s[1..], t);
      assert (s + t)[1..] == s[1..] + t;
    }
  }

  lemma {:induction false} TrimRightStops(s: string, t: string)
    requires Solid(t)
    ensures TrimRight(s + t) == s + TrimRight(t) && Solid(TrimRight(t)) && |TrimRight(t)| <= |t|
    ensures TrimRight(t) == t[..|TrimRight(t)|]
  {
    hide IsSpace;
    var n := |t| - 1;
    if IsSpace(t[n]) {
      var i :| 0 <= i < |t| && !IsSpace(t[i]);
      assert t[..n][i] == t[i];
      TrimRightStops(s, t[..n]);
      assert (s + t)[..|s + t| - 1] == s + t[..n];
    }
  }

  /** Trimming does not reach what stands between two texts that are not all white space. */
  lemma TrimKeepsMiddle(s: string, middle: string, t: string)
    requires Solid(s) && Solid(t)
    ensures TrimSpace(s + middle + t) == TrimLeft(s) + middle + TrimRight(t)
  {
    hide TrimLeft, TrimRight;
    assert s + middle + t == s + (middle + t);
    TrimLeftStops(s, middle + t);
    TrimRightStops(TrimLeft(s) + middle, t);
    assert TrimLeft(s) + (middle + t) == TrimLeft(s) + middle + t;
  }
}

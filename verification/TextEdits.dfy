/** Applying a formatter's text edits, last to first. */
module TextEdits {

  datatype Edit = Edit(start: nat, length: nat, newText: string)

  function End(e: Edit): nat { e.start + e.length }

  /** Both ends are cut to the text and exchanged if they are in the wrong order. */
  function Substring(s: string, a: nat, b: nat): string {
    var a', b' := if a < |s| then a else |s|, if b < |s| then b else |s|;
    if a' <= b' then s[a'..b'] else s[b'..a']
  }

  function Replace(s: string, e: Edit): string {
    Substring(s, 0, e.start) + e.newText + Substring(s, End(e), |s|)
  }

  function ApplyInReverse(s: string, edits: seq<Edit>): string {
    if edits == [] then s else Replace(ApplyInReverse(s, edits[1..]), edits[0])
  }

  /** The edits lie between `at` and `end` in order and do not overlap; they may touch or be empty. */
  predicate InOrder(edits: seq<Edit>, at: nat, end: nat) {
    if edits == [] then at <= end
    else at <= edits[0].start && InOrder(edits[1..], End(edits[0]), end)
  }

  lemma {:induction false} InOrderFits(edits: seq<Edit>, at: nat, end: nat)
    requires InOrder(edits, at, end)
    ensures at <= end
  {
    if edits != [] { InOrderFits(edits[1..], End(edits[0]), end); }
  }

  /** The text from `at` on with every span replaced by its new text, all read off the original. */
  function Substituted(s: string, edits: seq<Edit>, at: nat): string
    requires InOrder(edits, at, |s|)
  {
    InOrderFits(edits, at, |s|);
    if edits == [] then s[at..]
    else
      InOrderFits(edits[1..], End(edits[0]), |s|);
      s[at..edits[0].start] + edits[0].newText + Substituted(s, edits[1..], End(edits[0]))
  }

  lemma ReplaceBefore(s: string, tail: string, e: Edit, at: nat)
    requires at <= e.start && End(e) <= |s|
    ensures Replace(s[..End(e)] + tail, e) == s[..at] + (s[at..e.start] + e.newText + tail)
  {
    var t := s[..End(e)] + tail;
    assert t[..e.start] == s[..at] + s[at..e.start];
    assert t[End(e)..] == tail;
  }

  /** Last to first is the same as all at once. */
  lemma {:induction false} ReverseIsSimultaneous(s: string, edits: seq<Edit>, at: nat)
    requires InOrder(edits, at, |s|)
    ensures at <= |s| && ApplyInReverse(s, edits) == s[..at] + Substituted(s, edits, at)
    decreases edits
  {
    InOrderFits(edits, at, |s|);
    if edits == [] {
      assert s == s[..at] + s[at..];
    } else {
      var e := edits[0];
      InOrderFits(edits[1..], End(e), |s|);
      ReverseIsSimultaneous(s, edits[1..], End(e));
      ReplaceBefore(s, Substituted(s, edits[1..], End(e)), e, at);
    }
  }

  /** How far the edits at or before position `p` move the character there. */
  function Shift(edits: seq<Edit>, p: nat): int {
    if edits == [] || p < edits[0].start then 0
    else |edits[0].newText| - edits[0].length + Shift(edits[1..], p)
  }

  predicate Untouched(edits: seq<Edit>, p: nat) {
    forall i :: 0 <= i < |edits| ==> p < edits[i].start || End(edits[i]) <= p
  }

  /** Every character outside the spans is still there, moved by what the earlier edits add and drop. */
  lemma {:induction false} UntouchedIsKept(s: string, edits: seq<Edit>, at: nat, p: nat)
    requires InOrder(edits, at, |s|) && at <= p < |s| && Untouched(edits, p)
    ensures var k := p - at + Shift(edits, p);
            0 <= k < |Substituted(s, edits, at)| && Substituted(s, edits, at)[k] == s[p]
    decreases edits
  {
    InOrderFits(edits, at, |s|);
    if edits != [] {
      var e, rest := edits[0], edits[1..];
      InOrderFits(rest, End(e), |s|);
      var gap, tail := s[at..e.start], Substituted(s, rest, End(e));
      if p < e.start {
        assert (gap + e.newText + tail)[p - at] == gap[p - at] == s[p];
      } else {
        assert End(e) <= p && Untouched(rest, p) by {
          assert Untouched(edits, p);
          UntouchedRest(edits, p);
        }
        UntouchedIsKept(s, rest, End(e), p);
        var k := p - End(e) + Shift(rest, p);
        assert (gap + e.newText + tail)[|gap| + |e.newText| + k] == tail[k];
      }
    }
  }

  lemma UntouchedRest(edits: seq<Edit>, p: nat)
    requires edits != [] && edits[0].start <= p && Untouched(edits, p)
    ensures End(edits[0]) <= p && Untouched(edits[1..], p)
  {
    forall i | 0 <= i < |edits[1..]| ensures p < edits[1..][i].start || End(edits[1..][i]) <= p {
      assert edits[1..][i] == edits[i + 1];
    }
  }

  /** An edit that starts past the end appends, and one that only ends past it replaces the rest. */
  lemma PastTheEnd(s: string, e: Edit)
    requires End(e) > |s|
    ensures Replace(s, e) == (if e.start < |s| then s[..e.start] else s) + e.newText
  {
  }

  /** Listed out of order, edits land in the wrong places: the second letter of "ab" is not replaced. */
  lemma OutOfOrderMisses()
    ensures ApplyInReverse("ab", [Edit(1, 1, "X"), Edit(0, 1, "longer")]) == "lXngerb"
  {
    var first := [Edit(1, 1, "X"), Edit(0, 1, "longer")];
    assert first[1..] == [Edit(0, 1, "longer")] && first[1..][1..] == [];
    assert ApplyInReverse("ab", first[1..]) == Replace("ab", Edit(0, 1, "longer")) == "longerb";
  }

  /** The loop that applies the edits. */
  method ApplyEdits(text: string, edits: seq<Edit>) returns (content: string)
    ensures content == ApplyInReverse(text, edits)
    ensures InOrder(edits, 0, |text|) ==> content == Substituted(text, edits, 0)
  {
    content := text;
    var i := |edits| - 1;
    while i >= 0
      invariant -1 <= i < |edits|
      invariant content == ApplyInReverse(text, edits[i + 1..])
    {
      var edit := edits[i];
      assert edits[i..][1..] == edits[i + 1..];
      content := Substring(content, 0, edit.start) + edit.newText + Substring(content, End(edit), |content|);
      i := i - 1;
    }
    assert edits[0..] == edits;
    if InOrder(edits, 0, |text|) {
      ReverseIsSimultaneous(text, edits, 0);
    }
  }
}

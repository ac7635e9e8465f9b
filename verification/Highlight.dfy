/**
 Highlighting the matched codepoints of a selector label,
 `layout_label_with_matches` in crates/hotki-app/src/selector.rs, and the index
 list it is given, `matched_window` in crates/hotki-engine/src/selector.rs.
 */
module Highlight {

  /** A stretch of text appended with one format. */
  datatype Section = Section(text: string, matched: bool)

  // ---------- What a layout means ----------

  /** Every codepoint with its format. */
  function Expand(sections: seq<Section>): seq<(char, bool)> {
    if sections == [] then []
    else Expand(sections[..|sections| - 1]) + Painted(sections[|sections| - 1].text, sections[|sections| - 1].matched)
  }

  function Painted(text: string, matched: bool): seq<(char, bool)> {
    seq(|text|, i requires 0 <= i < |text| => (text[i], matched))
  }

  /** No section is empty and neighbours differ in format. */
  ghost predicate Normal(sections: seq<Section>) {
    && (forall i | 0 <= i < |sections| :: sections[i].text != "")
    && (forall i | 0 < i < |sections| :: sections[i].matched != sections[i - 1].matched)
  }

  ghost predicate Increasing(indices: seq<nat>) {
    forall i, j | 0 <= i < j < |indices| :: indices[i] < indices[j]
  }

  /** A codepoint is matched if the list names it before it stops increasing. */
  ghost predicate Lit(indices: seq<nat>, i: nat) {
    exists j :: 0 <= j < |indices| && indices[j] == i && Increasing(indices[..j + 1])
  }

  /** These sections lay out the first `end` codepoints of a label. */
  ghost predicate Covers(sections: seq<Section>, text: string, indices: seq<nat>, end: nat)
    requires end <= |text|
  {
    && Normal(sections) && |Expand(sections)| == end
    && forall i | 0 <= i < end :: Expand(sections)[i] == (text[i], Lit(indices, i))
  }

  // ---------- The loop ----------

  /** The matched codepoints below `cp` are the first `next` entries, and entry `next` is not one of them. */
  ghost predicate Scanned(indices: seq<nat>, next: nat, cp: nat) {
    && next <= |indices| && Increasing(indices[..next])
    && (forall j | 0 <= j < next :: indices[j] < cp)
    && (next < |indices| ==> indices[next] >= cp || !Increasing(indices[..next + 1]))
  }

  lemma NextIsLit(indices: seq<nat>, next: nat, cp: nat)
    requires Scanned(indices, next, cp)
    ensures Lit(indices, cp) <==> next < |indices| && indices[next] == cp
    ensures Scanned(indices, if next < |indices| && indices[next] == cp then next + 1 else next, cp + 1)
  {
    if next < |indices| && indices[next] == cp {
      assert Increasing(indices[..next + 1]);
      if next + 1 < |indices| && Increasing(indices[..next + 2]) {
        assert indices[..next + 2][next] < indices[..next + 2][next + 1];
      }
    }
    forall j | next <= j < |indices| && Increasing(indices[..j + 1])
      ensures Increasing(indices[..next + 1]) && (next < j ==> indices[next] < indices[j])
    {
      PrefixIncreases(indices, next, j);
    }
  }

  lemma PrefixIncreases(indices: seq<nat>, next: nat, j: nat)
    requires next <= j < |indices| && Increasing(indices[..j + 1])
    ensures Increasing(indices[..next + 1]) && (next < j ==> indices[next] < indices[j])
  {
    assert indices[..next + 1] == indices[..j + 1][..next + 1];
    assert next < j ==> indices[..j + 1][next] < indices[..j + 1][j];
  }

  lemma ExpandOneMore(sections: seq<Section>, s: Section)
    ensures Expand(sections + [s]) == Expand(sections) + Painted(s.text, s.matched)
  {
    assert (sections + [s])[..|sections|] == sections;
  }

  /** All codepoints of a stretch have the same format. */
  ghost predicate Uniform(indices: seq<nat>, start: nat, end: nat, matched: bool) {
    forall i | start <= i < end :: Lit(indices, i) == matched
  }

  ghost predicate MayBeFollowed(sections: seq<Section>, matched: bool) {
    sections != [] ==> sections[|sections| - 1].matched != matched
  }

  lemma NothingToFollow(matched: bool)
    ensures MayBeFollowed([], matched)
  {
  }

  lemma OneMoreUniform(indices: seq<nat>, start: nat, end: nat, matched: bool)
    requires start <= end && Lit(indices, end) == matched && Uniform(indices, start, end, matched)
    ensures Uniform(indices, start, end + 1, matched)
  {
    hide Lit;
  }

  lemma NoneUniform(indices: seq<nat>, start: nat, matched: bool)
    ensures Uniform(indices, start, start, matched)
  {
  }

  lemma AppendCovers(sections: seq<Section>, text: string, indices: seq<nat>, start: nat, end: nat, matched: bool)
    requires start < end <= |text| && Covers(sections, text, indices, start)
    requires Uniform(indices, start, end, matched)
    requires MayBeFollowed(sections, matched)
    ensures Covers(sections + [Section(text[start..end], matched)], text, indices, end)
    ensures MayBeFollowed(sections + [Section(text[start..end], matched)], !matched)
  {
    hide Lit, Expand, Normal;
    ExpandOneMore(sections, Section(text[start..end], matched));
    NormalOneMore(sections, Section(text[start..end], matched));
  }

  lemma NormalOneMore(sections: seq<Section>, s: Section)
    requires Normal(sections) && s.text != "" && MayBeFollowed(sections, s.matched)
    ensures Normal(sections + [s])
  {
  }

  method LayoutLabelWithMatches(text: string, indices: seq<nat>) returns (sections: seq<Section>)
    ensures Covers(sections, text, indices, |text|)
  {
    sections := [];
    if text == "" {
      return;
    }
    hide Increasing, Normal, Lit, Covers, Scanned, Expand, Uniform, MayBeFollowed;
    NothingToFollow(false);
    NothingToFollow(true);
    NoneUniform(indices, 0, false);
    var next, segStart, segMatched := 0, 0, false;
    NothingCovered(text, indices);
    for cp := 0 to |text|
      invariant segStart <= cp && Scanned(indices, next, cp) && Covers(sections, text, indices, segStart)
      invariant segStart < cp || cp == 0
      invariant MayBeFollowed(sections, segMatched) && (segStart == 0 ==> sections == [])
      invariant Uniform(indices, segStart, cp, segMatched)
    {
      NextIsLit(indices, next, cp);
      var matched := next < |indices| && indices[next] == cp;
      if matched != segMatched {
        if segStart < cp {
          AppendCovers(sections, text, indices, segStart, cp, segMatched);
          sections := sections + [Section(text[segStart..cp], segMatched)];
        }
        segStart := cp;
        segMatched := matched;
        NoneUniform(indices, cp, matched);
      }
      OneMoreUniform(indices, segStart, cp, matched);
      if matched {
        next := next + 1;
      }
    }
    AppendCovers(sections, text, indices, segStart, |text|, segMatched);
    DropIsSlice(text, segStart);
    sections := sections + [Section(text[segStart..], segMatched)];
  }

  lemma DropIsSlice(text: string, start: nat)
    requires start <= |text|
    ensures text[start..] == text[start..|text|]
  {
  }

  lemma NothingCovered(text: string, indices: seq<nat>)
    ensures Covers([], text, indices, 0) && Scanned(indices, 0, 0)
  {
  }

  // ---------- Consequences ----------

  function Text(sections: seq<Section>): string {
    if sections == [] then "" else Text(sections[..|sections| - 1]) + sections[|sections| - 1].text
  }

  lemma {:induction false} TextIsExpanded(sections: seq<Section>)
    ensures |Text(sections)| == |Expand(sections)|
    ensures forall i | 0 <= i < |Text(sections)| :: Expand(sections)[i].0 == Text(sections)[i]
  {
    if sections != [] {
      TextIsExpanded(sections[..|sections| - 1]);
    }
  }

  /** The sections of a layout, read one after the other, are the label. */
  lemma LayoutSpellsLabel(sections: seq<Section>, text: string, indices: seq<nat>)
    requires Covers(sections, text, indices, |text|)
    ensures Text(sections) == text
  {
    hide Lit, Normal;
    TextIsExpanded(sections);
    assert forall i | 0 <= i < |text| :: Expand(sections)[i].0 == text[i];
  }

  /** With increasing indices the matched codepoints are exactly the listed ones. */
  lemma IncreasingListsAreExact(indices: seq<nat>, i: nat)
    requires Increasing(indices)
    ensures Lit(indices, i) <==> i in indices
  {
    if i in indices {
      var j :| 0 <= j < |indices| && indices[j] == i;
      assert Increasing(indices[..j + 1]);
    }
  }

  /** A layout is determined by what it shows. */
  lemma {:induction false} LayoutIsUnique(a: seq<Section>, b: seq<Section>)
    requires Normal(a) && Normal(b) && Expand(a) == Expand(b)
    ensures a == b
  {
    hide Normal, Expand, EndsWith;
    EmptyShowsNothing(a);
    EmptyShowsNothing(b);
    if a != [] && b != [] {
      var ia, ib := a[..|a| - 1], b[..|b| - 1];
      var sa, sb := a[|a| - 1], b[|b| - 1];
      assert a == ia + [sa] && b == ib + [sb];
      LastSection(ia, sa);
      LastSection(ib, sb);
      SameEnd(Expand(a), Expand(ia), sa, Expand(ib), sb);
      LayoutIsUnique(ia, ib);
    }
  }

  lemma EmptyShowsNothing(a: seq<Section>)
    requires Normal(a)
    ensures Expand(a) == [] <==> a == []
  {
  }

  /** `e` is `before` and then a longest stretch of one format, the text of `s`. */
  ghost predicate EndsWith(e: seq<(char, bool)>, before: seq<(char, bool)>, s: Section) {
    && |e| == |before| + |s.text| > |before|
    && Shows(e, before)
    && (forall k | 0 <= k < |s.text| :: e[|before| + k] == (s.text[k], s.matched))
    && (before != [] ==> e[|before| - 1].1 != s.matched)
  }

  ghost predicate Shows(e: seq<(char, bool)>, start: seq<(char, bool)>)
    requires |start| <= |e|
  {
    forall k | 0 <= k < |start| :: start[k] == e[k]
  }

  lemma SameStart(e: seq<(char, bool)>, a: seq<(char, bool)>, b: seq<(char, bool)>)
    requires |a| == |b| <= |e| && Shows(e, a) && Shows(e, b)
    ensures a == b
  {
  }

  lemma SameText(e: seq<(char, bool)>, from: nat, s: Section, t: Section)
    requires from + |s.text| == from + |t.text| == |e|
    requires forall k | 0 <= k < |s.text| :: e[from + k] == (s.text[k], s.matched)
    requires forall k | 0 <= k < |t.text| :: e[from + k] == (t.text[k], t.matched)
    ensures s.text == t.text
  {
    forall k | 0 <= k < |s.text|
      ensures s.text[k] == t.text[k]
    {
      assert e[from + k] == (s.text[k], s.matched);
    }
  }

  lemma SameEnd(e: seq<(char, bool)>, a: seq<(char, bool)>, s: Section, b: seq<(char, bool)>, t: Section)
    requires EndsWith(e, a, s) && EndsWith(e, b, t)
    ensures a == b && s == t
  {
    hide Shows;
    LastFormat(e, a, s);
    LastFormat(e, b, t);
    NotLonger(e, a, s, b, t);
    NotLonger(e, b, t, a, s);
    SameStart(e, a, b);
    SameText(e, |a|, s, t);
  }

  lemma LastFormat(e: seq<(char, bool)>, a: seq<(char, bool)>, s: Section)
    requires EndsWith(e, a, s)
    ensures e != [] && s.matched == e[|e| - 1].1
  {
    hide Shows;
    assert e[|a| + (|s.text| - 1)] == (s.text[|s.text| - 1], s.matched);
  }

  lemma NotLonger(e: seq<(char, bool)>, a: seq<(char, bool)>, s: Section, b: seq<(char, bool)>, t: Section)
    requires EndsWith(e, a, s) && EndsWith(e, b, t) && s.matched == t.matched
    ensures |a| <= |b|
  {
    hide Shows;
    forall k | |b| <= k < |e|
      ensures e[k].1 == t.matched
    {
      assert e[|b| + (k - |b|)] == (t.text[k - |b|], t.matched);
    }
  }

  lemma LastSection(init: seq<Section>, s: Section)
    requires Normal(init + [s])
    ensures Normal(init) && EndsWith(Expand(init + [s]), Expand(init), s)
  {
    var all := init + [s];
    assert forall i | 0 <= i < |init| :: all[i] == init[i];
    assert all[|init|] == s;
    ExpandOneMore(init, s);
    if init != [] {
      var last := init[|init| - 1];
      assert init == init[..|init| - 1] + [last];
      ExpandOneMore(init[..|init| - 1], last);
    }
  }

  // ---------- Where the indices come from ----------

  ghost predicate Sorted(s: seq<nat>) {
    forall i, j | 0 <= i < j < |s| :: s[i] <= s[j]
  }

  lemma OneMoreIncreases(r: seq<nat>, x: nat)
    requires Increasing(r) && (r != [] ==> r[|r| - 1] < x)
    ensures Increasing(r + [x])
  {
  }

  /** `Vec::dedup`: drop each element that equals the one kept before it. */
  method Dedup(s: seq<nat>) returns (r: seq<nat>)
    ensures forall x :: x in r <==> x in s
    ensures Sorted(s) ==> Increasing(r)
  {
    r := [];
    for i := 0 to |s|
      invariant forall x :: x in r <==> x in s[..i]
      invariant i == 0 ==> r == []
      invariant i > 0 ==> r != [] && r[|r| - 1] == s[i - 1]
      invariant Sorted(s) ==> Increasing(r)
    {
      assert s[..i + 1] == s[..i] + [s[i]];
      if r == [] || r[|r| - 1] != s[i] {
        if Sorted(s) {
          OneMoreIncreases(r, s[i]);
        }
        r := r + [s[i]];
      }
    }
    assert s[..|s|] == s;
  }

  /**
   From the matcher's raw indices, sorted in any way and with duplicates dropped,
   the codepoints shown as matched are exactly those the matcher named.
   */
  method ShowMatches(text: string, raw: seq<nat>, sorted: seq<nat>) returns (sections: seq<Section>)
    requires multiset(sorted) == multiset(raw) && Sorted(sorted)
    ensures Text(sections) == text && Normal(sections) && |Expand(sections)| == |text|
    ensures forall i | 0 <= i < |text| :: Expand(sections)[i] == (text[i], i in raw)
  {
    var indices := Dedup(sorted);
    sections := LayoutLabelWithMatches(text, indices);
    LayoutSpellsLabel(sections, text, indices);
    forall i | 0 <= i < |text|
      ensures Expand(sections)[i] == (text[i], i in raw)
    {
      IncreasingListsAreExact(indices, i);
      assert i in raw <==> i in multiset(raw);
      assert i in sorted <==> i in multiset(sorted);
    }
  }
}

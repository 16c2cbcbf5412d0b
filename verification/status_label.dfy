/** Reading the combined status label back into its two dimensions. The
    round trip shows that the combined label of `GitStatusEntry.Status`
    loses nothing: both the index label and the work-dir label can be
    recovered from it. */
module StatusLabel {
  import opened Wrappers
  import opened StatusEntry

  const IndexPrefix := "Index: "
  const WorkDirPrefix := "WorkDir: "
  const Separator := ", "

  predicate NoComma(s: string) {
    forall j :: 0 <= j < |s| ==> s[j] != ','
  }

  /** The position of the first ',' in `s`, or `|s|` when there is none. */
  function CommaIndex(s: string): (k: nat)
    ensures k <= |s|
    ensures k < |s| ==> s[k] == ','
    ensures NoComma(s[..k])
  {
    if |s| == 0 then 0
    else if s[0] == ',' then 0
    else
      var k := CommaIndex(s[1..]);
      assert s[..k + 1] == [s[0]] + s[1..][..k];
      k + 1
  }

  /** Splits a combined label into (index label, work-dir label); None
      when the text is not in the combined-label format. */
  function ParseStatus(s: string): Option<(string, string)>
  {
    if s == Unmodified then Some((Unmodified, Unmodified))
    else if |s| >= |IndexPrefix| && s[..|IndexPrefix|] == IndexPrefix then
      var rest := s[|IndexPrefix|..];
      var k := CommaIndex(rest);
      var tail := Separator + WorkDirPrefix;
      if k == |rest| then Some((rest, Unmodified))
      else if |rest| - k >= |tail| && rest[k..k + |tail|] == tail then
        Some((rest[..k], rest[k + |tail|..]))
      else None
    else if |s| >= |WorkDirPrefix| && s[..|WorkDirPrefix|] == WorkDirPrefix then
      Some((Unmodified, s[|WorkDirPrefix|..]))
    else None
  }

  lemma LabelsHaveNoComma(f: set<Flag>)
    ensures NoComma(IndexStatus(f))
    ensures NoComma(WorkDirStatus(f))
  {
  }

  /** The first comma of `a + b` is the one that starts `b`, when `a` has none. */
  lemma CommaAfterPrefix(a: string, b: string)
    requires NoComma(a)
    requires |b| > 0 && b[0] == ','
    ensures CommaIndex(a + b) == |a|
  {
    assert (a + b)[|a|] == ',';
  }

  lemma ParseIndexOnly(i: string)
    requires NoComma(i)
    ensures ParseStatus(IndexPrefix + i) == Some((i, Unmodified))
  {
    var s := IndexPrefix + i;
    assert s[0] != Unmodified[0];
    assert s[..|IndexPrefix|] == IndexPrefix;
    assert s[|IndexPrefix|..] == i;
  }

  lemma ParseWorkDirOnly(w: string)
    ensures ParseStatus(WorkDirPrefix + w) == Some((Unmodified, w))
  {
    var s := WorkDirPrefix + w;
    assert s[0] != Unmodified[0];
    assert s[0] != IndexPrefix[0];
    assert s[..|WorkDirPrefix|] == WorkDirPrefix;
    assert s[|WorkDirPrefix|..] == w;
  }

  lemma ParseBoth(i: string, w: string)
    requires NoComma(i)
    ensures ParseStatus(IndexPrefix + i + Separator + WorkDirPrefix + w) == Some((i, w))
  {
    var tail := Separator + WorkDirPrefix;
    var s := IndexPrefix + i + Separator + WorkDirPrefix + w;
    assert s == IndexPrefix + (i + (tail + w));
    assert s[0] != Unmodified[0];
    assert s[..|IndexPrefix|] == IndexPrefix;
    var rest := s[|IndexPrefix|..];
    assert rest == i + (tail + w);
    CommaAfterPrefix(i, tail + w);
    assert rest[|i|..] == tail + w;
    assert rest[|i|..|i| + |tail|] == (tail + w)[..|tail|] == tail;
    assert rest[..|i|] == i;
    assert rest[|i| + |tail|..] == w;
  }

  /** The combined label determines both dimension labels. */
  lemma {:induction false} StatusRoundTrip(f: set<Flag>)
    ensures ParseStatus(Status(f)) == Some((IndexStatus(f), WorkDirStatus(f)))
  {
    var i, w := IndexStatus(f), WorkDirStatus(f);
    LabelsHaveNoComma(f);
    if i == Unmodified && w == Unmodified {
    } else if w == Unmodified {
      ParseIndexOnly(i);
    } else if i == Unmodified {
      ParseWorkDirOnly(w);
    } else {
      ParseBoth(i, w);
    }
  }

  /** Two flag sets with the same combined label have the same index label
      and the same work-dir label. */
  lemma StatusDeterminesLabels(f: set<Flag>, g: set<Flag>)
    requires Status(f) == Status(g)
    ensures IndexStatus(f) == IndexStatus(g) && WorkDirStatus(f) == WorkDirStatus(g)
  {
    StatusRoundTrip(f);
    StatusRoundTrip(g);
  }
}

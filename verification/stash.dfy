/** The stash projection (`GitStash`): a stash is shown with its position
    in the stash list and the reference name `stash@{n}` that git accepts
    for it. */
module Stash {
  import opened Wrappers

  /** The fields of a library stash the projection reads. */
  datatype StashRecord = StashRecord(message: string, workTreeSha: string)

  /** A stash together with its position in the enumeration (0 = newest). */
  datatype Stash = Stash(index: nat, record: StashRecord)

  const ReferencePrefix := "stash@{"

  predicate IsDigit(c: char) {
    '0' <= c <= '9'
  }

  function DigitChar(d: nat): (c: char)
    requires d < 10
    ensures IsDigit(c)
  {
    "0123456789"[d]
  }

  function DigitValue(c: char): nat
    requires IsDigit(c)
  {
    (c - '0') as nat
  }

  /** The decimal text of `n`, as `int.ToString()` prints a non-negative int. */
  function Decimal(n: nat): (s: string)
    ensures |s| > 0
    ensures forall k :: 0 <= k < |s| ==> IsDigit(s[k])
    ensures |s| > 1 ==> s[0] != '0'
  {
    if n < 10 then [DigitChar(n)]
    else Decimal(n / 10) + [DigitChar(n % 10)]
  }

  /** The value of a string of decimal digits. */
  function DigitsValue(s: string): nat
    requires forall k :: 0 <= k < |s| ==> IsDigit(s[k])
  {
    if |s| == 0 then 0
    else DigitsValue(s[..|s| - 1]) * 10 + DigitValue(s[|s| - 1])
  }

  lemma DigitRoundTrip(d: nat)
    requires d < 10
    ensures DigitValue(DigitChar(d)) == d
  {
  }

  /** Reading the decimal text of `n` gives back `n`. */
  lemma {:induction false} DecimalRoundTrip(n: nat)
    ensures DigitsValue(Decimal(n)) == n
  {
    if n < 10 {
      DigitRoundTrip(n);
    } else {
      var s := Decimal(n);
      assert s[..|s| - 1] == Decimal(n / 10);
      DecimalRoundTrip(n / 10);
      DigitRoundTrip(n % 10);
    }
  }

  /** The reference name of the stash at position `index`. */
  function Reference(index: nat): (r: string)
    ensures |r| > |ReferencePrefix| + 1
    ensures r[..|ReferencePrefix|] == ReferencePrefix
    ensures r[|r| - 1] == '}'
    ensures r[|ReferencePrefix|..|r| - 1] == Decimal(index)
  {
    ReferencePrefix + Decimal(index) + "}"
  }

  /** The stash position named by a reference, if it is one. */
  function ParseReference(r: string): Option<nat>
  {
    if |r| > |ReferencePrefix| + 1 && r[..|ReferencePrefix|] == ReferencePrefix && r[|r| - 1] == '}' then
      var digits := r[|ReferencePrefix|..|r| - 1];
      if forall k :: 0 <= k < |digits| ==> IsDigit(digits[k]) then Some(DigitsValue(digits)) else None
    else None
  }

  /** A reference names the stash it was made for. */
  lemma ReferenceRoundTrip(index: nat)
    ensures ParseReference(Reference(index)) == Some(index)
  {
    DecimalRoundTrip(index);
  }

  /** Distinct positions have distinct reference names. */
  lemma ReferenceInjective(i: nat, j: nat)
    requires Reference(i) == Reference(j)
    ensures i == j
  {
    ReferenceRoundTrip(i);
    ReferenceRoundTrip(j);
  }

  /** The display text of a stash: its reference name, ": " and its message. */
  function StashText(s: Stash): (r: string)
    ensures |r| == |Reference(s.index)| + 2 + |s.record.message|
    ensures r[..|Reference(s.index)|] == Reference(s.index)
    ensures r[|Reference(s.index)|..] == ": " + s.record.message
  {
    Reference(s.index) + ": " + s.record.message
  }

  /** The stashes of the enumeration `records`, numbered from `start` in
      enumeration order, as `Select((s, index) => ...)` numbers them. */
  function NumberFrom(records: seq<StashRecord>, start: nat): (r: seq<Stash>)
    ensures |r| == |records|
    ensures forall k :: 0 <= k < |r| ==> r[k].index == start + k && r[k].record == records[k]
  {
    if |records| == 0 then []
    else [Stash(start, records[0])] + NumberFrom(records[1..], start + 1)
  }

  /** The stash list: positions 0 .. n-1, the newest stash first. */
  function Number(records: seq<StashRecord>): (r: seq<Stash>)
    ensures |r| == |records|
    ensures forall k :: 0 <= k < |r| ==> r[k].index == k && r[k].record == records[k]
  {
    NumberFrom(records, 0)
  }

  /** No two stashes of one enumeration share a reference name. */
  lemma NumberedReferencesDistinct(records: seq<StashRecord>, i: nat, j: nat)
    requires i < |records| && j < |records| && i != j
    ensures Reference(Number(records)[i].index) != Reference(Number(records)[j].index)
  {
    if Reference(Number(records)[i].index) == Reference(Number(records)[j].index) {
      ReferenceInjective(i, j);
    }
  }
}

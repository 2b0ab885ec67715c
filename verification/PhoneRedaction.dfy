/** Writing every phone number of a line as `<phone>`, and why what is left is still text. */
module PhoneRedaction {
  import opened Sequences
  import opened PhoneNumbers

  /** The bytes of `<phone>`. */
  const MARK: Bytes := [60, 112, 104, 111, 110, 101, 62]

  /** Whether a number may begin at `i`: a `+` may follow anything but a word, a figure nothing that joins it to what is before. */
  predicate MayStart(s: Bytes, i: nat)
    requires i < |s|
  {
    && (s[i] == PLUS || s[i] == OPEN || IsDigit(s[i]))
    && (i == 0 || (!IsAlphanumeric(s[i - 1]) && (s[i] == PLUS || !Joins(s[i - 1]))))
  }

  /** A number begins at `i` and ends before `end`. */
  ghost predicate PhoneFrom(s: Bytes, i: nat, end: nat) {
    i < |s| && MayStart(s, i) && PhoneEnd(s, i) == Some(end)
  }

  /** Intervals from `from` on, left to right and apart, each of them a whole number. */
  ghost predicate PhonesIn(s: Bytes, from: nat, to: nat, cuts: seq<(nat, nat)>) {
    && (forall k :: 0 <= k < |cuts| ==> PhoneFrom(s, cuts[k].0, cuts[k].1) && cuts[k].0 < cuts[k].1 <= to)
    && (forall k :: 0 <= k < |cuts| ==> (if k == 0 then from else cuts[k - 1].1) <= cuts[k].0)
  }

  predicate Within(cuts: seq<(nat, nat)>, i: nat) {
    exists k :: 0 <= k < |cuts| && cuts[k].0 <= i < cuts[k].1
  }

  /** No number begins outside the intervals. */
  ghost predicate NoneMissed(s: Bytes, to: nat, cuts: seq<(nat, nat)>) {
    forall i :: 0 <= i < to && i < |s| && !Within(cuts, i) ==> !(MayStart(s, i) && PhoneEnd(s, i).Some?)
  }

  /** The end of the last interval: how far the line is copied out. */
  function Copied(cuts: seq<(nat, nat)>): nat {
    if cuts == [] then 0 else cuts[|cuts| - 1].1
  }

  predicate CutsFit(s: Bytes, cuts: seq<(nat, nat)>) {
    cuts == [] ||
    (var before, last := cuts[..|cuts| - 1], cuts[|cuts| - 1];
     CutsFit(s, before) && Copied(before) <= last.0 <= last.1 <= |s|)
  }

  /** The line up to the end of the last interval, with each interval replaced. */
  function Spliced(s: Bytes, cuts: seq<(nat, nat)>): Bytes
    requires CutsFit(s, cuts)
  {
    if cuts == [] then [] else
    var before, last := cuts[..|cuts| - 1], cuts[|cuts| - 1];
    Spliced(s, before) + s[Copied(before)..last.0] + MARK
  }

  lemma {:induction false} PhonesFit(s: Bytes, to: nat, cuts: seq<(nat, nat)>)
    requires PhonesIn(s, 0, to, cuts) && to <= |s|
    ensures CutsFit(s, cuts) && Copied(cuts) <= to
  {
    hide PhoneFrom;
    if cuts != [] {
      PhonesFit(s, to, cuts[..|cuts| - 1]);
    }
  }

  /** `out` is `line` with exactly its phone numbers replaced, at `cuts`, and every other byte kept in order. */
  ghost predicate IsRedaction(line: Bytes, cuts: seq<(nat, nat)>, out: Bytes) {
    && PhonesIn(line, 0, |line|, cuts)
    && NoneMissed(line, |line|, cuts)
    && CutsFit(line, cuts)
    && Copied(cuts) <= |line|
    && out == Spliced(line, cuts) + line[Copied(cuts)..]
  }

  lemma {:induction false} NextCut(s: Bytes, cuts: seq<(nat, nat)>, i: nat, end: nat)
    requires PhonesIn(s, 0, i, cuts) && NoneMissed(s, i, cuts) && PhoneFrom(s, i, end) && i < end <= |s|
    ensures PhonesIn(s, 0, end, cuts + [(i, end)]) && NoneMissed(s, end, cuts + [(i, end)])
  {
    hide PhoneFrom;
    var next := cuts + [(i, end)];
    forall j | 0 <= j < end && j < |s| && !Within(next, j) ensures !(MayStart(s, j) && PhoneEnd(s, j).Some?) {
      assert next[|cuts|] == (i, end);
      assert j < i;
      assert forall k :: 0 <= k < |cuts| ==> next[k] == cuts[k];
    }
  }

  /** Each phone number of the line written as `<phone>`. */
  method RedactPhones(line: Bytes) returns (out: Bytes)
    ensures exists cuts :: IsRedaction(line, cuts, out)
  {
    hide PhoneFrom, PhoneEnd;
    out := [];
    ghost var cuts: seq<(nat, nat)> := [];
    var copied, i := 0, 0;
    while i < |line|
      invariant 0 <= copied <= i <= |line|
      invariant PhonesIn(line, 0, i, cuts) && NoneMissed(line, i, cuts) && CutsFit(line, cuts)
      invariant copied == Copied(cuts) && out == Spliced(line, cuts)
    {
      var end := None;
      if MayStart(line, i) {
        end := PhoneAt(line, i);
      }
      if end.Some? {
        assert PhoneFrom(line, i, end.value) by { ThatIsAPhone(line, i, end.value); }
        NextCut(line, cuts, i, end.value);
        SplicedOneMore(line, cuts, i, end.value);
        out := out + line[copied..i] + MARK;
        cuts := cuts + [(i, end.value)];
        copied := end.value;
        i := end.value;
      } else {
        NoCut(line, cuts, i);
        i := i + 1;
      }
    }
    out := out + line[copied..];
    assert IsRedaction(line, cuts, out);
  }

  lemma {:induction false} ThatIsAPhone(s: Bytes, i: nat, end: nat)
    requires i < |s| && MayStart(s, i) && PhoneEnd(s, i) == Some(end)
    ensures PhoneFrom(s, i, end)
  {
  }

  lemma {:induction false} NoCut(s: Bytes, cuts: seq<(nat, nat)>, i: nat)
    requires PhonesIn(s, 0, i, cuts) && NoneMissed(s, i, cuts) && i < |s|
    requires !(MayStart(s, i) && PhoneEnd(s, i).Some?)
    ensures PhonesIn(s, 0, i + 1, cuts) && NoneMissed(s, i + 1, cuts)
  {
    hide PhoneFrom;
  }

  lemma {:induction false} SplicedOneMore(s: Bytes, cuts: seq<(nat, nat)>, i: nat, end: nat)
    requires CutsFit(s, cuts) && Copied(cuts) <= i <= end <= |s|
    ensures CutsFit(s, cuts + [(i, end)]) && Copied(cuts + [(i, end)]) == end
    ensures Spliced(s, cuts + [(i, end)]) == Spliced(s, cuts) + s[Copied(cuts)..i] + MARK
  {
    assert (cuts + [(i, end)])[..|cuts|] == cuts;
  }

  // There is one redaction of a line.

  lemma {:induction false} CutsAscend(s: Bytes, cuts: seq<(nat, nat)>, i: nat, j: nat)
    requires PhonesIn(s, 0, |s|, cuts) && i <= j < |cuts|
    ensures cuts[i].0 <= cuts[j].0 && (i < j ==> cuts[i].1 <= cuts[j].0)
  {
    hide PhoneFrom;
    if i < j {
      CutsAscend(s, cuts, i, j - 1);
    }
  }

  lemma {:induction false} NoPhoneIsOutside(s: Bytes, cuts: seq<(nat, nat)>, i: nat, end: nat)
    requires NoneMissed(s, |s|, cuts) && PhoneFrom(s, i, end)
    ensures Within(cuts, i)
  {
    hide PhoneEnd;
  }

  /** Of two redactions that agree on `k` intervals, the second has a next one that starts no later than the first's. */
  lemma {:induction false} StartsNoLater(s: Bytes, a: seq<(nat, nat)>, b: seq<(nat, nat)>, k: nat)
    requires PhonesIn(s, 0, |s|, a) && PhonesIn(s, 0, |s|, b) && NoneMissed(s, |s|, b)
    requires k < |a| && k <= |b| && a[..k] == b[..k]
    ensures k < |b| && b[k].0 <= a[k].0
  {
    hide PhoneFrom, NoneMissed;
    NoPhoneIsOutside(s, b, a[k].0, a[k].1);
    var j :| 0 <= j < |b| && b[j].0 <= a[k].0 < b[j].1;
    if j < k {
      assert a[..k][j] == b[..k][j];
      CutsAscend(s, a, j, k);
      assert false;
    }
    CutsAscend(s, b, k, j);
  }

  lemma {:induction false} SameStartSameEnd(s: Bytes, i: nat, end: nat, other: nat)
    requires PhoneFrom(s, i, end) && PhoneFrom(s, i, other)
    ensures end == other
  {
    hide PhoneEnd;
  }

  lemma {:induction false} CutsAreDetermined(s: Bytes, a: seq<(nat, nat)>, b: seq<(nat, nat)>, k: nat)
    requires PhonesIn(s, 0, |s|, a) && NoneMissed(s, |s|, a)
    requires PhonesIn(s, 0, |s|, b) && NoneMissed(s, |s|, b)
    requires k <= |a|
    ensures k <= |b| && a[..k] == b[..k]
  {
    hide PhoneFrom, NoneMissed;
    if k > 0 {
      CutsAreDetermined(s, a, b, k - 1);
      StartsNoLater(s, a, b, k - 1);
      StartsNoLater(s, b, a, k - 1);
      SameStartSameEnd(s, a[k - 1].0, a[k - 1].1, b[k - 1].1);
      assert a[..k] == a[..k - 1] + [a[k - 1]];
      assert b[..k] == b[..k - 1] + [b[k - 1]];
    }
  }

  /** A line has one redaction. */
  lemma {:induction false} RedactionIsDetermined(line: Bytes, a: seq<(nat, nat)>, b: seq<(nat, nat)>, outA: Bytes, outB: Bytes)
    requires IsRedaction(line, a, outA) && IsRedaction(line, b, outB)
    ensures a == b && outA == outB
  {
    CutsAreDetermined(line, a, b, |a|);
    CutsAreDetermined(line, b, a, |b|);
    assert a[..|a|] == a && b[..|b|] == b;
  }

  // UTF-8 (section 4 of RFC 3629).

  predicate IsTail(b: Byte) { 0x80 <= b <= 0xBF }

  /** The length of the character that `s` begins with; zero when it begins with none. */
  function CharLength(s: Bytes): nat {
    if s == [] then 0
    else if s[0] <= 0x7F then 1
    else if 0xC2 <= s[0] <= 0xDF && |s| >= 2 && IsTail(s[1]) then 2
    else if |s| >= 3 && IsTail(s[2])
            && ((s[0] == 0xE0 && 0xA0 <= s[1] <= 0xBF) || (s[0] == 0xED && 0x80 <= s[1] <= 0x9F)
                || (0xE1 <= s[0] <= 0xEF && s[0] != 0xED && IsTail(s[1]))) then 3
    else if |s| >= 4 && IsTail(s[2]) && IsTail(s[3])
            && ((s[0] == 0xF0 && 0x90 <= s[1] <= 0xBF) || (s[0] == 0xF4 && 0x80 <= s[1] <= 0x8F)
                || (0xF1 <= s[0] <= 0xF3 && IsTail(s[1]))) then 4
    else 0
  }

  predicate IsUtf8(s: Bytes) {
    s == [] || (0 < CharLength(s) <= |s| && IsUtf8(s[CharLength(s)..]))
  }

  /** Where a text may be cut: at its ends, and before anything but the tail of a character. */
  predicate IsBoundary(s: Bytes, i: nat) {
    i == 0 || i == |s| || (i < |s| && !IsTail(s[i]))
  }

  lemma {:induction false} TailsAfterHead(s: Bytes, i: nat)
    requires 0 < i < CharLength(s)
    ensures i < |s| && IsTail(s[i])
  {
  }

  lemma {:induction false} HeadIsNoTail(s: Bytes)
    requires IsUtf8(s) && s != []
    ensures !IsTail(s[0])
  {
  }

  /** On both sides of an ASCII byte a text may be cut. */
  lemma {:induction false} AsciiHasBoundaries(s: Bytes, i: nat)
    requires IsUtf8(s) && i < |s| && s[i] <= 0x7F
    ensures IsBoundary(s, i) && IsBoundary(s, i + 1)
    decreases |s|
  {
    var n := CharLength(s);
    if i == 0 {
      if |s| > 1 {
        HeadIsNoTail(s[1..]);
      }
    } else if i < n {
      TailsAfterHead(s, i);
      assert false;
    } else {
      AsciiHasBoundaries(s[n..], i - n);
      assert s[n..][i - n] == s[i];
      assert i + 1 < |s| ==> s[n..][i + 1 - n] == s[i + 1];
    }
  }

  lemma {:induction false} CharLengthOfPrefix(s: Bytes, t: Bytes)
    requires 0 < CharLength(s) <= |s|
    ensures CharLength(s + t) == CharLength(s)
  {
  }

  lemma {:induction false} Utf8Joins(a: Bytes, b: Bytes)
    requires IsUtf8(a) && IsUtf8(b)
    ensures IsUtf8(a + b)
    decreases |a|
  {
    if a == [] {
      assert a + b == b;
    } else {
      var n := CharLength(a);
      CharLengthOfPrefix(a, b);
      Utf8Joins(a[n..], b);
      assert (a + b)[n..] == a[n..] + b;
    }
  }

  lemma {:induction false} Utf8Cuts(s: Bytes, i: nat)
    requires IsUtf8(s) && i <= |s| && IsBoundary(s, i)
    ensures IsUtf8(s[..i]) && IsUtf8(s[i..])
    decreases |s|
  {
    var n := CharLength(s);
    if i == 0 || i == |s| {
      assert s[..|s|] == s && s[0..] == s;
    } else if i < n {
      TailsAfterHead(s, i);
      assert false;
    } else {
      assert i < |s| ==> s[n..][i - n] == s[i];
      Utf8Cuts(s[n..], i - n);
      CharLengthOfShorter(s, i);
      assert s[..i][n..] == s[n..][..i - n];
      assert s[i..] == s[n..][i - n..];
    }
  }

  lemma {:induction false} CharLengthOfShorter(s: Bytes, i: nat)
    requires 0 < CharLength(s) <= i <= |s|
    ensures CharLength(s[..i]) == CharLength(s)
  {
  }

  lemma {:induction false} CutsAreBoundaries(line: Bytes, i: nat, end: nat)
    requires IsUtf8(line) && PhoneFrom(line, i, end) && i < end <= |line|
    ensures IsBoundary(line, i) && IsBoundary(line, end)
  {
    hide IsUtf8, LongestPhone;
    PhoneEndsInAscii(line, i, end);
    AsciiHasBoundaries(line, i);
    AsciiHasBoundaries(line, end - 1);
  }

  lemma {:induction false} GroupEndsInAscii(s: Bytes, g: Group)
    requires IsGroup(s, g)
    ensures 0 < g.End() <= |s| && s[g.End() - 1] <= 0x7F
  {
  }

  lemma {:induction false} PhoneEndsInAscii(s: Bytes, i: nat, end: nat)
    requires i < |s| && PhoneEnd(s, i) == Some(end) && 0 < end <= |s|
    ensures s[end - 1] <= 0x7F
  {
    hide IsGroup, IsNumber, NextStart, UsesBracket;
    var gs := LongestPhone(s, i);
    GroupEndsInAscii(s, gs[|gs| - 1]);
  }

  /** Every cut is a character boundary, and what comes out of a text is a text. */
  lemma {:induction false} RedactionIsUtf8(line: Bytes, cuts: seq<(nat, nat)>, out: Bytes)
    requires IsUtf8(line) && IsRedaction(line, cuts, out)
    ensures forall k :: 0 <= k < |cuts| ==> IsBoundary(line, cuts[k].0) && IsBoundary(line, cuts[k].1)
    ensures IsUtf8(out)
  {
    hide PhoneFrom;
    forall k | 0 <= k < |cuts| ensures IsBoundary(line, cuts[k].0) && IsBoundary(line, cuts[k].1) {
      CutsAreBoundaries(line, cuts[k].0, cuts[k].1);
    }
    SplicedIsUtf8(line, cuts);
    Utf8Cuts(line, Copied(cuts));
    Utf8Joins(Spliced(line, cuts), line[Copied(cuts)..]);
  }

  lemma {:induction false} SplicedIsUtf8(line: Bytes, cuts: seq<(nat, nat)>)
    requires IsUtf8(line) && CutsFit(line, cuts)
    requires forall k :: 0 <= k < |cuts| ==> IsBoundary(line, cuts[k].0) && IsBoundary(line, cuts[k].1)
    ensures IsUtf8(Spliced(line, cuts)) && IsBoundary(line, Copied(cuts))
  {
    if cuts != [] {
      var before, last := cuts[..|cuts| - 1], cuts[|cuts| - 1];
      SplicedIsUtf8(line, before);
      SliceIsUtf8(line, Copied(before), last.0);
      Utf8Joins(Spliced(line, before), line[Copied(before)..last.0]);
      MarkIsUtf8();
      Utf8Joins(Spliced(line, before) + line[Copied(before)..last.0], MARK);
    }
  }

  lemma {:induction false} SliceIsUtf8(s: Bytes, i: nat, j: nat)
    requires IsUtf8(s) && i <= j <= |s| && IsBoundary(s, i) && IsBoundary(s, j)
    ensures IsUtf8(s[i..j])
  {
    Utf8Cuts(s, j);
    var t := s[..j];
    assert IsBoundary(t, i);
    Utf8Cuts(t, i);
    assert t[i..] == s[i..j];
  }

  lemma {:induction false} MarkIsUtf8()
    ensures IsUtf8(MARK)
  {
    hide IsUtf8;
    AsciiIsUtf8(MARK);
  }

  lemma {:induction false} AsciiIsUtf8(s: Bytes)
    requires forall i :: 0 <= i < |s| ==> s[i] <= 0x7F
    ensures IsUtf8(s)
  {
    if s != [] {
      AsciiIsUtf8(s[1..]);
    }
  }
}

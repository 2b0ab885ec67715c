/** What a redacted phone number looks like, and what always is redacted, told from the bytes alone. */
module PhoneShapes {
  import opened Sequences
  import opened PhoneNumbers
  import opened PhoneRedaction

  /** How many of the bytes from `from` to `to` are digits. */
  function DigitsIn(s: Bytes, from: nat, to: nat): nat
    requires from <= to <= |s|
  {
    if from == to then 0 else DigitsIn(s, from, to - 1) + if 48 <= s[to - 1] <= 57 then 1 else 0
  }

  /** A letter or a digit. */
  predicate IsWordByte(b: Byte) { 48 <= b <= 57 || 65 <= b <= 90 || 97 <= b <= 122 }

  /** Nothing before `i` joins it to a word; and before anything but a `+`, none of `._-/\:+@#$%&=` does. */
  predicate StandsApart(s: Bytes, i: nat)
    requires i < |s|
  {
    i == 0 ||
    (&& !IsWordByte(s[i - 1])
     && (s[i] == 43 || s[i - 1] !in {46, 95, 45, 47, 92, 58, 43, 64, 35, 36, 37, 38, 61}))
  }

  predicate EndsHere(s: Bytes, end: nat) {
    end == |s| || (end < |s| && !IsWordByte(s[end]))
  }

  // What is redacted is a number.

  lemma {:induction false} DigitsAdd(s: Bytes, a: nat, b: nat, c: nat)
    requires a <= b <= c <= |s|
    ensures DigitsIn(s, a, c) == DigitsIn(s, a, b) + DigitsIn(s, b, c)
  {
    if b < c {
      DigitsAdd(s, a, b, c - 1);
    }
  }

  lemma {:induction false} AllDigits(s: Bytes, a: nat, b: nat)
    requires a <= b <= |s| && forall i :: a <= i < b ==> IsDigit(s[i])
    ensures DigitsIn(s, a, b) == b - a
  {
    if a < b {
      AllDigits(s, a, b - 1);
    }
  }

  lemma {:induction false} DigitsOfGroup(s: Bytes, g: Group)
    requires IsGroup(s, g)
    ensures g.start <= g.End() <= |s| && DigitsIn(s, g.start, g.End()) == g.len
  {
    AllDigits(s, g.DigitsFrom(), g.DigitsEnd());
    if g.bracketed {
      DigitsAdd(s, g.start, g.DigitsFrom(), g.End());
      DigitsAdd(s, g.DigitsFrom(), g.DigitsEnd(), g.End());
    }
  }

  function EndOf(first: nat, gs: seq<Group>): nat {
    if gs == [] then first else gs[|gs| - 1].End()
  }

  /** A byte that a number is written with, apart from its `+`. */
  predicate IsPhoneByte(b: Byte) { 48 <= b <= 57 || b in {32, 45, 46, 40, 41} }

  lemma {:induction false} SumOfLengths(gs: seq<Group>)
    requires gs != []
    ensures Sum(Lengths(gs)) == Sum(Lengths(gs[..|gs| - 1])) + gs[|gs| - 1].len
  {
    assert Lengths(gs)[..|gs| - 1] == Lengths(gs[..|gs| - 1]);
  }

  lemma {:induction false} ChainDigits(s: Bytes, first: nat, gs: seq<Group>)
    requires Chain(s, first, gs) && first <= |s|
    ensures first <= EndOf(first, gs) <= |s|
    ensures DigitsIn(s, first, EndOf(first, gs)) == Sum(Lengths(gs))
    ensures forall i :: first <= i < EndOf(first, gs) ==> IsPhoneByte(s[i])
  {
    if gs != [] {
      hide IsGroup, Lengths, Sum;
      var before, g := gs[..|gs| - 1], gs[|gs| - 1];
      var mid := EndOf(first, before);
      ChainDigits(s, first, before);
      DigitsOfGroup(s, g);
      SumOfLengths(gs);
      assert g.start == mid || (g.start == mid + 1 && IsSeparator(s[mid]));
      DigitsAdd(s, first, mid, g.End());
      DigitsAdd(s, mid, g.start, g.End());
      GroupBytes(s, g);
    }
  }

  lemma {:induction false} GroupBytes(s: Bytes, g: Group)
    requires IsGroup(s, g) && g.End() <= |s|
    ensures forall i :: g.start <= i < g.End() ==> IsPhoneByte(s[i])
  {
  }

  // The grammar in bytes.

  /** Whether the last group, of `n` digits, ends at `end`, in brackets or not: what is left is where it begins. */
  predicate IsLastGroup(s: Bytes, start: nat, n: nat, bracketed: bool, end: nat) {
    && end <= |s| && n > 0
    && (if bracketed
        then 2 <= n <= 4 && end == start + n + 2 && s[start] == 40 && s[end - 1] == 41
             && forall i :: start < i < end - 1 ==> 48 <= s[i] <= 57
        else end == start + n && forall i :: start <= i < end ==> 48 <= s[i] <= 57)
  }

  /** Where a group of `n` digits that ends at `end` starts. */
  function StartOfLast(n: nat, bracketed: bool, end: nat): int {
    if bracketed then end - n - 2 else end - n
  }

  /**
   From `from` to `end`, groups of digits of these lengths, the one at `area` in
   brackets if there is one: two to four digits in brackets, and between two
   groups a space, a hyphen or a full stop, which may be missing after a bracket.
   */
  predicate Spells(s: Bytes, from: nat, lens: seq<nat>, area: int, end: nat)
    requires lens != []
    decreases |lens|
  {
    var last := |lens| - 1;
    var start := StartOfLast(lens[last], area == last, end);
    && start >= 0 && IsLastGroup(s, start, lens[last], area == last, end)
    && (if last == 0 then start == from
        else
          || (start > 0 && s[start - 1] in {32, 45, 46} && Spells(s, from, lens[..last], area, start - 1))
          || (area == last - 1 && Spells(s, from, lens[..last], area, start)))
  }

  /** The digit groups of an international number, a North American one with or without its 1, or a national one with its 0. */
  predicate IsShape(s: Bytes, i: nat, lens: seq<nat>, end: nat)
    requires i < end <= |s|
  {
    if s[i] == 43 then 8 <= DigitsIn(s, i, end) <= 15
    else
      || lens == [3, 3, 4]
      || (lens == [1, 3, 3, 4] && s[i] == 49)
      || (s[i] == 48 && lens != [] && lens[0] >= 3 && 10 <= DigitsIn(s, i, end) <= 11)
  }

  ghost predicate IsWrittenAs(s: Bytes, i: nat, end: nat, lens: seq<nat>, area: int) {
    && i < end <= |s| && lens != []
    && Spells(s, if s[i] == 43 then i + 1 else i, lens, area, end)
    && IsShape(s, i, lens, end)
  }

  /** A phone number from `i` to `end`: it stands apart from what is around it, and is written in one of the shapes. */
  ghost predicate IsNumberText(s: Bytes, i: nat, end: nat) {
    && i < end <= |s| && StandsApart(s, i) && EndsHere(s, end)
    && exists lens, area :: IsWrittenAs(s, i, end, lens, area)
  }

  // The scanner's groups are what the bytes spell.

  /** Which group of a chain is in brackets; -1 for none. */
  function AreaOf(gs: seq<Group>): int {
    if gs == [] then -1
    else if gs[|gs| - 1].bracketed then |gs| - 1 else AreaOf(gs[..|gs| - 1])
  }

  lemma {:induction false} AreaIsBracketed(gs: seq<Group>)
    ensures -1 <= AreaOf(gs) < |gs|
    ensures UsesBracket(gs) <==> AreaOf(gs) >= 0
    ensures AreaOf(gs) >= 0 ==> gs[AreaOf(gs)].bracketed
  {
    if gs != [] {
      var before, last := gs[..|gs| - 1], gs[|gs| - 1];
      AreaIsBracketed(before);
      assert gs == before + [last];
      UsesBracketSnoc(before, last);
    }
  }

  lemma {:induction false} GroupIsLast(s: Bytes, g: Group)
    requires IsGroup(s, g)
    ensures IsLastGroup(s, g.start, g.len, g.bracketed, g.End()) && StartOfLast(g.len, g.bracketed, g.End()) == g.start
  {
  }

  lemma {:induction false} NextStartsAfter(s: Bytes, from: nat, before: seq<Group>, start: nat)
    requires before != [] && NextStart(s, from, before) == Some(start)
    ensures
      var end := before[|before| - 1].End();
      || (start == end + 1 && end < |s| && s[end] in {32, 45, 46})
      || (start == end && before[|before| - 1].bracketed && DigitAt(s, end))
  {
  }

  /** One more group after what is spelled. */
  lemma {:induction false} SpellsSnoc(s: Bytes, from: nat, lens: seq<nat>, area: int, mid: nat, g: Group)
    requires lens != [] && Spells(s, from, lens, area, mid) && IsLastGroup(s, g.start, g.len, g.bracketed, g.End())
    requires g.bracketed <==> area == |lens|
    requires (g.start == mid + 1 && s[mid] in {32, 45, 46}) || (g.start == mid && area == |lens| - 1)
    ensures Spells(s, from, lens + [g.len], area, g.End())
  {
    assert (lens + [g.len])[..|lens|] == lens;
  }

  lemma {:induction false} SpellsOne(s: Bytes, from: nat, area: int, g: Group)
    requires IsLastGroup(s, g.start, g.len, g.bracketed, g.End()) && g.start == from && (g.bracketed <==> area == 0)
    ensures Spells(s, from, [g.len], area, g.End())
  {
  }

  lemma {:induction false} LengthsSnoc(gs: seq<Group>)
    requires gs != []
    ensures Lengths(gs) == Lengths(gs[..|gs| - 1]) + [gs[|gs| - 1].len]
  {
  }

  lemma {:induction false} ChainSpells(s: Bytes, from: nat, gs: seq<Group>)
    requires Chain(s, from, gs) && gs != []
    ensures |Lengths(gs)| == |gs| && Spells(s, from, Lengths(gs), AreaOf(gs), gs[|gs| - 1].End())
    decreases |gs|
  {
    hide Spells, IsLastGroup, IsGroup, NextStart, Lengths, UsesBracket;
    var before, g := gs[..|gs| - 1], gs[|gs| - 1];
    LengthsSnoc(gs);
    LengthsAreAsMany(gs);
    LengthsAreAsMany(before);
    AreaIsBracketed(before);
    GroupIsLast(s, g);
    if before == [] {
      FirstStart(s, from, g.start);
      assert Lengths(gs) == [g.len];
      SpellsOne(s, from, AreaOf(gs), g);
    } else {
      ChainSpells(s, from, before);
      NextStartsAfter(s, from, before, g.start);
      AreaIsLast(before);
      if g.bracketed {
        SpellsNoArea(s, from, Lengths(before), AreaOf(before), |before|, before[|before| - 1].End());
        BracketIsNoDigit(s, g);
      }
      SpellsSnoc(s, from, Lengths(before), AreaOf(gs), before[|before| - 1].End(), g);
    }
  }

  lemma {:induction false} FirstStart(s: Bytes, from: nat, start: nat)
    requires NextStart(s, from, []) == Some(start)
    ensures start == from
  {
  }

  lemma {:induction false} BracketIsNoDigit(s: Bytes, g: Group)
    requires IsGroup(s, g) && g.bracketed
    ensures !DigitAt(s, g.start)
  {
  }

  lemma {:induction false} AreaIsLast(gs: seq<Group>)
    requires gs != []
    ensures gs[|gs| - 1].bracketed ==> AreaOf(gs) == |gs| - 1
  {
  }

  /** An index past the groups names none of them. */
  lemma {:induction false} SpellsNoArea(s: Bytes, from: nat, lens: seq<nat>, area: int, other: int, end: nat)
    requires lens != [] && Spells(s, from, lens, area, end) && area < 0 && other >= |lens|
    ensures Spells(s, from, lens, other, end)
    decreases |lens|
  {
    var last := |lens| - 1;
    if last > 0 {
      SpellsNoArea(s, from, lens[..last], area, other, StartOfLast(lens[last], false, end) - 1);
    }
  }

  ghost predicate IsSpelling(s: Bytes, from: nat, lens: seq<nat>, area: int, end: nat, gs: seq<Group>) {
    && Chain(s, from, gs) && Lengths(gs) == lens && gs != [] && gs[|gs| - 1].End() == end
    && forall i :: 0 <= i < |gs| ==> (gs[i].bracketed <==> i == area)
  }

  lemma {:induction false} SpelledIsChain(s: Bytes, from: nat, lens: seq<nat>, area: int, end: nat) returns (gs: seq<Group>)
    requires lens != [] && Spells(s, from, lens, area, end) && (area != |lens| - 1 ==> !DigitAt(s, end))
    ensures IsSpelling(s, from, lens, area, end, gs)
    decreases |lens|
  {
    hide IsLastGroup, IsGroup, NextStart, Chain, UsesBracket;
    var last := |lens| - 1;
    var g := Group(StartOfLast(lens[last], area == last, end), lens[last], area == last);
    LastIsGroup(s, g);
    if last == 0 {
      gs := [g];
      StartsChain(s, g);
    } else {
      var separated := g.start > 0 && s[g.start - 1] in {32, 45, 46} && Spells(s, from, lens[..last], area, g.start - 1);
      assert area == last - 1 || separated;
      var before := SpelledIsChain(s, from, lens[..last], area, if separated then g.start - 1 else g.start);
      gs := before + [g];
      LengthsAreAsMany(before);
      FollowsAt(s, from, before, g);
      NoBracketBefore(before, area, last);
      ChainSnoc(s, from, before, g);
      LengthsSnoc(gs);
      assert gs[..|gs| - 1] == before;
      assert lens == lens[..last] + [lens[last]];
    }
  }

  lemma {:induction false} LastIsGroup(s: Bytes, g: Group)
    requires IsLastGroup(s, g.start, g.len, g.bracketed, g.End()) && (!g.bracketed ==> !DigitAt(s, g.End()))
    ensures IsGroup(s, g)
  {
  }

  lemma {:induction false} StartsChain(s: Bytes, g: Group)
    requires IsGroup(s, g)
    ensures Chain(s, g.start, [g]) && Lengths([g]) == [g.len]
  {
    ChainSnoc(s, g.start, [], g);
    assert [] + [g] == [g];
  }

  lemma {:induction false} FollowsAt(s: Bytes, from: nat, before: seq<Group>, g: Group)
    requires before != [] && IsGroup(s, g)
    requires
      var end := before[|before| - 1].End();
      || (g.start == end + 1 && s[end] in {32, 45, 46})
      || (g.start == end && before[|before| - 1].bracketed && !g.bracketed)
    ensures NextStart(s, from, before) == Some(g.start)
  {
  }

  lemma {:induction false} NoBracketBefore(before: seq<Group>, area: int, last: nat)
    requires |before| == last && forall i :: 0 <= i < |before| ==> (before[i].bracketed <==> i == area)
    ensures area == last ==> !UsesBracket(before)
  {
  }

  // What is redacted, and what is not left.

  lemma {:induction false} SumOfShape(lens: seq<nat>)
    ensures lens == [3, 3, 4] ==> Sum(lens) == 10
    ensures lens == [1, 3, 3, 4] ==> Sum(lens) == 11
  {
    if lens == [3, 3, 4] {
      assert lens[..2] == [3, 3] && [3, 3][..1] == [3];
      assert Sum(lens[..2]) == 6;
    }
    if lens == [1, 3, 3, 4] {
      assert lens[..3] == [1, 3, 3] && [1, 3, 3][..2] == [1, 3] && [1, 3][..1] == [1];
      assert Sum(lens[..3]) == 7 by { assert Sum([1, 3]) == 4; }
    }
  }

  /** The scanner's digit count is the count of the bytes. */
  lemma {:induction false} PhoneDigits(s: Bytes, i: nat, gs: seq<Group>)
    requires i < |s| && gs != [] && Chain(s, First(s, i), gs)
    ensures i < gs[|gs| - 1].End() <= |s| && DigitsIn(s, i, gs[|gs| - 1].End()) == Sum(Lengths(gs))
    ensures forall j :: i <= j < gs[|gs| - 1].End() ==> IsPhoneByte(s[j]) || (j == i && s[j] == 43)
  {
    hide Chain, Sum, Lengths;
    var first, end := First(s, i), gs[|gs| - 1].End();
    ChainDigits(s, first, gs);
    ChainAdvances(s, first, gs);
    DigitsAdd(s, i, first, end);
    assert DigitsIn(s, i, i) == 0;
  }

  lemma {:induction false} PhoneIsText(s: Bytes, i: nat, gs: seq<Group>)
    requires IsPhone(s, i, gs) && StandsApart(s, i)
    ensures IsNumberText(s, i, gs[|gs| - 1].End())
  {
    hide Chain, Spells, Sum, Lengths;
    PhoneDigits(s, i, gs);
    ChainSpells(s, First(s, i), gs);
    assert IsWrittenAs(s, i, gs[|gs| - 1].End(), Lengths(gs), AreaOf(gs));
  }

  lemma {:induction false} LengthsAreAsMany(gs: seq<Group>)
    ensures |Lengths(gs)| == |gs|
  {
  }

  lemma {:induction false} TextIsPhone(s: Bytes, i: nat, end: nat) returns (gs: seq<Group>)
    requires IsNumberText(s, i, end)
    ensures IsPhone(s, i, gs) && gs[|gs| - 1].End() == end && MayStart(s, i)
  {
    hide Chain, Spells, Sum, Lengths;
    var lens, area :| IsWrittenAs(s, i, end, lens, area);
    var first := First(s, i);
    gs := SpelledIsChain(s, first, lens, area, end);
    PhoneDigits(s, i, gs);
    SpellingStarts(s, first, lens, area, end);
  }

  lemma {:induction false} SpellingStarts(s: Bytes, from: nat, lens: seq<nat>, area: int, end: nat)
    requires lens != [] && Spells(s, from, lens, area, end)
    ensures from < end <= |s| && (48 <= s[from] <= 57 || s[from] == 40)
    decreases |lens|
  {
    var last := |lens| - 1;
    var start := StartOfLast(lens[last], area == last, end);
    if last > 0 {
      if start > 0 && s[start - 1] in {32, 45, 46} && Spells(s, from, lens[..last], area, start - 1) {
        SpellingStarts(s, from, lens[..last], area, start - 1);
      } else {
        SpellingStarts(s, from, lens[..last], area, start);
      }
    }
  }

  /** A chain takes at least a byte for each group. */
  lemma {:induction false} ChainIsBounded(s: Bytes, first: nat, gs: seq<Group>)
    requires Chain(s, first, gs) && first <= |s|
    ensures first + |gs| <= EndOf(first, gs) <= |s|
  {
    if gs != [] {
      ChainIsBounded(s, first, gs[..|gs| - 1]);
    }
  }

  /** Where a number begins, there is a longest one. */
  lemma {:induction false} LongestExists(s: Bytes, start: nat, gs: seq<Group>)
    requires IsPhone(s, start, gs)
    ensures exists hs :: IsLongestPhone(s, start, hs) && |gs| <= |hs|
    decreases |s| - |gs|
  {
    hide Chain, IsNumber;
    if hs :| IsPhone(s, start, hs) && |hs| > |gs| {
      ChainIsBounded(s, First(s, start), hs);
      LongestExists(s, start, hs);
    } else {
      assert IsLongestPhone(s, start, gs);
    }
  }

  lemma {:induction false} EndsGrow(s: Bytes, first: nat, gs: seq<Group>, k: nat)
    requires Chain(s, first, gs) && first <= |s| && k <= |gs|
    ensures EndOf(first, gs[..k]) <= EndOf(first, gs)
  {
    if k == |gs| {
      assert gs[..k] == gs;
    } else {
      var before := gs[..|gs| - 1];
      EndsGrow(s, first, before, k);
      assert before[..k] == gs[..k];
      ChainIsBounded(s, first, before);
    }
  }

  /** A longest number reaches at least as far as any other that begins there. */
  lemma {:induction false} PhoneReachesFar(s: Bytes, start: nat, gs: seq<Group>)
    requires IsPhone(s, start, gs)
    ensures PhoneEnd(s, start).Some? && gs[|gs| - 1].End() <= PhoneEnd(s, start).value
  {
    hide Chain, IsNumber, PhoneEnd;
    LongestExists(s, start, gs);
    var hs :| IsLongestPhone(s, start, hs) && |gs| <= |hs|;
    LongestIsTheEnd(s, start, hs);
    ChainPrefix(s, First(s, start), hs, |gs|);
    ChainIsDetermined(s, First(s, start), gs, hs[..|gs|]);
    EndsGrow(s, First(s, start), hs, |gs|);
  }

  /** Where a number begins, what is found of it is the longest one there. */
  lemma {:induction false} FoundIsLongestText(s: Bytes, i: nat, end: nat)
    requires i < |s|
    ensures PhoneFrom(s, i, end) <==> IsNumberText(s, i, end) && forall e: nat :: IsNumberText(s, i, e) ==> e <= end
  {
    hide IsNumberText, IsPhone, PhoneEnd;
    forall e: nat | IsNumberText(s, i, e)
      ensures MayStart(s, i) && PhoneEnd(s, i).Some? && e <= PhoneEnd(s, i).value
    {
      var gs := TextIsPhone(s, i, e);
      PhoneReachesFar(s, i, gs);
    }
    if MayStart(s, i) && PhoneEnd(s, i).Some? {
      EndIsOfLongest(s, i);
      var gs := LongestPhone(s, i);
      PhoneIsText(s, i, gs);
    }
  }

  lemma {:induction false} EndIsOfLongest(s: Bytes, i: nat)
    requires i < |s| && PhoneEnd(s, i).Some?
    ensures exists gs :: IsLongestPhone(s, i, gs)
    ensures PhoneEnd(s, i).value == LongestPhone(s, i)[|LongestPhone(s, i)| - 1].End()
  {
  }

  /**
   Exactly what is redacted, told from the bytes: each interval is the longest
   number that begins there, and no number begins outside the intervals.
   */
  lemma {:induction false} ExactlyNumbersAreRedacted(line: Bytes, cuts: seq<(nat, nat)>, out: Bytes)
    requires IsRedaction(line, cuts, out)
    ensures forall k :: 0 <= k < |cuts| ==>
              IsNumberText(line, cuts[k].0, cuts[k].1) && forall e: nat :: IsNumberText(line, cuts[k].0, e) ==> e <= cuts[k].1
    ensures forall i: nat, e: nat :: IsNumberText(line, i, e) ==> exists k :: 0 <= k < |cuts| && cuts[k].0 <= i < cuts[k].1
  {
    hide PhoneFrom, IsNumberText, PhoneEnd;
    forall k | 0 <= k < |cuts|
      ensures IsNumberText(line, cuts[k].0, cuts[k].1) && forall e: nat :: IsNumberText(line, cuts[k].0, e) ==> e <= cuts[k].1
    {
      CutIsInside(line, cuts[k].0, cuts[k].1);
      FoundIsLongestText(line, cuts[k].0, cuts[k].1);
    }
    forall i: nat, e: nat | IsNumberText(line, i, e) ensures exists k :: 0 <= k < |cuts| && cuts[k].0 <= i < cuts[k].1 {
      var gs := TextIsPhone(line, i, e);
      PhoneReachesFar(line, i, gs);
      PhoneIsInside(line, i, gs);
      assert Within(cuts, i);
    }
  }

  lemma {:induction false} CutIsInside(s: Bytes, i: nat, end: nat)
    requires PhoneFrom(s, i, end)
    ensures i < |s|
  {
  }

  lemma {:induction false} PhoneIsInside(s: Bytes, i: nat, gs: seq<Group>)
    requires IsPhone(s, i, gs)
    ensures i < |s|
  {
  }

  /**
   In particular: what is replaced stands apart from what is before and after,
   and has 8 to 15 digits after a `+`, or else 10, or 11 that begin with 0 or 1.
   */
  lemma {:induction false} DigitsOfRedacted(line: Bytes, cuts: seq<(nat, nat)>, out: Bytes, k: nat)
    requires IsRedaction(line, cuts, out) && k < |cuts|
    ensures
      var (i, end) := cuts[k];
      && i < end <= |line| && StandsApart(line, i) && EndsHere(line, end)
      && (if line[i] == 43 then 8 <= DigitsIn(line, i, end) <= 15
          else DigitsIn(line, i, end) == 10 || (DigitsIn(line, i, end) == 11 && (line[i] == 48 || line[i] == 49)))
      && (forall j :: i <= j < end ==> IsPhoneByte(line[j]) || (j == i && line[j] == 43))
  {
    hide Chain, Sum, Lengths, Spells;
    ExactlyNumbersAreRedacted(line, cuts, out);
    var (i, end) := cuts[k];
    var lens, area :| IsWrittenAs(line, i, end, lens, area);
    var gs := SpelledIsChain(line, First(line, i), lens, area, end);
    PhoneDigits(line, i, gs);
    SumOfShape(lens);
  }

  /** The bytes put in place of a number are those of the word `<phone>`. */
  lemma {:induction false} MarkIsTheWord()
    ensures |MARK| == 7 && forall i :: 0 <= i < 7 ==> MARK[i] as int == "<phone>"[i] as int
  {
  }

  /** The segments with the fillings between them. */
  function Filled(segments: seq<Bytes>, fillings: seq<Bytes>): Bytes
    requires |segments| == |fillings| + 1
  {
    if fillings == [] then segments[0] else
    var n := |fillings|;
    Filled(segments[..n], fillings[..n - 1]) + fillings[n - 1] + segments[n]
  }

  function Marks(n: nat): seq<Bytes> {
    seq(n, _ => MARK)
  }

  function Cutouts(line: Bytes, cuts: seq<(nat, nat)>): seq<Bytes>
    requires forall k :: 0 <= k < |cuts| ==> cuts[k].0 <= cuts[k].1 <= |line|
  {
    seq(|cuts|, k requires 0 <= k < |cuts| => line[cuts[k].0..cuts[k].1])
  }

  lemma {:induction false} FilledSnoc(segments: seq<Bytes>, fillings: seq<Bytes>, filling: Bytes, segment: Bytes)
    requires |segments| == |fillings| + 1
    ensures Filled(segments + [segment], fillings + [filling]) == Filled(segments, fillings) + filling + segment
  {
    assert (segments + [segment])[..|segments|] == segments;
    assert (fillings + [filling])[..|fillings|] == fillings;
  }

  lemma {:induction false} CutsAreInOrder(line: Bytes, cuts: seq<(nat, nat)>)
    requires CutsFit(line, cuts)
    ensures forall k :: 0 <= k < |cuts| ==> cuts[k].0 <= cuts[k].1 <= |line|
  {
    if cuts != [] {
      CutsAreInOrder(line, cuts[..|cuts| - 1]);
      assert forall k :: 0 <= k < |cuts| - 1 ==> cuts[k] == cuts[..|cuts| - 1][k];
    }
  }

  lemma {:induction false} CutoutsSnoc(line: Bytes, cuts: seq<(nat, nat)>)
    requires cuts != [] && forall k :: 0 <= k < |cuts| ==> cuts[k].0 <= cuts[k].1 <= |line|
    ensures Cutouts(line, cuts) ==
            Cutouts(line, cuts[..|cuts| - 1]) + [line[cuts[|cuts| - 1].0..cuts[|cuts| - 1].1]]
    ensures Marks(|cuts|) == Marks(|cuts| - 1) + [MARK]
  {
  }

  lemma {:induction false} SegmentsAround(line: Bytes, cuts: seq<(nat, nat)>, to: nat) returns (segments: seq<Bytes>)
    requires CutsFit(line, cuts) && Copied(cuts) <= to <= |line|
    ensures forall k :: 0 <= k < |cuts| ==> cuts[k].0 <= cuts[k].1 <= |line|
    ensures |segments| == |cuts| + 1
    ensures Filled(segments, Cutouts(line, cuts)) == line[..to]
    ensures Filled(segments, Marks(|cuts|)) == Spliced(line, cuts) + line[Copied(cuts)..to]
  {
    CutsAreInOrder(line, cuts);
    if cuts == [] {
      segments := [line[..to]];
    } else {
      hide Filled, Cutouts, Marks;
      var before, last := cuts[..|cuts| - 1], cuts[|cuts| - 1];
      var front := SegmentsAround(line, before, last.0);
      var segment := line[last.1..to];
      segments := front + [segment];
      CutoutsSnoc(line, cuts);
      CutoutsAreAsMany(line, before);
      FilledSnoc(front, Cutouts(line, before), line[last.0..last.1], segment);
      FilledSnoc(front, Marks(|before|), MARK, segment);
      assert line[..to] == line[..last.0] + line[last.0..last.1] + segment;
      assert Spliced(line, cuts) == Spliced(line, before) + line[Copied(before)..last.0] + MARK;
    }
  }

  lemma {:induction false} CutoutsAreAsMany(line: Bytes, cuts: seq<(nat, nat)>)
    requires forall k :: 0 <= k < |cuts| ==> cuts[k].0 <= cuts[k].1 <= |line|
    ensures |Cutouts(line, cuts)| == |cuts| && |Marks(|cuts|)| == |cuts|
  {
  }

  /** Nothing else is touched: the line and what comes out of it differ in the numbers and the words put in their place alone. */
  lemma {:induction false} OtherBytesAreKept(line: Bytes, cuts: seq<(nat, nat)>, out: Bytes)
    requires IsRedaction(line, cuts, out)
    ensures forall k :: 0 <= k < |cuts| ==> cuts[k].0 <= cuts[k].1 <= |line|
    ensures exists segments: seq<Bytes> ::
              && |segments| == |cuts| + 1
              && line == Filled(segments, Cutouts(line, cuts))
              && out == Filled(segments, Marks(|cuts|))
  {
    hide PhonesIn, NoneMissed, Filled, Spliced;
    var segments := SegmentsAround(line, cuts, |line|);
    assert line[..|line|] == line;
  }
}

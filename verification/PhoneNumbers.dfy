/** Phone numbers in a line of text: the grammar of a number, and the scanner that finds the longest. */
module PhoneNumbers {
  import opened Sequences

  const PLUS: Byte := 43
  const OPEN: Byte := 40
  const CLOSE: Byte := 41
  const ZERO: Byte := 48
  const ONE: Byte := 49

  predicate IsDigit(b: Byte) { 48 <= b <= 57 }

  predicate IsAlphanumeric(b: Byte) { IsDigit(b) || 65 <= b <= 90 || 97 <= b <= 122 }

  /** A space, a hyphen or a full stop. */
  predicate IsSeparator(b: Byte) { b == 32 || b == 45 || b == 46 }

  /** What joins a bare figure to a word, a path or a time: one of `._-/\:+@#$%&=`. */
  predicate Joins(b: Byte) {
    b in [46, 95, 45, 47, 92, 58, 43, 64, 35, 36, 37, 38, 61]
  }

  predicate DigitAt(s: Bytes, i: nat) { i < |s| && IsDigit(s[i]) }

  predicate ByteAt(s: Bytes, i: nat, b: Byte) { i < |s| && s[i] == b }

  // The grammar.

  /** A run of digits, or an area code in brackets; `start` is its first byte and `len` counts its digits. */
  datatype Group = Group(start: nat, len: nat, bracketed: bool)
  {
    function DigitsFrom(): nat { if bracketed then start + 1 else start }

    function DigitsEnd(): nat { DigitsFrom() + len }

    function End(): nat { if bracketed then DigitsEnd() + 1 else DigitsEnd() }
  }

  predicate IsGroup(s: Bytes, g: Group) {
    && g.DigitsEnd() <= |s|
    && (forall i :: g.DigitsFrom() <= i < g.DigitsEnd() ==> IsDigit(s[i]))
    && !DigitAt(s, g.DigitsEnd())
    && (if g.bracketed
        then ByteAt(s, g.start, OPEN) && ByteAt(s, g.DigitsEnd(), CLOSE) && 2 <= g.len <= 4
        else g.len > 0)
  }

  predicate UsesBracket(gs: seq<Group>) {
    exists g :: g in gs && g.bracketed
  }

  /** Where the group after `gs` has to start: after one separator, or at once after a bracket. */
  function NextStart(s: Bytes, first: nat, gs: seq<Group>): Option<nat> {
    if gs == [] then Some(first) else
    var end := gs[|gs| - 1].End();
    if end < |s| && IsSeparator(s[end]) && (DigitAt(s, end + 1) || ByteAt(s, end + 1, OPEN)) then Some(end + 1)
    else if gs[|gs| - 1].bracketed && DigitAt(s, end) then Some(end)
    else None
  }

  /** Groups one after the other from `first` on, at most one of them in brackets. */
  predicate Chain(s: Bytes, first: nat, gs: seq<Group>) {
    gs == [] ||
    (var g, before := gs[|gs| - 1], gs[..|gs| - 1];
     && Chain(s, first, before)
     && NextStart(s, first, before) == Some(g.start)
     && IsGroup(s, g)
     && !(g.bracketed && UsesBracket(before)))
  }

  function Lengths(gs: seq<Group>): seq<nat> {
    seq(|gs|, i requires 0 <= i < |gs| => gs[i].len)
  }

  function Sum(ns: seq<nat>): nat {
    if ns == [] then 0 else Sum(ns[..|ns| - 1]) + ns[|ns| - 1]
  }

  function First(s: Bytes, start: nat): nat
    requires start < |s|
  {
    if s[start] == PLUS then start + 1 else start
  }

  /** The three shapes: international, North American, and national with a leading zero. */
  predicate IsNumber(s: Bytes, start: nat, lens: seq<nat>)
    requires start < |s| && lens != []
  {
    var digits := Sum(lens);
    if s[start] == PLUS then 8 <= digits <= 15
    else
      || lens == [3, 3, 4]
      || (lens == [1, 3, 3, 4] && s[start] == ONE)
      || (s[start] == ZERO && lens[0] >= 3 && 10 <= digits <= 11)
  }

  /** `gs` is a phone number that begins at `start`. */
  predicate IsPhone(s: Bytes, start: nat, gs: seq<Group>) {
    && start < |s|
    && gs != []
    && Chain(s, First(s, start), gs)
    && !(gs[|gs| - 1].End() < |s| && IsAlphanumeric(s[gs[|gs| - 1].End()]))
    && IsNumber(s, start, Lengths(gs))
  }

  ghost predicate IsLongestPhone(s: Bytes, start: nat, gs: seq<Group>) {
    IsPhone(s, start, gs) && forall hs :: IsPhone(s, start, hs) ==> |hs| <= |gs|
  }

  ghost function LongestPhone(s: Bytes, start: nat): (gs: seq<Group>)
    requires exists gs :: IsLongestPhone(s, start, gs)
    ensures IsLongestPhone(s, start, gs)
  {
    var gs :| IsLongestPhone(s, start, gs);
    gs
  }

  /** Where the longest phone number that begins at `start` ends, if one does. */
  ghost function PhoneEnd(s: Bytes, start: nat): Option<nat> {
    if exists gs :: IsLongestPhone(s, start, gs)
    then var gs := LongestPhone(s, start); Some(gs[|gs| - 1].End())
    else None
  }

  lemma {:induction false} GroupIsDetermined(s: Bytes, g: Group, h: Group)
    requires IsGroup(s, g) && IsGroup(s, h) && g.start == h.start
    ensures g == h
  {
    assert g.len > 0 && h.len > 0;
    assert !g.bracketed ==> IsDigit(s[g.start]);
    assert !h.bracketed ==> IsDigit(s[h.start]);
    assert g.len <= h.len && h.len <= g.len;
  }

  lemma {:induction false} ChainPrefix(s: Bytes, first: nat, gs: seq<Group>, k: nat)
    requires Chain(s, first, gs) && k <= |gs|
    ensures Chain(s, first, gs[..k])
  {
    if k == |gs| {
      assert gs[..k] == gs;
    } else {
      var before := gs[..|gs| - 1];
      ChainPrefix(s, first, before, k);
      assert before[..k] == gs[..k];
    }
  }

  /** The groups of a line are determined by where they start. */
  lemma {:induction false} ChainIsDetermined(s: Bytes, first: nat, gs: seq<Group>, hs: seq<Group>)
    requires Chain(s, first, gs) && Chain(s, first, hs) && |gs| == |hs|
    ensures gs == hs
  {
    if gs != [] {
      ChainIsDetermined(s, first, gs[..|gs| - 1], hs[..|hs| - 1]);
      GroupIsDetermined(s, gs[|gs| - 1], hs[|hs| - 1]);
      assert gs == gs[..|gs| - 1] + [gs[|gs| - 1]];
      assert hs == hs[..|hs| - 1] + [hs[|hs| - 1]];
    }
  }

  /** No group can be added to the chain. */
  ghost predicate Complete(s: Bytes, first: nat, gs: seq<Group>) {
    Chain(s, first, gs) && forall g :: !Chain(s, first, gs + [g])
  }

  lemma {:induction false} CompleteIsLongest(s: Bytes, first: nat, gs: seq<Group>, hs: seq<Group>)
    requires Complete(s, first, gs) && Chain(s, first, hs)
    ensures |hs| <= |gs| && hs == gs[..|hs|]
  {
    if |hs| > |gs| {
      assert hs[..|gs| + 1] == hs[..|gs|] + [hs[|gs|]];
      ChainPrefix(s, first, hs, |gs| + 1);
      ChainPrefix(s, first, hs, |gs|);
      ChainIsDetermined(s, first, gs, hs[..|gs|]);
      assert false;
    }
    ChainPrefix(s, first, gs, |hs|);
    ChainIsDetermined(s, first, gs[..|hs|], hs);
  }

  lemma {:induction false} LongestIsTheEnd(s: Bytes, start: nat, gs: seq<Group>)
    requires IsLongestPhone(s, start, gs)
    ensures PhoneEnd(s, start) == Some(gs[|gs| - 1].End())
  {
    var hs := LongestPhone(s, start);
    ChainIsDetermined(s, First(s, start), gs, hs);
  }

  lemma {:induction false} NoPhoneNoEnd(s: Bytes, start: nat)
    requires forall gs :: !IsPhone(s, start, gs)
    ensures PhoneEnd(s, start) == None
  {
  }

  /** A number takes at least one byte, and stays within the line. */
  lemma {:induction false} ChainAdvances(s: Bytes, first: nat, gs: seq<Group>)
    requires Chain(s, first, gs) && gs != []
    ensures first < gs[|gs| - 1].End() <= |s|
  {
    if |gs| > 1 {
      ChainAdvances(s, first, gs[..|gs| - 1]);
    }
  }

  // The scanner.

  /** How many digits there are from `i` on, without a gap. */
  function DigitRun(s: Bytes, i: nat): (n: nat)
    requires i <= |s|
    ensures i + n <= |s| && !DigitAt(s, i + n)
    ensures forall j :: i <= j < i + n ==> IsDigit(s[j])
    decreases |s| - i
  {
    if DigitAt(s, i) then 1 + DigitRun(s, i + 1) else 0
  }

  lemma {:induction false} ChainSnoc(s: Bytes, first: nat, gs: seq<Group>, g: Group)
    ensures Chain(s, first, gs + [g]) <==>
            && Chain(s, first, gs) && NextStart(s, first, gs) == Some(g.start) && IsGroup(s, g)
            && !(g.bracketed && UsesBracket(gs))
  {
    assert (gs + [g])[..|gs|] == gs;
  }

  /** Where no group starts, or a second bracket would, the chain is complete. */
  lemma {:induction false} StopsHere(s: Bytes, first: nat, gs: seq<Group>)
    requires Chain(s, first, gs)
    requires
      match NextStart(s, first, gs)
      case None => true
      case Some(i) => forall g :: IsGroup(s, g) && g.start == i ==> g.bracketed && UsesBracket(gs)
    ensures Complete(s, first, gs)
  {
    forall g ensures !Chain(s, first, gs + [g]) {
      ChainSnoc(s, first, gs, g);
    }
  }

  /** The one group that can start at `i` has the digits found there. */
  lemma {:induction false} OnlyRunFits(s: Bytes, i: nat, g: Group)
    requires i <= |s| && IsGroup(s, g) && g.start == i
    ensures g.bracketed <==> ByteAt(s, i, OPEN)
    ensures g.DigitsFrom() <= |s| && g.len == DigitRun(s, g.DigitsFrom())
  {
    var from := g.DigitsFrom();
    assert !g.bracketed ==> IsDigit(s[g.start]);
    var n := DigitRun(s, from);
    assert g.len <= n && n <= g.len;
  }

  /** What the scanner keeps of a group: its length and the offset past it. */
  function Found(gs: seq<Group>): seq<(nat, nat)> {
    seq(|gs|, i requires 0 <= i < |gs| => (gs[i].len, gs[i].End()))
  }

  /** The digit groups from `first` on, as many as there are. */
  method ScanGroups(bytes: Bytes, first: nat) returns (groups: seq<(nat, nat)>)
    requires first <= |bytes|
    ensures exists chain :: Complete(bytes, first, chain) && groups == Found(chain)
  {
    hide IsGroup, Chain, UsesBracket, Found;
    var i := first;
    groups := [];
    ghost var chain: seq<Group> := [];
    NothingFound(bytes, first);
    var bracketed := false;
    while true
      invariant first <= i <= |bytes|
      invariant Chain(bytes, first, chain) && groups == Found(chain)
      invariant NextStart(bytes, first, chain) == Some(i)
      invariant bracketed <==> UsesBracket(chain)
      decreases |bytes| - i
    {
      var open := i < |bytes| && bytes[i] == OPEN;
      GroupsHere(bytes, first, chain, i);
      if open && bracketed {
        break;
      }
      var from := if open then i + 1 else i;
      var len := DigitRun(bytes, from);
      var end := from + len;
      if open {
        if !(end < |bytes| && bytes[end] == CLOSE) || !(2 <= len <= 4) {
          break;
        }
        bracketed := true;
        end := end + 1;
      } else if len == 0 {
        break;
      }
      ghost var g := Group(i, len, open);
      ChainSnoc(bytes, first, chain, g);
      UsesBracketSnoc(chain, g);
      FoundSnoc(chain, g);
      groups := groups + [(len, end)];
      chain := chain + [g];
      i := end;
      if i + 1 < |bytes| && IsSeparator(bytes[i]) && (IsDigit(bytes[i + 1]) || bytes[i + 1] == OPEN) {
        i := i + 1;
      } else if !(open && i < |bytes| && IsDigit(bytes[i])) {
        StopsHere(bytes, first, chain);
        break;
      }
    }
  }

  lemma {:induction false} NothingFound(s: Bytes, first: nat)
    ensures Chain(s, first, []) && Found([]) == [] && !UsesBracket([])
  {
  }

  lemma {:induction false} FoundSnoc(gs: seq<Group>, g: Group)
    ensures Found(gs + [g]) == Found(gs) + [(g.len, g.End())]
  {
  }

  lemma {:induction false} UsesBracketSnoc(gs: seq<Group>, g: Group)
    ensures UsesBracket(gs + [g]) <==> UsesBracket(gs) || g.bracketed
  {
    if UsesBracket(gs) {
      var h :| h in gs && h.bracketed;
      assert h in gs + [g];
    }
    assert (gs + [g])[|gs|] == g;
  }

  /** Either the digits found at `i` are a group that goes on the chain, or none does. */
  lemma {:induction false} GroupsHere(s: Bytes, first: nat, gs: seq<Group>, i: nat)
    requires Chain(s, first, gs) && NextStart(s, first, gs) == Some(i) && i <= |s|
    ensures
      var open := ByteAt(s, i, OPEN);
      var from := if open then i + 1 else i;
      var len := DigitRun(s, from);
      var fits := if open then ByteAt(s, from + len, CLOSE) && 2 <= len <= 4 else len > 0;
      && (fits <==> IsGroup(s, Group(i, len, open)))
      && (!fits || (open && UsesBracket(gs)) ==> Complete(s, first, gs))
  {
    var open := ByteAt(s, i, OPEN);
    forall g | IsGroup(s, g) && g.start == i
      ensures g == Group(i, DigitRun(s, if open then i + 1 else i), open)
    {
      OnlyRunFits(s, i, g);
    }
    var fits := IsGroup(s, Group(i, DigitRun(s, if open then i + 1 else i), open));
    if !fits || (open && UsesBracket(gs)) {
      StopsHere(s, first, gs);
    }
  }

  /** Where a phone number that begins at `start` ends, if one does. */
  method PhoneAt(bytes: Bytes, start: nat) returns (r: Option<nat>)
    requires start < |bytes|
    ensures r == PhoneEnd(bytes, start)
    ensures r.Some? ==> start < r.value <= |bytes|
  {
    hide Chain, IsNumber, Complete;
    var first := if bytes[start] == PLUS then start + 1 else start;
    var groups := ScanGroups(bytes, first);
    ghost var chain :| Complete(bytes, first, chain) && groups == Found(chain);
    forall hs | IsPhone(bytes, start, hs) ensures |hs| <= |chain| {
      CompleteIsLongest(bytes, first, chain, hs);
    }
    var k := |groups|;
    while k > 0
      invariant 0 <= k <= |groups|
      invariant forall hs :: IsPhone(bytes, start, hs) ==> |hs| <= k
    {
      ghost var gs := chain[..k];
      CompleteIsChain(bytes, first, chain, k);
      var end := groups[k - 1].1;
      var lens := seq(k, j requires 0 <= j < k => groups[j].0);
      assert lens == Lengths(gs);
      if !(end < |bytes| && IsAlphanumeric(bytes[end])) && IsNumber(bytes, start, lens) {
        assert IsPhone(bytes, start, gs);
        assert IsLongestPhone(bytes, start, gs);
        LongestIsTheEnd(bytes, start, gs);
        ChainAdvances(bytes, first, gs);
        return Some(end);
      }
      forall hs | IsPhone(bytes, start, hs) ensures |hs| <= k - 1 {
        CompleteIsLongest(bytes, first, chain, hs);
      }
      k := k - 1;
    }
    forall gs ensures !IsPhone(bytes, start, gs) {
      assert IsPhone(bytes, start, gs) ==> |gs| <= 0;
    }
    NoPhoneNoEnd(bytes, start);
    return None;
  }

  lemma {:induction false} CompleteIsChain(s: Bytes, first: nat, gs: seq<Group>, k: nat)
    requires Complete(s, first, gs) && k <= |gs|
    ensures Chain(s, first, gs[..k])
  {
    ChainPrefix(s, first, gs, k);
  }
}

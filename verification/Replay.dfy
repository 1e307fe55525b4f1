/** The sliding replay window: internal/p2p/replay.go.

    The window keeps a pruned set of sequence numbers. It is compared here with the log of every
    number it ever accepted. */
module Replay {
  import opened Octets

  datatype Window = Window(size: uint64, inited: bool, maxSeq: uint64, seen: set<uint64>)

  const DEFAULT_SIZE: uint64 := 128

  function New(size: uint64): (w: Window)
    ensures w.size > 0 && !w.inited && w.seen == {}
  {
    Window(if size == 0 then DEFAULT_SIZE else size, false, 0, {})
  }

  /** The lowest number kept when the window advances to num. */
  function Low(size: uint64, num: uint64): uint64
    requires size > 0
  {
    if num < size then 0 else num - size + 1
  }

  function Kept(w: Window, num: uint64): set<uint64>
    requires w.size > 0
  {
    set s | s in w.seen && s >= Low(w.size, num)
  }

  function Admit(w: Window, num: uint64): (Window, bool)
    requires w.size > 0
  {
    if !w.inited then (w.(inited := true, maxSeq := num, seen := w.seen + {num}), true)
    else if num in w.seen then (w, false)
    else if (num + w.size) % U64 < w.maxSeq then (w, false)
    else if num > w.maxSeq then
      (w.(maxSeq := num, seen := Kept(w, num) + {num}), true)
    else (w.(seen := w.seen + {num}), true)
  }

  lemma RefusalKeepsWindow(w: Window, num: uint64)
    requires w.size > 0
    ensures !Admit(w, num).1 ==> Admit(w, num).0 == w
  {
  }

  class ReplayWindow {
    var size: uint64
    var maxSeq: uint64
    var bitmap: set<uint64>
    var inited: bool

    predicate Valid()
      reads this
    {
      size > 0
    }

    function State(): Window
      reads this
    {
      Window(size, inited, maxSeq, bitmap)
    }

    constructor (size: uint64)
      ensures Valid() && State() == New(size)
    {
      this.size := if size == 0 then DEFAULT_SIZE else size;
      maxSeq, bitmap, inited := 0, {}, false;
    }

    method Accept(num: uint64) returns (ok: bool)
      requires Valid()
      modifies this
      ensures Valid() && (State(), ok) == Admit(old(State()), num)
    {
      if !inited {
        inited := true;
        maxSeq := num;
        bitmap := bitmap + {num};
        return true;
      }
      if num in bitmap {
        return false;
      }
      if (num + size) % U64 < maxSeq {
        return false;
      }
      if num > maxSeq {
        var low := Low(size, num);
        var todo := bitmap;
        while todo != {}
          invariant forall s :: s in todo ==> s in old(bitmap)
          invariant forall s :: s in bitmap <==> s in old(bitmap) && (s >= low || s in todo)
          invariant size == old(size) && maxSeq == old(maxSeq) && inited
          decreases |todo|
        {
          var s :| s in todo;
          todo := todo - {s};
          if s < low {
            bitmap := bitmap - {s};
          }
        }
        maxSeq := num;
        assert bitmap == Kept(old(State()), num);
      }
      bitmap := bitmap + {num};
      return true;
    }
  }

  // ------------------------------------------------------------------ runs

  /** A window together with the log of the numbers it accepted, oldest first. */
  datatype Tracked = Tracked(w: Window, log: seq<uint64>)

  function Step(t: Tracked, num: uint64): Tracked
    requires t.w.size > 0
  {
    var (w', ok) := Admit(t.w, num);
    Tracked(w', if ok then t.log + [num] else t.log)
  }

  function Run(size: uint64, offered: seq<uint64>): (t: Tracked)
    ensures t.w.size == New(size).size
  {
    if offered == [] then Tracked(New(size), [])
    else Step(Run(size, offered[..|offered| - 1]), offered[|offered| - 1])
  }

  /** No offered number makes `num + size` wrap. */
  ghost predicate NoWrap(size: uint64, offered: seq<uint64>) {
    forall i :: 0 <= i < |offered| ==> offered[i] + New(size).size < U64
  }

  function Count(log: seq<uint64>, x: uint64): nat {
    multiset(log)[x]
  }

  /** What the pruned set remembers of the log. */
  ghost predicate Remembers(t: Tracked) {
    && (!t.w.inited ==> t.log == [] && t.w.seen == {})
    && (t.w.inited ==> t.w.maxSeq in t.log && t.w.maxSeq in t.w.seen)
    && (forall x :: x in t.log ==> x <= t.w.maxSeq)
    && (forall x :: x in t.log && x + t.w.size > t.w.maxSeq ==> x in t.w.seen)
    && (forall x :: x in t.w.seen ==> x in t.log && x + t.w.size >= t.w.maxSeq)
  }

  /** A number in the log twice has left the window, or sits on its edge and is remembered. */
  ghost predicate AtMostTwice(t: Tracked) {
    forall x: uint64 :: Count(t.log, x) >= 2 ==>
      Count(t.log, x) == 2 &&
      (x + t.w.size < t.w.maxSeq || (x + t.w.size == t.w.maxSeq && x in t.w.seen))
  }

  lemma StepRemembers(t: Tracked, num: uint64)
    requires t.w.size > 0 && num + t.w.size < U64 && Remembers(t)
    ensures Remembers(Step(t, num))
  {
    var t' := Step(t, num);
    if t'.log != t.log {
      assert forall x: uint64 :: x in t'.log <==> x in t.log || x == num;
    }
  }

  lemma StepAtMostTwice(t: Tracked, num: uint64)
    requires t.w.size > 0 && num + t.w.size < U64
    requires Remembers(t) && AtMostTwice(t)
    ensures AtMostTwice(Step(t, num))
  {
    var t' := Step(t, num);
    if t'.log != t.log {
      CountStep(t.log, num);
      if num !in t.log {
        assert Count(t.log, num) == 0;
      }
    }
  }

  lemma CountStep(log: seq<uint64>, num: uint64)
    ensures forall x: uint64 :: Count(log + [num], x) == Count(log, x) + (if x == num then 1 else 0)
  {
  }

  lemma {:induction false} RunKeeps(size: uint64, offered: seq<uint64>)
    requires NoWrap(size, offered)
    ensures Remembers(Run(size, offered)) && AtMostTwice(Run(size, offered))
  {
    if offered != [] {
      var front := offered[..|offered| - 1];
      assert NoWrap(size, front) by {
        assert forall i :: 0 <= i < |front| ==> front[i] == offered[i];
      }
      RunKeeps(size, front);
      StepRemembers(Run(size, front), offered[|offered| - 1]);
      StepAtMostTwice(Run(size, front), offered[|offered| - 1]);
    }
  }

  /** In a window that remembers its log: inside the window the decision is membership in the log, below
      the window it is no, and a repeated acceptance happens only on the edge and only once. */
  ghost predicate DecidesAsHistory(t: Tracked, num: uint64)
    requires t.w.size > 0
  {
    var ok := Admit(t.w, num).1;
    && (!t.w.inited || num + t.w.size > t.w.maxSeq ==> (ok <==> num !in t.log))
    && (t.w.inited && num + t.w.size < t.w.maxSeq ==> !ok)
    && (ok && num in t.log ==> num + t.w.size == t.w.maxSeq && Count(t.log, num) == 1)
  }

  lemma Decision(t: Tracked, num: uint64)
    requires t.w.size > 0 && num + t.w.size < U64 && Remembers(t) && AtMostTwice(t)
    ensures DecidesAsHistory(t, num)
  {
    ModUnique(num + t.w.size, U64, 0, num + t.w.size);
    assert num in t.log <==> Count(t.log, num) >= 1;
  }

  /** The window against full history, after any run. */
  lemma WindowMatchesHistory(size: uint64, offered: seq<uint64>, num: uint64)
    requires NoWrap(size, offered) && num + New(size).size < U64
    ensures DecidesAsHistory(Run(size, offered), num)
  {
    RunKeeps(size, offered);
    Decision(Run(size, offered), num);
  }

  lemma {:induction false} IntervalSize(s: set<uint64>, lo: int, hi: int)
    requires lo <= hi && forall x :: x in s ==> lo <= x < hi
    ensures |s| <= hi - lo
    decreases hi - lo
  {
    if lo == hi {
      assert s == {};
    } else {
      var rest := s - {hi - 1};
      assert forall x :: x in rest ==> lo <= x < hi - 1;
      IntervalSize(rest, lo, hi - 1);
      assert s <= rest + {hi - 1};
    }
  }

  /** Memory stays bounded: never more than size + 1 entries. */
  lemma WindowBounded(size: uint64, offered: seq<uint64>)
    requires NoWrap(size, offered)
    ensures |Run(size, offered).w.seen| <= New(size).size + 1
  {
    RunKeeps(size, offered);
    var w := Run(size, offered).w;
    IntervalSize(w.seen, w.maxSeq - w.size, w.maxSeq + 1);
  }

  /** num was accepted, sits exactly on the window's edge, and has been forgotten. */
  predicate ForgottenEdge(t: Tracked, num: uint64) {
    t.w.inited && num + t.w.size == t.w.maxSeq && num in t.log && num !in t.w.seen
  }

  ghost predicate Distinct(log: seq<uint64>) {
    forall x: uint64 :: Count(log, x) <= 1
  }

  lemma DistinctStep(t: Tracked, num: uint64)
    requires t.w.size > 0 && num + t.w.size < U64 && Remembers(t)
    ensures Distinct(Step(t, num).log) <==>
      Distinct(t.log) && !ForgottenEdge(t, num)
  {
    var t' := Step(t, num);
    if t'.log != t.log {
      CountStep(t.log, num);
      assert num in t.log <==> Count(t.log, num) >= 1;
    }
  }

  // The same said of the offers alone, which a sender controls.

  /** The highest number among the offers. */
  function Highest(offered: seq<uint64>): uint64
    requires offered != []
  {
    var front, last := offered[..|offered| - 1], offered[|offered| - 1];
    if front == [] || last > Highest(front) then last else Highest(front)
  }

  /** Offer i lies inside the window as it is after that offer: less than size below the highest so far. */
  predicate Inside(size: uint64, offered: seq<uint64>, i: nat)
    requires i < |offered|
  {
    Highest(offered[..i + 1]) < offered[i] + size
  }

  /** The same number is offered at i, inside the window, and again at j, when the highest number so far is
      exactly size above it. */
  predicate EdgeRepeat(size: uint64, offered: seq<uint64>, i: nat, j: nat) {
    && i < j < |offered| && offered[i] == offered[j]
    && Inside(size, offered, i) && Highest(offered[..j]) == offered[j] + size
  }

  ghost predicate NoEdgeRepeat(size: uint64, offered: seq<uint64>) {
    forall i: nat, j: nat :: !EdgeRepeat(size, offered, i, j)
  }

  /** x was offered inside the window. */
  ghost predicate OfferedInside(size: uint64, offered: seq<uint64>, x: uint64) {
    exists i: nat :: i < |offered| && offered[i] == x && Inside(size, offered, i)
  }

  /** What the offers say about a window and its log. */
  ghost predicate Explains(offered: seq<uint64>, t: Tracked) {
    && (t.w.inited <==> offered != [])
    && (offered != [] ==> t.w.maxSeq == Highest(offered))
    && (forall x :: x in t.log ==> x in offered)
    && (forall x: uint64 :: OfferedInside(t.w.size, offered, x) ==> x in t.log)
    && (forall x :: x in t.log && x + t.w.size == t.w.maxSeq && x !in t.w.seen ==> OfferedInside(t.w.size, offered, x))
    && (forall x :: x in t.w.seen && x + t.w.size == t.w.maxSeq && OfferedInside(t.w.size, offered, x) ==>
          Count(t.log, x) >= 2)
  }

  lemma HighestSnoc(offered: seq<uint64>, num: uint64)
    ensures offered == [] ==> Highest(offered + [num]) == num
    ensures offered != [] ==> Highest(offered + [num]) == if num > Highest(offered) then num else Highest(offered)
  {
    assert (offered + [num])[..|offered|] == offered;
  }

  lemma {:induction false} HighestGrows(offered: seq<uint64>, k: nat)
    requires 0 < k <= |offered|
    ensures Highest(offered[..k]) <= Highest(offered)
  {
    if k < |offered| {
      var front := offered[..|offered| - 1];
      HighestGrows(front, k);
      assert front[..k] == offered[..k];
    } else {
      assert offered[..k] == offered;
    }
  }

  lemma InsideSnoc(size: uint64, offered: seq<uint64>, num: uint64, i: nat)
    requires i < |offered|
    ensures Inside(size, offered + [num], i) <==> Inside(size, offered, i)
  {
    assert (offered + [num])[..i + 1] == offered[..i + 1];
  }

  lemma LastInside(size: uint64, offered: seq<uint64>, num: uint64)
    requires size > 0
    ensures Inside(size, offered + [num], |offered|) <==> offered == [] || Highest(offered) < num + size
  {
    HighestSnoc(offered, num);
    assert (offered + [num])[..|offered| + 1] == offered + [num];
  }

  /** One more offer is inside if it is close enough to the highest; nothing else changes. */
  lemma OfferedInsideSnoc(size: uint64, offered: seq<uint64>, num: uint64, x: uint64)
    requires size > 0
    ensures OfferedInside(size, offered + [num], x) <==>
      OfferedInside(size, offered, x) || (x == num && (offered == [] || Highest(offered) < num + size))
  {
    var all, n := offered + [num], |offered|;
    LastInside(size, offered, num);
    hide Inside, Highest;
    forall i: nat | i < n
      ensures all[i] == offered[i] && (Inside(size, all, i) <==> Inside(size, offered, i))
    {
      InsideSnoc(size, offered, num, i);
    }
    assert all[n] == num;
  }

  /** A logged number was offered no later than the highest number so far. */
  lemma LoggedInside(offered: seq<uint64>, t: Tracked, x: uint64)
    requires Explains(offered, t) && x in t.log && t.w.maxSeq < x + t.w.size
    ensures OfferedInside(t.w.size, offered, x)
  {
    var i :| 0 <= i < |offered| && offered[i] == x;
    HighestGrows(offered, i + 1);
    assert Inside(t.w.size, offered, i);
  }

  /** The four outcomes of an offer that does not wrap. */
  lemma StepEffect(t: Tracked, num: uint64)
    requires t.w.size > 0 && num + t.w.size < U64
    ensures
      var t' := Step(t, num);
      if t.w.inited && (num in t.w.seen || num + t.w.size < t.w.maxSeq) then t' == t
      else
        && t'.log == t.log + [num] && t'.w.inited && t'.w.size == t.w.size
        && t'.w.maxSeq == (if t.w.inited && num <= t.w.maxSeq then t.w.maxSeq else num)
        && forall x :: x in t'.w.seen <==>
             x == num || (x in t.w.seen && (t.w.inited && num > t.w.maxSeq ==> x + t.w.size > num))
  {
    ModUnique(num + t.w.size, U64, 0, num + t.w.size);
  }

  lemma LogGrows(log: seq<uint64>, num: uint64)
    ensures forall x: uint64 :: x in log + [num] <==> x in log || x == num
    ensures forall x: uint64 :: x in log <==> Count(log, x) >= 1
    ensures forall x: uint64 :: Count(log + [num], x) == Count(log, x) + (if x == num then 1 else 0)
  {
  }

  lemma StepExplains(offered: seq<uint64>, t: Tracked, num: uint64)
    requires t.w.size > 0 && num + t.w.size < U64 && Remembers(t) && Explains(offered, t)
    ensures Explains(offered + [num], Step(t, num))
  {
    var t' := Step(t, num);
    var all := offered + [num];
    HighestSnoc(offered, num);
    forall x: uint64
      ensures OfferedInside(t.w.size, all, x) <==>
        OfferedInside(t.w.size, offered, x) || (x == num && (offered == [] || Highest(offered) < num + t.w.size))
    {
      OfferedInsideSnoc(t.w.size, offered, num, x);
    }
    forall x: uint64 | x in t.log && t.w.maxSeq < x + t.w.size
      ensures OfferedInside(t.w.size, offered, x)
    {
      LoggedInside(offered, t, x);
    }
    StepEffect(t, num);
    LogGrows(t.log, num);
    LogGrows(offered, num);
    hide OfferedInside, Highest, Step, Count;
  }

  lemma {:induction false} RunExplains(size: uint64, offered: seq<uint64>)
    requires NoWrap(size, offered)
    ensures Explains(offered, Run(size, offered)) && Remembers(Run(size, offered))
  {
    RunKeeps(size, offered);
    if offered != [] {
      var front, last := offered[..|offered| - 1], offered[|offered| - 1];
      assert NoWrap(size, front) by {
        assert forall i :: 0 <= i < |front| ==> front[i] == offered[i];
      }
      RunExplains(size, front);
      assert offered == front + [last];
      hide Step, Explains, Remembers;
      StepExplains(front, Run(size, front), last);
    }
  }

  /** The offers repeat an edge now exactly when the window forgot it or was already caught out by it. */
  lemma RepeatNow(offered: seq<uint64>, t: Tracked, num: uint64)
    requires t.w.size > 0 && Remembers(t) && Explains(offered, t)
    ensures Distinct(t.log) ==>
      (ForgottenEdge(t, num) <==>
       offered != [] && Highest(offered) == num + t.w.size && OfferedInside(t.w.size, offered, num))
  {
  }

  /** The repeats of a longer list of offers: those before and those at its end. */
  lemma NoEdgeRepeatSnoc(size: uint64, offered: seq<uint64>, num: uint64)
    ensures NoEdgeRepeat(size, offered + [num]) <==>
      NoEdgeRepeat(size, offered) &&
      !(offered != [] && Highest(offered) == num + size && OfferedInside(size, offered, num))
  {
    var all, n := offered + [num], |offered|;
    forall i: nat, j: nat | i < j < n
      ensures EdgeRepeat(size, all, i, j) <==> EdgeRepeat(size, offered, i, j)
    {
      InsideSnoc(size, offered, num, i);
      assert all[..j] == offered[..j];
    }
    assert all[..n] == offered;
    forall i: nat | i < n
      ensures EdgeRepeat(size, all, i, n) <==>
        offered[i] == num && Inside(size, offered, i) && Highest(offered) == num + size
    {
      InsideSnoc(size, offered, num, i);
    }
    hide Inside, Highest;
  }

  /** A run accepts no number twice if and only if its offers never repeat, on the edge, a number that was
      offered inside the window. */
  lemma {:induction false} AcceptedOnceIff(size: uint64, offered: seq<uint64>)
    requires NoWrap(size, offered)
    ensures Distinct(Run(size, offered).log) <==> NoEdgeRepeat(New(size).size, offered)
  {
    if offered != [] {
      var front, last := offered[..|offered| - 1], offered[|offered| - 1];
      assert NoWrap(size, front) by {
        assert forall i :: 0 <= i < |front| ==> front[i] == offered[i];
      }
      assert offered == front + [last];
      AcceptedOnceIff(size, front);
      RunExplains(size, front);
      DistinctStep(Run(size, front), last);
      NoEdgeRepeatSnoc(New(size).size, front, last);
      RepeatNow(front, Run(size, front), last);
      hide NoEdgeRepeat, OfferedInside, Highest, Explains, Remembers, ForgottenEdge, Distinct, Admit;
    }
  }

  /** The edge is reachable with the protocol's own size: of the offers 0, 128, 0 none is refused. */
  lemma EdgeAcceptedTwice()
    ensures Run(128, [0, 128, 0]).log == [0, 128, 0]
  {
    assert [0, 128, 0][..2] == [0, 128] && [0, 128][..1] == [0] && [0][..0] == [];
    var w1 := Window(128, true, 0, {0});
    assert Run(128, [0]) == Tracked(w1, [0]);
    assert Admit(w1, 128).0.seen == {128};
    assert Run(128, [0, 128]) == Tracked(Window(128, true, 128, {128}), [0, 128]);
  }

  /** Within `size` of 2^64 the too-old test wraps: a number not seen before, above the window's maximum or
      below, is refused once the maximum has passed the wrapped sum. */
  lemma WrapRefusesNewNumbers(w: Window, num: uint64)
    requires w.size > 0 && w.inited && num !in w.seen && num + w.size >= U64
    ensures Admit(w, num).1 <==> w.maxSeq <= num + w.size - U64
  {
    ModUnique(num + w.size, U64, 1, num + w.size - U64);
  }

  /** Reachable cases: after 200, the highest number of all is refused, and after 2^64-10 the number ten below it. */
  lemma HighestNumberRefused()
    ensures Run(128, [200, U64 - 1]).log == [200]
    ensures Run(128, [U64 - 10, U64 - 20]).log == [U64 - 10]
  {
    assert [U64 - 10, U64 - 20][..1] == [U64 - 10] && [U64 - 10][..0] == [];
    assert Run(128, [U64 - 10]) == Tracked(Window(128, true, U64 - 10, {U64 - 10}), [U64 - 10]);
    WrapRefusesNewNumbers(Window(128, true, U64 - 10, {U64 - 10}), U64 - 20);
    assert [200, U64 - 1][..1] == [200] && [200][..0] == [];
    assert Run(128, [200]) == Tracked(Window(128, true, 200, {200}), [200]);
    WrapRefusesNewNumbers(Window(128, true, 200, {200}), U64 - 1);
  }
}

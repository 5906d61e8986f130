/** Repair rounds inside any run: each takes its cursor when it is issued, and anything may happen before
    its reply and between rounds. */
module FeedRounds {
  import opened IntCollections
  import opened FeedLog
  import opened FeedReducer
  import opened FeedProtocol

  /** The state before the i-th label. */
  ghost function StateAt(s: System, ls: seq<Label>, exact: bool, i: nat): System
    requires Legal(s, ls, exact) && i <= |ls|
    decreases i
  {
    if i == 0 then s else StateAt(Apply(s, ls[0], exact), ls[1..], exact, i - 1)
  }

  lemma {:induction false} StateAtSafe(s: System, ls: seq<Label>, exact: bool, base: int, i: nat)
    requires SysInv(s, exact, base) && Legal(s, ls, exact) && i <= |ls|
    ensures var t := StateAt(s, ls, exact, i);
            && SysInv(t, exact, base) && Legal(t, ls[i..], exact) && Final(t, ls[i..], exact) == Final(s, ls, exact)
            && t.client.nextExpected >= s.client.nextExpected && t.log.origin == s.log.origin
    decreases i
  {
    hide SysInv, Enabled, Apply, Effect;
    if i == 0 {
      assert ls[0..] == ls;
    } else {
      var s1 := Apply(s, ls[0], exact);
      StepSafe(s, ls[0], exact, base);
      StepForward(s, ls[0], exact, base);
      StateAtSafe(s1, ls[1..], exact, base, i - 1);
      assert ls[1..][i - 1..] == ls[i..];
    }
  }

  lemma StepForward(s: System, l: Label, exact: bool, base: int)
    requires SysInv(s, exact, base) && Enabled(s, l, exact)
    ensures Apply(s, l, exact).client.nextExpected >= s.client.nextExpected && Apply(s, l, exact).log.origin == s.log.origin
  {
    StepSafe(s, l, exact, base);
    hide SysInv, Reduce;
  }

  lemma {:induction false} StateAtLater(s: System, ls: seq<Label>, exact: bool, i: nat, j: nat)
    requires Legal(s, ls, exact) && i <= j <= |ls|
    ensures Legal(StateAt(s, ls, exact, i), ls[i..], exact)
    ensures StateAt(s, ls, exact, j) == StateAt(StateAt(s, ls, exact, i), ls[i..], exact, j - i)
    decreases i
  {
    hide Enabled, Apply;
    if i == 0 {
      assert ls[0..] == ls;
    } else {
      StateAtLater(Apply(s, ls[0], exact), ls[1..], exact, i - 1, j - 1);
      assert ls[1..][i - 1..] == ls[i..];
    }
  }

  /** A repair issued before label i and answered by label j from a log of at least `target` rows' worth. */
  ghost predicate RoundAt(s: System, ls: seq<Label>, exact: bool, i: nat, j: nat, target: int)
    requires Legal(s, ls, exact)
  {
    && i < j < |ls| && ls[i].IssueRepair? && ls[j].ReplyRepair?
    && ls[j].after == StateAt(s, ls, exact, i).client.nextExpected - 1
    && target <= s.log.origin + ls[j].seen
  }

  /** The run contains k such rounds, one after another, among any other steps. */
  ghost predicate Rounds(s: System, ls: seq<Label>, exact: bool, k: nat, target: int)
    decreases k
  {
    && Legal(s, ls, exact)
    && (k > 0 ==> exists i: nat, j: nat :: RoundThenRest(s, ls, exact, k, target, i, j))
  }

  ghost predicate RoundThenRest(s: System, ls: seq<Label>, exact: bool, k: nat, target: int, i: nat, j: nat)
    requires Legal(s, ls, exact) && k > 0
    decreases k, 0
  {
    RoundAt(s, ls, exact, i, j, target) && Rounds(StateAt(s, ls, exact, j + 1), ls[j + 1..], exact, k - 1, target)
  }

  lemma OneRound(s: System, ls: seq<Label>, exact: bool, base: int, i: nat, j: nat, target: int)
    requires SysInv(s, exact, base) && Legal(s, ls, exact) && s.log.origin <= s.client.nextExpected
    requires RoundAt(s, ls, exact, i, j, target)
    ensures StateAt(s, ls, exact, j + 1).client.nextExpected >= Min(s.client.nextExpected + REPAIR_LIMIT, target)
  {
    hide SysInv, Enabled, Apply, Legal;
    var at, later := StateAt(s, ls, exact, i), StateAt(s, ls, exact, j);
    StateAtSafe(s, ls, exact, base, i);
    StateAtSafe(s, ls, exact, base, j);
    StateAtLater(s, ls, exact, i, j);
    StateAtSafe(at, ls[i..], exact, base, j - i);
    FirstIsEnabled(later, ls[j..], exact);
    StateAtLater(s, ls, exact, j, j + 1);
    assert ls[j..][0] == ls[j];
    OneStep(later, ls[j..], exact);
    RepairProgress(later, exact, base, at.client.nextExpected, ls[j].seen);
  }

  lemma FirstIsEnabled(s: System, ls: seq<Label>, exact: bool)
    requires Legal(s, ls, exact) && ls != []
    ensures Enabled(s, ls[0], exact)
  {
  }

  lemma OneStep(s: System, ls: seq<Label>, exact: bool)
    requires Legal(s, ls, exact) && ls != []
    ensures StateAt(s, ls, exact, 1) == Apply(s, ls[0], exact)
  {
  }

  /** In every run with k rounds whose replies saw the log up to `target`, the frontier ends at least at
      min(n + 500 k, target). */
  lemma {:induction false} RoundsReach(s: System, ls: seq<Label>, exact: bool, base: int, k: nat, target: int)
    requires SysInv(s, exact, base) && s.log.origin <= s.client.nextExpected && Rounds(s, ls, exact, k, target)
    ensures Final(s, ls, exact).client.nextExpected >= Min(s.client.nextExpected + REPAIR_LIMIT * k, target)
    decreases k
  {
    hide SysInv, RoundAt, StateAt;
    if k == 0 {
      RunSafe(s, ls, exact, base);
    } else {
      var i: nat, j: nat :| RoundThenRest(s, ls, exact, k, target, i, j);
      assert j + 1 <= |ls| by { RoundInside(s, ls, exact, i, j, target); }
      OneRound(s, ls, exact, base, i, j, target);
      StateAtSafe(s, ls, exact, base, j + 1);
      RoundsReach(StateAt(s, ls, exact, j + 1), ls[j + 1..], exact, base, k - 1, target);
    }
  }

  lemma RoundInside(s: System, ls: seq<Label>, exact: bool, i: nat, j: nat, target: int)
    requires Legal(s, ls, exact) && RoundAt(s, ls, exact, i, j, target)
    ensures i < j < |ls|
  {
  }

  /** After ceil((maxBuffered - n + 1) / 500) rounds nothing up to `maxBuffered` is left in the buffer; if
      nothing beyond it was buffered or offered, the buffer is empty. */
  lemma RoundsEmptyBuffer(s: System, ls: seq<Label>, exact: bool, base: int, k: nat, maxBuffered: int)
    requires SysInv(s, exact, base) && s.log.origin <= s.client.nextExpected && Rounds(s, ls, exact, k, maxBuffered + 1)
    requires REPAIR_LIMIT * k >= maxBuffered - s.client.nextExpected + 1
    ensures var c := Final(s, ls, exact).client;
            && (forall o :: o in c.buffer ==> o > maxBuffered)
            && ((forall o :: o in s.client.buffer.Keys + Offered(s, ls, exact) ==> o <= maxBuffered) ==> c.buffer == map[])
  {
    assert Legal(s, ls, exact);
    hide SysInv, Rounds;
    RoundsReach(s, ls, exact, base, k, maxBuffered + 1);
    RunSafe(s, ls, exact, base);
    var c := Final(s, ls, exact).client;
    if forall o :: o in s.client.buffer.Keys + Offered(s, ls, exact) ==> o <= maxBuffered {
      forall o ensures o !in c.buffer {
        assert o in c.buffer ==> o in s.client.buffer.Keys + Offered(s, ls, exact);
      }
      MapExt(c.buffer, map[]);
    }
  }
}

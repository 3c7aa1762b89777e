/** Which page a turn of the maintenance thread evicts, whatever the other threads do in between. */
module ExtstoreEviction {
  import opened Base
  import opened ExtstoreTypes
  import opened ExtstoreShape
  import opened ExtstoreModel
  import opened ExtstoreParts
  import opened ExtstoreInv
  import opened ExtstoreMaint
  import opened ExtstoreRuns
  import opened ExtstoreSteps
  import opened ExtstoreTheorems
  import opened ExtstoreBooks

  /** From the wake-up at step w to step j the maintenance thread has neither finished its turn nor begun another. */
  ghost predicate InTurn(acts: seq<Action>, w: nat, j: nat) {
    w < j <= |acts| && acts[w] == DoWake && forall t :: w < t < j ==> acts[t] != DoWake && acts[t] != DoEvict
  }

  /** Step t of the run is the turn's look at page p. */
  ghost predicate LooksAt(run: seq<State>, acts: seq<Action>, t: nat, p: nat) {
    t < |acts| && t < |run| && acts[t] == DoScan && run[t].maint.Scanning? && run[t].maint.next == p && p < |run[t].pages|
  }

  /** Step t of the run looks at an eligible page, which it may note as its victim v. */
  ghost predicate Sees(run: seq<State>, acts: seq<Action>, t: nat, v: Victim) {
    LooksAt(run, acts, t, v.page) && Candidate(run[t].pages[v.page]) && run[t].pages[v.page].version == v.version
  }

  ghost predicate Between(w: nat, t: nat, j: nat) { w < t < j }

  /** `low` is the oldest of the eligible pages seen in the turn so far. */
  ghost predicate OldestSeen(run: seq<State>, acts: seq<Action>, w: nat, j: nat, low: Option<Victim>) {
    && (low.Some? ==> exists t: nat :: Between(w, t, j) && Sees(run, acts, t, low.value))
    && forall t: nat, v: Victim :: Between(w, t, j) && Sees(run, acts, t, v) ==> low.Some? && low.value.version <= v.version
  }

  /** The turn has looked at page p. */
  ghost predicate LookedAt(run: seq<State>, acts: seq<Action>, w: nat, j: nat, p: nat) {
    exists t: nat :: Between(w, t, j) && LooksAt(run, acts, t, p)
  }

  /** Every page below n has been looked at in the turn. */
  ghost predicate AllLookedAt(run: seq<State>, acts: seq<Action>, w: nat, j: nat, n: nat) {
    forall p: nat :: p < n ==> LookedAt(run, acts, w, j, p)
  }

  lemma OthersLeaveMaint(s: State, a: Action, t: State)
    requires Step(s, a, t) && a != DoWake && a != DoScan && a != DoEvict
    ensures t.maint == s.maint
  {
  }

  lemma WakeStarts(s: State, t: State)
    requires Step(s, DoWake, t)
    ensures t.maint.Scanning? && t.maint.next == 0 && t.maint.low.None?
  {
  }

  lemma ScanGoesOn(s: State, t: State)
    requires Step(s, DoScan, t)
    ensures var i := s.maint.next;
            && s.maint.Scanning? && i < |s.pages| && t.maint.Scanning? && t.maint.next == i + 1
            && t.maint.low == Lower(s.maint.low, i, s.pages[i])
  {
    ScanEffect(s);
  }

  /** Nothing more is seen by a step that is not a look. */
  lemma SeesNoMore(run: seq<State>, acts: seq<Action>, w: nat, j: nat, n: nat, low: Option<Victim>)
    requires w < j < |acts| && acts[j] != DoScan && OldestSeen(run, acts, w, j, low) && AllLookedAt(run, acts, w, j, n)
    ensures OldestSeen(run, acts, w, j + 1, low) && AllLookedAt(run, acts, w, j + 1, n)
  {
    var next := j + 1;
    forall p: nat | p < n ensures LookedAt(run, acts, w, next, p) {
      assert LookedAt(run, acts, w, j, p);
      var t: nat :| Between(w, t, j) && LooksAt(run, acts, t, p);
      assert Between(w, t, next);
    }
    if low.Some? {
      var t: nat :| Between(w, t, j) && Sees(run, acts, t, low.value);
      assert Between(w, t, j + 1);
    }
    forall t: nat, v: Victim | Between(w, t, j + 1) && Sees(run, acts, t, v) ensures low.Some? && low.value.version <= v.version {
      assert Between(w, t, j);
    }
  }

  lemma LookedOnce(run: seq<State>, acts: seq<Action>, w: nat, j: nat, i: nat)
    requires w < j && LooksAt(run, acts, j, i) && AllLookedAt(run, acts, w, j, i)
    ensures AllLookedAt(run, acts, w, j + 1, i + 1)
  {
    var next := j + 1;
    forall p: nat | p < i + 1 ensures LookedAt(run, acts, w, next, p) {
      if p == i {
        assert Between(w, j, next);
      } else {
        assert LookedAt(run, acts, w, j, p);
        var t: nat :| Between(w, t, j) && LooksAt(run, acts, t, p);
        assert Between(w, t, next);
      }
    }
  }

  /** A look at one more page. */
  lemma SeesOneMore(run: seq<State>, acts: seq<Action>, w: nat, j: nat, i: nat, low: Option<Victim>)
    requires w < j && LooksAt(run, acts, j, i) && OldestSeen(run, acts, w, j, low)
    ensures OldestSeen(run, acts, w, j + 1, Lower(low, i, run[j].pages[i]))
  {
    var pg := run[j].pages[i];
    var more := Lower(low, i, pg);
    if Candidate(pg) { assert Between(w, j, j + 1) && Sees(run, acts, j, Victim(i, pg.version)); }
    if more.Some? && more == low {
      var t: nat :| Between(w, t, j) && Sees(run, acts, t, low.value);
      assert Between(w, t, j + 1);
    }
    forall t: nat, v: Victim | Between(w, t, j + 1) && Sees(run, acts, t, v) ensures more.Some? && more.value.version <= v.version {
      if t < j { assert Between(w, t, j); }
    }
  }

  /** At every moment of a turn its candidate is the oldest eligible page it has seen, and it has seen the pages in order. */
  lemma {:induction false} TurnSoFar(run: seq<State>, acts: seq<Action>, w: nat, j: nat)
    requires IsRun(run, acts) && InTurn(acts, w, j)
    ensures run[j].maint.Scanning? && OldestSeen(run, acts, w, j, run[j].maint.low) && AllLookedAt(run, acts, w, j, run[j].maint.next)
  {
    var k := j - 1;
    StepAt(run, acts, k);
    if k == w {
      WakeStarts(run[k], run[j]);
    } else {
      TurnSoFar(run, acts, w, k);
      if acts[k] == DoScan {
        ScanGoesOn(run[k], run[j]);
        LookedOnce(run, acts, w, k, run[k].maint.next);
        SeesOneMore(run, acts, w, k, run[k].maint.next, run[k].maint.low);
      } else {
        OthersLeaveMaint(run[k], acts[k], run[j]);
        SeesNoMore(run, acts, w, k, run[k].maint.next, run[k].maint.low);
      }
    }
  }

  /** Of all pages at most page v has changed: closed, or freed if nobody reads it. */
  ghost predicate OnlyEvicts(before: seq<Page>, v: nat, after: seq<Page>) {
    && v < |before|
    && after == before[v := if before[v].refcount == 0 then Freed(before[v].(closed := true)) else before[v].(closed := true)]
  }

  lemma EvictChanges(s: State, t: State)
    requires Step(s, DoEvict, t)
    ensures s.maint.Scanning? && s.maint.next == |s.pages|
    ensures var m := s.maint;
            if m.evict && m.low.Some? && m.low.value.page < |s.pages| && !s.pages[m.low.value.page].closed
            then OnlyEvicts(s.pages, m.low.value.page, t.pages) else t.pages == s.pages
  {
  }

  /**
   * The end of a turn in any interleaving: every page has been looked at, and if a page is evicted it is the one of the
   * lowest version among those that were eligible when the turn looked at them, still in use under the version then seen.
   */
  lemma EvictsOldestSeen(run: seq<State>, acts: seq<Action>, w: nat, j: nat)
    requires IsRun(run, acts) && InTurn(acts, w, j) && j < |acts| && acts[j] == DoEvict
    ensures AllLookedAt(run, acts, w, j, |run[j].pages|)
    ensures run[j + 1].pages != run[j].pages ==>
              exists v: Victim :: && OldestSeen(run, acts, w, j, Some(v)) && OnlyEvicts(run[j].pages, v.page, run[j + 1].pages)
                                  && run[j].pages[v.page].version == v.version && !run[j].pages[v.page].free
  {
    TurnSoFar(run, acts, w, j);
    RunKeepsInv(run, acts, j);
    StepAt(run, acts, j);
    EvictChanges(run[j], run[j + 1]);
    if run[j].maint.low.Some? { CandidateStays(run[j]); }
    if run[j + 1].pages != run[j].pages {
      var v := run[j].maint.low.value;
      assert OldestSeen(run, acts, w, j, Some(v));
    }
  }

  lemma CandidateStays(s: State)
    requires Inv(s) && s.maint.Scanning? && s.maint.low.Some?
    ensures var v := s.maint.low.value; v.page < |s.pages| && !s.pages[v.page].free && s.pages[v.page].version == v.version
  {
  }
}

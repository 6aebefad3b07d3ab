/** Why subscribers are closed and runs deleted. */
module RegistryCleaning {
  import opened Text
  import opened Registry
  import opened RegistryDelivery

  /** Step i of the run is a publisher's giving up on x, whose buffer stayed full. */
  ghost predicate GivesUpAt(ls: seq<Label>, i: nat, x: nat) {
    i < |ls| && ls[i].Publisher? && ls[i].p == TimeOut && Exec(ls[..i]).Some?
    && ls[i].t in Exec(ls[..i]).value.pubs && Exec(ls[..i]).value.pubs[ls[i].t].pc == Blocked(x)
  }

  ghost predicate GivenUp(ls: seq<Label>, x: nat) { exists i: nat :: GivesUpAt(ls, i, x) }

  /** The run of the request was marked done. */
  predicate IsMarked(ls: seq<Label>, req: string) { MarkDone(req) in ls }

  predicate Unsubscribes(ls: seq<Label>, x: nat) { StartUnsubscribe(x) in ls }

  predicate GivesUpOn(pub: Pub, x: nat) { pub.pc == Missing(x) || pub.pc == Closing(x) }

  predicate Given(s: State, t: nat, x: nat) { t in s.pubs && GivesUpOn(s.pubs[t], x) }

  ghost predicate RunsFit(ls: seq<Label>, runs: map<string, RunEntry>, cleaner: CleanerPc) {
    (forall q :: q in runs && runs[q].hasDone ==> IsMarked(ls, q))
    && (cleaner.Cleaning? ==> IsMarked(ls, cleaner.req))
  }

  /** A closed subscriber's run was done, or it unsubscribed, or a publisher gave up on it. */
  ghost predicate SubFits(ls: seq<Label>, sub: Sub, x: nat) {
    sub.closed ==> IsMarked(ls, sub.req) || Unsubscribes(ls, x) || GivenUp(ls, x)
  }

  ghost predicate Reasons(ls: seq<Label>, s: State) {
    RunsFit(ls, s.runs, s.cleaner)
    && (forall x :: x in s.subs ==> SubFits(ls, s.subs[x], x))
    && (forall t, x :: Given(s, t, x) ==> GivenUp(ls, x))
    && forall x :: x in s.unsubs ==> Unsubscribes(ls, x)
  }

  lemma Longer(ls: seq<Label>, l: Label)
    ensures forall req :: IsMarked(ls + [l], req) <==> IsMarked(ls, req) || l == MarkDone(req)
    ensures forall x :: Unsubscribes(ls + [l], x) <==> Unsubscribes(ls, x) || l == StartUnsubscribe(x)
    ensures forall x :: GivenUp(ls, x) ==> GivenUp(ls + [l], x)
  {
    forall x | GivenUp(ls, x) ensures GivenUp(ls + [l], x) {
      var i: nat :| GivesUpAt(ls, i, x);
      assert (ls + [l])[..i] == ls[..i];
      assert GivesUpAt(ls + [l], i, x);
    }
  }

  lemma TimeOutGivesUp(ls: seq<Label>, s: State, t: nat, x: nat)
    requires Exec(ls) == Some(s) && t in s.pubs && s.pubs[t].pc == Blocked(x)
    ensures GivenUp(ls + [Publisher(t, TimeOut)], x)
  {
    var ls' := ls + [Publisher(t, TimeOut)];
    assert ls'[..|ls|] == ls;
    assert GivesUpAt(ls', |ls|, x);
  }

  /** Where a step may mark, clean or unsubscribe. */
  ghost predicate RunsCause(s: State, l: Label, n: State) {
    (forall q :: q in n.runs && n.runs[q].hasDone ==> (q in s.runs && s.runs[q].hasDone) || l == MarkDone(q))
    && (n.cleaner.Cleaning? ==>
          (s.cleaner.Cleaning? && s.cleaner.req == n.cleaner.req)
          || (n.cleaner.req in s.runs && s.runs[n.cleaner.req].hasDone))
    && forall x :: x in n.unsubs ==> x in s.unsubs || l == StartUnsubscribe(x)
  }

  /** Where a step may give up on a subscriber. */
  ghost predicate PubsCause(s: State, l: Label, n: State) {
    forall t, x :: Given(n, t, x) ==>
      Given(s, t, x) || (l == Publisher(t, TimeOut) && t in s.pubs && s.pubs[t].pc == Blocked(x))
  }

  ghost predicate GivingUp(s: State, x: nat) { exists t :: Given(s, t, x) }

  /** Where a step may close a subscriber. */
  ghost predicate SubsCause(s: State, n: State) {
    forall x :: x in n.subs && n.subs[x].closed ==>
      x in s.subs && s.subs[x].req == n.subs[x].req
      && (s.subs[x].closed || x in s.unsubs || GivingUp(s, x)
          || (s.cleaner.Cleaning? && s.cleaner.req == s.subs[x].req))
  }

  ghost predicate Causes(s: State, l: Label, n: State) {
    RunsCause(s, l, n) && PubsCause(s, l, n) && SubsCause(s, n)
  }

  lemma PublisherRuns(s: State, t: nat, p: PubLabel)
    requires NextPub(s, t, p).Some?
    ensures RunsCause(s, Publisher(t, p), NextPub(s, t, p).value)
  {
  }

  lemma PublisherPubs(s: State, t: nat, p: PubLabel)
    requires NextPub(s, t, p).Some?
    ensures PubsCause(s, Publisher(t, p), NextPub(s, t, p).value)
  {
    var n := NextPub(s, t, p).value;
    assert n.pubs.Keys == s.pubs.Keys && forall u :: u in s.pubs && u != t ==> n.pubs[u] == s.pubs[u];
  }

  /** A publisher closes nobody but the subscriber it gave up on. */
  lemma PublisherSubs(s: State, t: nat, p: PubLabel)
    requires NextPub(s, t, p).Some?
    ensures SubsCause(s, NextPub(s, t, p).value)
  {
    var n, pub := NextPub(s, t, p).value, s.pubs[t];
    if p == CloseMissed {
      assert Given(s, t, pub.pc.x);
      assert forall x :: x in n.subs && x != pub.pc.x ==> n.subs[x] == s.subs[x];
    } else {
      PublisherClosesNone(s, t, p);
    }
  }

  lemma PublisherClosesNone(s: State, t: nat, p: PubLabel)
    requires NextPub(s, t, p).Some? && p != CloseMissed
    ensures var n := NextPub(s, t, p).value;
      forall x :: x in n.subs ==> x in s.subs && n.subs[x].closed == s.subs[x].closed && n.subs[x].req == s.subs[x].req
  {
    var n := NextPub(s, t, p).value;
    forall x | x in n.subs
      ensures x in s.subs && n.subs[x].closed == s.subs[x].closed && n.subs[x].req == s.subs[x].req
    {
      if p == Snapshot { SnapshotKeepsSub(s, t, x); } else { StepKeepsSub(s, t, p, x); }
    }
  }

  lemma SnapshotKeepsSub(s: State, t: nat, x: nat)
    requires NextPub(s, t, Snapshot).Some? && x in NextPub(s, t, Snapshot).value.subs
    ensures x in s.subs
    ensures var sub := NextPub(s, t, Snapshot).value.subs[x]; sub.closed == s.subs[x].closed && sub.req == s.subs[x].req
  {
  }

  lemma StepKeepsSub(s: State, t: nat, p: PubLabel, x: nat)
    requires NextPub(s, t, p).Some? && p != CloseMissed && p != Snapshot && x in NextPub(s, t, p).value.subs
    ensures x in s.subs
    ensures var sub := NextPub(s, t, p).value.subs[x]; sub.closed == s.subs[x].closed && sub.req == s.subs[x].req
  {
  }

  lemma CleanerCauses(s: State, l: Label)
    requires Inv(s) && Next(s, l).Some? && (l.CleanClose? || l.Pick? || l.DeleteRun? || l.Tick? || l.EndScan?)
    ensures Causes(s, l, Next(s, l).value)
  {
  }

  lemma SubscriberCauses(s: State, l: Label)
    requires Next(s, l).Some?
    requires l.Subscribe? || l.Receive? || l.StartUnsubscribe? || l.RemoveSub? || l.CloseSub?
    ensures Causes(s, l, Next(s, l).value)
  {
  }

  lemma OthersCause(s: State, l: Label)
    requires Next(s, l).Some? && (l.Register? || l.MarkDone? || l.StartPublish?)
    ensures Causes(s, l, Next(s, l).value)
  {
  }

  lemma StepCauses(s: State, l: Label)
    requires Inv(s) && Next(s, l).Some?
    ensures Causes(s, l, Next(s, l).value)
  {
    if l.Publisher? {
      PublisherRuns(s, l.t, l.p);
      PublisherPubs(s, l.t, l.p);
      PublisherSubs(s, l.t, l.p);
    } else if l.CleanClose? || l.Pick? || l.DeleteRun? || l.Tick? || l.EndScan? {
      CleanerCauses(s, l);
    } else if l.Register? || l.MarkDone? || l.StartPublish? {
      OthersCause(s, l);
    } else {
      SubscriberCauses(s, l);
    }
  }

  lemma ReasonsGoOn(ls: seq<Label>, s: State, l: Label, n: State)
    requires Exec(ls) == Some(s) && Reasons(ls, s) && Causes(s, l, n)
    ensures Reasons(ls + [l], n)
  {
    Longer(ls, l);
    forall t, x | Given(n, t, x) ensures GivenUp(ls + [l], x) {
      if !Given(s, t, x) { TimeOutGivesUp(ls, s, t, x); }
    }
    forall x | x in n.subs ensures SubFits(ls + [l], n.subs[x], x) {
      if n.subs[x].closed { assert SubFits(ls, s.subs[x], x); }
    }
  }

  lemma {:induction false} ExecReasons(ls: seq<Label>, s: State)
    requires Exec(ls) == Some(s)
    ensures Reasons(ls, s)
  {
    if ls != [] {
      var front, l := ls[..|ls| - 1], ls[|ls| - 1];
      var p := Exec(front).value;
      assert ls == front + [l];
      ExecReasons(front, p);
      ExecKeepsInv(front, p);
      StepCauses(p, l);
      ReasonsGoOn(front, p, l, s);
    }
  }

  /** A subscriber that is closed has unsubscribed, or its run was marked done, or a
      publisher gave up waiting for space in its buffer. */
  lemma WhyClosed(ls: seq<Label>, s: State, x: nat)
    requires Exec(ls) == Some(s) && x in s.subs && s.subs[x].closed
    ensures StartUnsubscribe(x) in ls || MarkDone(s.subs[x].req) in ls || GivenUp(ls, x)
  {
    ExecReasons(ls, s);
    assert SubFits(ls, s.subs[x], x);
  }

  /** A run's entry disappears only if the run was marked done. */
  lemma OnlyDoneRunsAreDeleted(ls: seq<Label>, s: State, l: Label, n: State, req: string)
    requires Exec(ls) == Some(s) && Next(s, l) == Some(n) && req in s.runs && req !in n.runs
    ensures l == DeleteRun && MarkDone(req) in ls
  {
    ExecReasons(ls, s);
    RunsStay(s, l, n, req);
  }

  lemma DoneStays(s: State, l: Label, n: State, req: string)
    requires Next(s, l) == Some(n) && req in n.runs
    requires l == MarkDone(req) || (req in s.runs && s.runs[req].hasDone)
    ensures n.runs[req].hasDone
  {
  }

  /** Once marked done a run stays marked, and can be picked by a scanning cleaner, as
      long as its entry is there. */
  lemma {:induction false} DoneIsRemembered(ls: seq<Label>, k: nat, s: State, req: string)
    requires k < |ls| && ls[k] == MarkDone(req) && Exec(ls) == Some(s)
    requires forall j :: k < j <= |ls| && Exec(ls[..j]).Some? ==> req in Exec(ls[..j]).value.runs
    ensures req in s.runs && s.runs[req].hasDone
    ensures s.cleaner == Scanning ==> Next(s, Pick(req)).Some?
  {
    var front := ls[..|ls| - 1];
    var p := Exec(front).value;
    assert ls[..|ls|] == ls;
    if k < |front| {
      forall j | k < j <= |front| && Exec(front[..j]).Some? ensures req in Exec(front[..j]).value.runs {
        assert front[..j] == ls[..j];
      }
      DoneIsRemembered(front, k, p, req);
    }
    DoneStays(p, ls[|ls| - 1], s, req);
  }

  lemma RunsStay(s: State, l: Label, n: State, req: string)
    requires Next(s, l) == Some(n) && req in s.runs && req !in n.runs
    ensures l == DeleteRun && s.cleaner.Cleaning? && s.cleaner.req == req
  {
  }
}

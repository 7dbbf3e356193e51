/** What can follow a state: by the pipeline's own actions, or by anything but an edit of one deal. */
module SyncRuns {
  import opened Sync

  /** The state after these actions, from any state. */
  ghost function Steps(c: Config, s: Sys, run: seq<Action>): Sys {
    if run == [] then s else Do(c, Steps(c, s, run[..|run| - 1]), run[|run| - 1])
  }

  /** Some sequence of actions, none of them Salesforce's, leads from `s` to `t`. */
  ghost predicate Leads(c: Config, s: Sys, t: Sys) {
    exists run :: LeavesSalesforce(run) && Steps(c, s, run) == t
  }

  ghost predicate LeavesSalesforce(run: seq<Action>) {
    forall a :: a in run ==> !a.Salesforce?
  }

  /** The action commits an edit of the deal. */
  predicate Edits(s: Sys, a: Action, id: string) {
    a.Salesforce? && a.step.Commit? && a.step.slot in s.org.open && s.org.open[a.step.slot].id == id
  }

  /** No edit of the deal commits. Time passes, other deals change, accounts are renamed, and the pipeline runs. */
  ghost predicate Spares(c: Config, s: Sys, run: seq<Action>, id: string) {
    run != [] ==>
      Spares(c, s, run[..|run| - 1], id) && !Edits(Steps(c, s, run[..|run| - 1]), run[|run| - 1], id)
  }

  /** Some such run leads from `s` to `t`. */
  ghost predicate Follows(c: Config, s: Sys, t: Sys, id: string) {
    exists run :: Spares(c, s, run, id) && Steps(c, s, run) == t
  }

  /** Some run at all leads from `s` to `t`. */
  ghost predicate Goes(c: Config, s: Sys, t: Sys) {
    exists run :: Steps(c, s, run) == t
  }

  /** Some run ends in this state. */
  ghost predicate Reachable(c: Config, s: Sys) {
    exists clock, accounts, run :: After(c, clock, accounts, run) == s
  }

  lemma Stays(c: Config, s: Sys)
    ensures Leads(c, s, s)
  {
    assert LeavesSalesforce([]) && Steps(c, s, []) == s;
  }

  lemma LeadsOn(c: Config, s: Sys, t: Sys, a: Action)
    requires Leads(c, s, t) && !a.Salesforce?
    ensures Leads(c, s, Do(c, t, a))
  {
    hide Do;
    var run :| LeavesSalesforce(run) && Steps(c, s, run) == t;
    assert (run + [a])[..|run|] == run;
    assert LeavesSalesforce(run + [a]);
    assert Steps(c, s, run + [a]) == Do(c, t, a);
  }

  lemma {:induction false} StepsCompose(c: Config, s: Sys, first: seq<Action>, more: seq<Action>)
    ensures Steps(c, s, first + more) == Steps(c, Steps(c, s, first), more)
  {
    hide Do;
    if more == [] {
      assert first + more == first;
    } else {
      StepsCompose(c, s, first, more[..|more| - 1]);
      assert (first + more)[..|first + more| - 1] == first + more[..|more| - 1];
    }
  }

  lemma LeadsCompose(c: Config, s: Sys, t: Sys, u: Sys)
    requires Leads(c, s, t) && Leads(c, t, u)
    ensures Leads(c, s, u)
  {
    hide Steps;
    var first :| LeavesSalesforce(first) && Steps(c, s, first) == t;
    var more :| LeavesSalesforce(more) && Steps(c, t, more) == u;
    StepsCompose(c, s, first, more);
    assert LeavesSalesforce(first + more);
  }

  /** Anything but an edit of the deal goes on: time passing, too. */
  lemma FollowsOn(c: Config, s: Sys, t: Sys, a: Action, id: string)
    requires Follows(c, s, t, id) && !Edits(t, a, id)
    ensures Follows(c, s, Do(c, t, a), id)
  {
    hide Do, Edits;
    var run :| Spares(c, s, run, id) && Steps(c, s, run) == t;
    assert (run + [a])[..|run|] == run;
    assert Spares(c, s, run + [a], id);
    assert Steps(c, s, run + [a]) == Do(c, t, a);
  }

  lemma {:induction false} SparesCompose(c: Config, s: Sys, first: seq<Action>, more: seq<Action>, id: string)
    requires Spares(c, s, first, id) && Spares(c, Steps(c, s, first), more, id)
    ensures Spares(c, s, first + more, id)
  {
    hide Steps, Edits;
    if more == [] {
      assert first + more == first;
    } else {
      var init := more[..|more| - 1];
      SparesCompose(c, s, first, init, id);
      StepsCompose(c, s, first, init);
      assert (first + more)[..|first + more| - 1] == first + init;
    }
  }

  lemma FollowsCompose(c: Config, s: Sys, t: Sys, u: Sys, id: string)
    requires Follows(c, s, t, id) && Follows(c, t, u, id)
    ensures Follows(c, s, u, id)
  {
    hide Steps, Spares;
    var first :| Spares(c, s, first, id) && Steps(c, s, first) == t;
    var more :| Spares(c, t, more, id) && Steps(c, t, more) == u;
    StepsCompose(c, s, first, more);
    SparesCompose(c, s, first, more, id);
  }

  lemma {:induction false} OutsideSpares(c: Config, s: Sys, run: seq<Action>, id: string)
    requires LeavesSalesforce(run)
    ensures Spares(c, s, run, id)
  {
    hide Steps;
    if run != [] {
      var init, a := run[..|run| - 1], run[|run| - 1];
      assert a in run && forall x :: x in init ==> x in run;
      OutsideSpares(c, s, init, id);
    }
  }

  lemma LeadsFollows(c: Config, s: Sys, t: Sys, id: string)
    requires Leads(c, s, t)
    ensures Follows(c, s, t, id)
  {
    hide Steps, Spares;
    var run :| LeavesSalesforce(run) && Steps(c, s, run) == t;
    OutsideSpares(c, s, run, id);
  }

  lemma GoesOn(c: Config, s: Sys, t: Sys, a: Action)
    requires Goes(c, s, t)
    ensures Goes(c, s, Do(c, t, a))
  {
    hide Do;
    var run :| Steps(c, s, run) == t;
    assert (run + [a])[..|run|] == run;
    assert Steps(c, s, run + [a]) == Do(c, t, a);
  }

  lemma GoesCompose(c: Config, s: Sys, t: Sys, u: Sys)
    requires Goes(c, s, t) && Goes(c, t, u)
    ensures Goes(c, s, u)
  {
    hide Steps;
    var first :| Steps(c, s, first) == t;
    var more :| Steps(c, t, more) == u;
    StepsCompose(c, s, first, more);
  }

  /** A run is the steps from the empty system. */
  lemma {:induction false} RunsAreSteps(c: Config, clock: int, accounts: map<string, string>, run: seq<Action>)
    ensures After(c, clock, accounts, run) == Steps(c, Init(clock, accounts), run)
  {
    hide Do;
    if run != [] {
      RunsAreSteps(c, clock, accounts, run[..|run| - 1]);
    }
  }

  lemma ReachOn(c: Config, s: Sys, a: Action)
    requires Reachable(c, s)
    ensures Reachable(c, Do(c, s, a))
  {
    hide Do;
    var clock, accounts, run :| After(c, clock, accounts, run) == s;
    assert (run + [a])[..|run|] == run;
    assert After(c, clock, accounts, run + [a]) == Do(c, s, a);
  }

  lemma ReachLeads(c: Config, s: Sys, t: Sys)
    requires Reachable(c, s) && Leads(c, s, t)
    ensures Reachable(c, t)
  {
    hide After, Steps;
    var clock, accounts, run :| After(c, clock, accounts, run) == s;
    var more :| LeavesSalesforce(more) && Steps(c, s, more) == t;
    RunsAreSteps(c, clock, accounts, run);
    StepsCompose(c, Init(clock, accounts), run, more);
    RunsAreSteps(c, clock, accounts, run + more);
  }
}

/** Where the promises about content end, each with a run that shows it. */
module SyncLimits {
  import opened Prelude
  import opened Calendar
  import opened Decimals
  import opened Events
  import opened Mapping
  import opened Erp
  import opened Org
  import opened Sync
  import opened SyncTruth
  import opened SyncTheorems
  import Publisher
  import Poller
  import Reconcile

  /** Every reconciliation leaves at least this grace, and accounts are renamed only if `renames`. */
  predicate Permitted(grace: int, renames: bool, a: Action) {
    (a.ReadDeals? ==> a.grace >= grace) && (Renames(a) ==> renames)
  }

  ghost predicate AllPermitted(grace: int, renames: bool, run: seq<Action>) {
    forall a :: a in run ==> Permitted(grace, renames, a)
  }

  /** Where a run starts and what it may do. */
  datatype Start = Start(grace: int, renames: bool, clock: int, accounts: map<string, string>)

  ghost predicate Reachable(c: Config, b: Start, s: Sys) {
    exists run :: AllPermitted(b.grace, b.renames, run) && After(c, b.clock, b.accounts, run) == s
  }

  lemma ReachStep(c: Config, b: Start, s: Sys, a: Action)
    requires Reachable(c, b, s) && Permitted(b.grace, b.renames, a)
    ensures Reachable(c, b, Do(c, s, a))
  {
    hide Do;
    var run :| AllPermitted(b.grace, b.renames, run) && After(c, b.clock, b.accounts, run) == s;
    assert (run + [a])[..|run|] == run;
    forall x | x in run + [a] ensures Permitted(b.grace, b.renames, x) {
      assert x in run || x == a;
    }
    assert After(c, b.clock, b.accounts, run + [a]) == Do(c, s, a);
  }

  predicate SameKey(s: Sys, e1: Event, e2: Event) {
    && e1 in s.published && e2 in s.published && (e1.row.id, e1.row.stamp) !in s.org.late
    && e1.row.id == e2.row.id && e1.row.stamp == e2.row.stamp
  }

  /** In every run with at least this grace, two events with one key carry the same deal content, late edits of that
    * second aside. */
  ghost predicate OneContentPerKey(c: Config, grace: int) {
    forall b: Start, s, e1, e2 :: b.grace == grace && Reachable(c, b, s) && SameKey(s, e1, e2) ==>
                                    SameDealContent(e1.row, e2.row)
  }

  /** In every run that also renames no account, they carry the same row. */
  ghost predicate OneRowPerKey(c: Config, grace: int) {
    forall b: Start, s, e1, e2 :: b.grace == grace && !b.renames && Reachable(c, b, s) && SameKey(s, e1, e2) ==>
                                    e1.row == e2.row
  }

  const ACCOUNTS: map<string, string> := map["001" := "Acme"]

  function Sample(name: string): Deal {
    Deal(name, Some("001"), Some(Decimal(1, 0)), Some("2026-01-01"), "Closed Won", true)
  }

  lemma SampleIsMappable(name: string, stamp: int, account: string)
    requires stamp > 0 && account != ""
    ensures Mappable(SfRow("006", name, Some("001"), Some(account), Some(Decimal(1, 0)), Some("2026-01-01"), "Closed Won", stamp))
  {
    assert DateShape("2026-01-01");
  }

  lemma StartIsReachable(c: Config, b: Start)
    ensures Reachable(c, b, Init(b.clock, b.accounts))
  {
    assert AllPermitted(b.grace, b.renames, []) && After(c, b.clock, b.accounts, []) == Init(b.clock, b.accounts);
  }

  /** One deal edited once and visible. */
  lemma FirstEdit(c: Config, b: Start) returns (s: Sys)
    requires c.lag >= 0 && WholeSecond(b.clock) && b.accounts == ACCOUNTS
    ensures Reachable(c, b, s)
    ensures s == Init(b.clock, ACCOUNTS).(org := s.org)
    ensures s.org == Org(b.clock, map["006" := Row(Sample("a"), b.clock, true)], ACCOUNTS, map[], {},
                         map[("006", b.clock) := Sample("a")], map["006" := b.clock])
  {
    hide Reachable;
    var s0 := Init(b.clock, ACCOUNTS);
    StartIsReachable(c, b);
    s := Then(c, b, s0, Begin(0, "006", Sample("a")));
    var begun := s.org;
    s := Then(c, b, s, Commit(0));
    assert begun.open - {0} == map[];
  }

  lemma MissingIsEnqueued(c: Config, row: SfRow, now: int, grace: int)
    requires Mappable(row) && Reconcile.Checked(row, now, grace)
    ensures Event(row, now) in Wanted(Rec(now, grace, [row], map[]))
  {
    DecodeWire(Event(row, now));
    Reconcile.EnqueuedExactly([row], map[], now, grace);
  }

  lemma EnqueueOne(c: Config, s: Sys, k: nat, e: Event)
    requires k in s.recs && e in Wanted(s.recs[k])
    ensures Do(c, s, Enqueue(k, [e])) == Publish(s, [e])
  {
    hide Publish, Wanted, DoPoll, DoWork, DoRedrive;
  }

  lemma ReadOneDeal(c: Config, s: Sys, k: nat, row: SfRow, grace: int)
    requires k !in s.recs && row in Won(s.org)
    ensures var now := s.org.clock + c.skew;
            Do(c, s, ReadDeals(k, now, grace, [row])) == s.(recs := s.recs[k := Rec(now, grace, [row], map[])])
  {
    hide Won, DoPoll, DoWork, DoRedrive;
    assert forall x :: x in [row] ==> x == row;
  }

  lemma StopOne(c: Config, s: Sys, k: nat)
    ensures Do(c, s, StopRec(k)) == s.(recs := s.recs - {k})
  {
    hide DoPoll, DoWork, DoRedrive;
  }

  lemma PublishOne(s: Sys, e: Event)
    ensures Publish(s, [e]).published == s.published + {e}
    ensures Publish(s, [e]) == s.(main := Publish(s, [e]).main, next := s.next + 1, published := s.published + {e})
  {
    assert (set x | x in [e]) == {e};
  }

  /** A reconciliation of that one deal publishes it as it is now, read at the latest moment its clock allows. */
  lemma ReconcileOnce(c: Config, b: Start, s: Sys, k: nat) returns (t: Sys)
    requires Reachable(c, b, s)
    requires k !in s.recs && s.erp == EMPTY && "006" in s.org.rows && s.org.rows["006"].deal.won
    requires Mappable(View(s.org, "006")) && s.org.rows["006"].stamp <= s.org.clock + c.skew - b.grace
    ensures Reachable(c, b, t)
    ensures t.org == s.org && t.erp == s.erp && t.recs == s.recs
    ensures t.published == s.published + {Event(View(s.org, "006"), s.org.clock + c.skew)}
  {
    hide Reachable, Do, Publish, Mappable, Wanted;
    var row, now := View(s.org, "006"), s.org.clock + c.skew;
    var e := Event(row, now);
    assert row in Won(s.org);
    ReachStep(c, b, s, ReadDeals(k, now, b.grace, [row]));
    var s1 := s.(recs := s.recs[k := Rec(now, b.grace, [row], map[])]);
    ReadOneDeal(c, s, k, row, b.grace);
    MissingIsEnqueued(c, row, now, b.grace);
    EnqueueOne(c, s1, k, e);
    ReachStep(c, b, s1, Enqueue(k, [e]));
    var s2 := Publish(s1, [e]);
    PublishOne(s1, e);
    ReachStep(c, b, s2, StopRec(k));
    StopOne(c, s2, k);
    t := s2.(recs := s2.recs - {k});
    assert s2.recs - {k} == s.recs;
  }

  lemma Then(c: Config, b: Start, s: Sys, step: OrgStep) returns (t: Sys)
    requires Reachable(c, b, s) && Permitted(b.grace, b.renames, Salesforce(step))
    ensures Reachable(c, b, t)
    ensures t == s.(org := OrgDo(s.org, c.lag, step))
  {
    ReachStep(c, b, s, Salesforce(step));
    t := Do(c, s, Salesforce(step));
  }

  /** When the reconciler can read the deal while an edit stamped in its second is still open, and on time. */
  lemma ReadTooEarly(c: Config, grace: int) returns (b: Start, s: Sys)
    requires c.lag >= 0 && !Patient(c, grace)
    ensures b.grace == grace && !b.renames && b.accounts == ACCOUNTS && Reachable(c, b, s)
    ensures s == Init(b.clock, ACCOUNTS).(org := s.org) && s.org.clock + c.skew - grace >= SECOND
    ensures var top := map["006" := SECOND];
            s.org == Org(s.org.clock, map["006" := Row(Sample("a"), SECOND, true)], ACCOUNTS,
                         map[1 := Edit("006", Sample("b"), SECOND + 999)], {}, map[("006", SECOND) := Sample("a")], top)
    ensures s.org.clock <= SECOND + 999 + c.lag
  {
    hide Reachable;
    b := Start(grace, false, SECOND, ACCOUNTS);
    s := FirstEdit(c, b);
    s := Then(c, b, s, Tick(999));
    s := Then(c, b, s, Begin(1, "006", Sample("b")));
    s := Then(c, b, s, Tick(if grace - c.skew > 999 then grace - c.skew - 999 else 0));
  }

  /** An impatient reconciler can publish one key with two contents, in a run without late edits or renames. */
  lemma ImpatienceMixesContent(c: Config, grace: int)
    requires c.lag >= 0 && !Patient(c, grace)
    ensures !OneContentPerKey(c, grace) && !OneRowPerKey(c, grace)
  {
    hide Reachable, Mappable;
    var b, s := ReadTooEarly(c, grace);
    SampleIsMappable("a", SECOND, "Acme");
    var t := ReconcileOnce(c, b, s, 0);
    var e1 := Event(View(s.org, "006"), s.org.clock + c.skew);
    t := Then(c, b, t, Commit(1));
    SampleIsMappable("b", SECOND, "Acme");
    var u := ReconcileOnce(c, b, t, 0);
    var e2 := Event(View(t.org, "006"), t.org.clock + c.skew);
    assert e1.row.name == "a" && e2.row.name == "b" && "a"[0] != "b"[0];
    assert SameKey(u, e1, e2);
  }

  /** Content is stable exactly when the least grace is at least one second longer than the lag and the skew
    * together; and so is the whole row, where no account is renamed. */
  lemma StableExactlyWhenPatient(c: Config, grace: int)
    requires c.lag >= 0
    ensures OneContentPerKey(c, grace) <==> Patient(c, grace)
    ensures OneRowPerKey(c, grace) <==> Patient(c, grace)
  {
    if Patient(c, grace) {
      forall b: Start, s, e1, e2 | b.grace == grace && Reachable(c, b, s) && SameKey(s, e1, e2)
        ensures SameDealContent(e1.row, e2.row) && (!b.renames ==> e1.row == e2.row)
      {
        var run :| AllPermitted(grace, b.renames, run) && After(c, b.clock, b.accounts, run) == s;
        PermittedIsCareful(c, grace, b.renames, run);
        OneKeyOneContent(c, b.clock, b.accounts, run, e1, e2);
      }
    } else {
      ImpatienceMixesContent(c, grace);
    }
  }

  lemma PermittedIsCareful(c: Config, grace: int, renames: bool, run: seq<Action>)
    requires Patient(c, grace) && AllPermitted(grace, renames, run)
    ensures Careful(c, run) && (!renames ==> forall a :: a in run ==> !Renames(a))
  {
    assert forall a :: a in run ==> Permitted(grace, renames, a);
  }

  // ---- the account's name ---------------------------------------------------------------------

  /** A poll opens its window and reads the one deal. */
  lemma ReadOnce(c: Config, b: Start, s: Sys, k: nat, row: SfRow, upper: int)
    requires Reachable(c, b, s) && k !in s.runs && s.mark == None
    requires upper == Poller.Upper(Truncate(s.org.clock), c.lag) && Won(s.org) == {row} && c.start <= row.stamp < upper
    ensures Reachable(c, b, s.(runs := s.runs[k := HasRows(c.start, upper, [row])]))
  {
    hide Reachable, DoWork, DoRedrive, DoReconcile, Won, Publisher.SafePrefix, Poller.NextMark;
    ReachStep(c, b, s, PollMark(k));
    var s1 := s.(runs := s.runs[k := HasMark(c.start)]);
    assert s1 == Do(c, s, PollMark(k));
    ReachStep(c, b, s1, PollClock(k));
    var s2 := s.(runs := s.runs[k := HasClock(c.start, upper)]);
    assert s2 == Do(c, s1, PollClock(k));
    assert Poller.IsAnswer(Won(s2.org), c.start, upper, [row]);
    ReachStep(c, b, s2, PollQuery(k, [row]));
    assert s.(runs := s.runs[k := HasRows(c.start, upper, [row])]) == Do(c, s2, PollQuery(k, [row]));
  }

  lemma SendOne(c: Config, s: Sys, k: nat, from: int, upper: int, row: SfRow)
    requires k in s.runs && s.runs[k] == HasRows(from, upper, [row])
    ensures Do(c, s, PollSend(k, 0, 1, [Event(row, 0)]))
         == Publish(s, [Event(row, 0)]).(runs := s.runs[k := HasSent(upper)])
  {
    hide Publish, DoWork, DoRedrive, DoReconcile;
    var e := Event(row, 0);
    assert Poller.Package([row], 0) == [e];
    assert Publisher.SafePrefix([e], 1, [e]);
  }

  lemma StopPoll(c: Config, s: Sys, k: nat)
    ensures Do(c, s, PollStop(k)) == s.(runs := s.runs - {k})
  {
    hide DoWork, DoRedrive, DoReconcile;
  }

  /** One poll that sends the one deal and then stops before writing its watermark. */
  lemma PollOnce(c: Config, b: Start, s: Sys, k: nat) returns (t: Sys)
    requires Reachable(c, b, s)
    requires k !in s.runs && s.mark == None && s.org.rows.Keys == {"006"} && s.org.rows["006"].deal.won
    requires c.start <= s.org.rows["006"].stamp < Poller.Upper(Truncate(s.org.clock), c.lag)
    ensures Reachable(c, b, t)
    ensures t.org == s.org && t.mark == None && t.runs == s.runs
    ensures t.published == s.published + {Event(View(s.org, "006"), 0)}
  {
    hide Reachable, Do, Publish, Poller.Upper;
    var row, upper := View(s.org, "006"), Poller.Upper(Truncate(s.org.clock), c.lag);
    var e := Event(row, 0);
    assert Won(s.org) == {row};
    ReadOnce(c, b, s, k, row, upper);
    var s3 := s.(runs := s.runs[k := HasRows(c.start, upper, [row])]);
    SendOne(c, s3, k, c.start, upper, row);
    ReachStep(c, b, s3, PollSend(k, 0, 1, [e]));
    PublishOne(s3, e);
    var s4 := Publish(s3, [e]).(runs := s3.runs[k := HasSent(upper)]);
    ReachStep(c, b, s4, PollStop(k));
    StopPoll(c, s4, k);
    t := s4.(runs := s4.runs - {k});
    assert t.runs == s.runs;
  }

  /** A whole second from the first of 1970 on, and not before the configured start. */
  function FirstSecond(start: int): (t: int)
    ensures WholeSecond(t) && t >= SECOND && t >= start
  {
    if start <= SECOND then SECOND else Truncate(start + SECOND - 1)
  }

  /** An account's name is not part of its deals' stamps: renaming the account between two polls of one second
    * gives one key with two customer names. */
  lemma RenameChangesPublishedName(c: Config, grace: int)
    requires c.lag >= 0
    ensures exists b: Start, s, e1, e2 ::
              b.grace == grace && Reachable(c, b, s) && SameKey(s, e1, e2) && e1.row.accountName != e2.row.accountName
  {
    hide Reachable;
    var b := Start(grace, true, FirstSecond(c.start), ACCOUNTS);
    var s := FirstEdit(c, b);
    s := Then(c, b, s, Tick(c.lag + 2 * SECOND));
    LaterWindow(c, b.clock);
    var t := PollOnce(c, b, s, 0);
    t := Then(c, b, t, Rename("001", "Acme Ltd"));
    var u := PollOnce(c, b, t, 0);
    var e1, e2 := Event(View(s.org, "006"), 0), Event(View(t.org, "006"), 0);
    assert e1.row.accountName == Some("Acme") && e2.row.accountName == Some("Acme Ltd");
    assert |"Acme"| != |"Acme Ltd"|;
    assert SameKey(u, e1, e2);
  }

  lemma LaterWindow(c: Config, stamp: int)
    requires c.lag >= 0
    ensures stamp < Poller.Upper(Truncate(stamp + c.lag + 2 * SECOND), c.lag)
  {
  }
}

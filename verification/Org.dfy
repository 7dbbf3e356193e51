/** Salesforce as the pollers see it: rows stamped when an edit is written and visible when it commits. */
module Org {
  import opened Prelude
  import opened Calendar
  import opened Decimals
  import opened Events

  /** What a user can edit on a deal. `won` is Salesforce's own flag for the stage. */
  datatype Deal = Deal(
    name: string,
    accountId: Option<string>,
    amount: Option<Decimal>,
    closeDate: Option<string>,
    stageName: string,
    won: bool)

  /** A committed deal. `onTime` remembers whether its last edit committed within the lag. */
  datatype Row = Row(deal: Deal, stamp: int, onTime: bool)

  /** An edit that has been written, and stamped, but not committed. */
  datatype Edit = Edit(id: string, deal: Deal, began: int)

  /** `late`, `last` and `top` are history: the deals and stamps with an edit that committed after the lag; what each
    * deal held last at each stamp; each deal's highest stamp. */
  datatype Org = Org(
    clock: int,
    rows: map<string, Row>,
    accounts: map<string, string>,
    open: map<nat, Edit>,
    late: set<(string, int)>,
    last: map<(string, int), Deal>,
    top: map<string, int>)

  datatype OrgStep =
    | Begin(slot: nat, id: string, deal: Deal)
    | Commit(slot: nat)
    | Abort(slot: nat)
    | Remove(id: string)
    | Rename(account: string, name: string)
    | Tick(amount: nat)

  function NewOrg(clock: int, accounts: map<string, string>): Org {
    Org(clock, map[], accounts, map[], {}, map[], map[])
  }

  function AfterCommit(org: Org, lag: int, e: Edit): Org {
    var stamp := Truncate(e.began);
    var onTime := org.clock <= e.began + lag;
    org.(rows := org.rows[e.id := Row(e.deal, stamp, onTime)],
         last := org.last[(e.id, stamp) := e.deal],
         top := org.top[e.id := if e.id in org.top && org.top[e.id] > stamp then org.top[e.id] else stamp],
         late := if onTime then org.late else org.late + {(e.id, stamp)})
  }

  function OrgDo(org: Org, lag: int, step: OrgStep): Org {
    match step
    case Begin(slot, id, deal) =>
      if slot in org.open then org else org.(open := org.open[slot := Edit(id, deal, org.clock)])
    case Commit(slot) =>
      if slot !in org.open then org
      else AfterCommit(org, lag, org.open[slot]).(open := org.open - {slot})
    case Abort(slot) => org.(open := org.open - {slot})
    case Remove(id) => org.(rows := org.rows - {id})
    case Rename(account, name) => org.(accounts := org.accounts[account := name])
    case Tick(amount) => org.(clock := org.clock + amount)
  }

  function AccountName(org: Org, accountId: Option<string>): Option<string> {
    if accountId.Some? && accountId.value in org.accounts then Some(org.accounts[accountId.value]) else None
  }

  /** One row of the won query. */
  function View(org: Org, id: string): SfRow
    requires id in org.rows
  {
    var d := org.rows[id].deal;
    SfRow(id, d.name, d.accountId, AccountName(org, d.accountId), d.amount, d.closeDate, d.stageName, org.rows[id].stamp)
  }

  function Won(org: Org): set<SfRow> {
    set id | id in org.rows && org.rows[id].deal.won :: View(org, id)
  }

  /** The row shows this deal: every field but the account's name, which is not the deal's own. */
  predicate Shows(x: SfRow, d: Deal) {
    x.name == d.name && x.accountId == d.accountId && x.amount == d.amount && x.closeDate == d.closeDate
    && x.stageName == d.stageName && d.won
  }

  ghost predicate OrgInv(org: Org) {
    && (forall k :: k in org.open ==> org.open[k].began <= org.clock)
    && (forall id :: id in org.rows ==> RowInv(org, id))
  }

  predicate RowInv(org: Org, id: string)
    requires id in org.rows
  {
    var r := org.rows[id];
    && WholeSecond(r.stamp)
    && (id, r.stamp) in org.last && org.last[(id, r.stamp)] == r.deal
    && id in org.top && r.stamp <= org.top[id]
    && (!r.onTime ==> (id, r.stamp) in org.late)
  }

  lemma OrgInvStays(org: Org, lag: int, step: OrgStep)
    requires OrgInv(org)
    ensures OrgInv(OrgDo(org, lag, step))
  {
    var after := OrgDo(org, lag, step);
    forall id | id in after.rows
      ensures RowInv(after, id)
    {
      if id in org.rows {
        assert RowInv(org, id);
      }
    }
  }

  /** No edit written in the second `stamp` can still commit within the lag. */
  predicate Settled(clock: int, lag: int, stamp: int) {
    stamp + SECOND + lag <= clock
  }

  /** A row somebody read, of a deal at a stamp it really had. */
  predicate Seen(org: Org, x: SfRow) {
    WholeSecond(x.stamp) && (x.id, x.stamp) in org.last && x.id in org.top && x.stamp <= org.top[x.id]
  }

  /** A row read after its second was settled: unless an edit of the deal in that second commits late, it shows what
    * the deal held at that stamp, for good. */
  predicate Genuine(org: Org, lag: int, x: SfRow) {
    && Seen(org, x)
    && Settled(org.clock, lag, x.stamp)
    && ((x.id, x.stamp) !in org.late ==> Shows(x, org.last[(x.id, x.stamp)]))
  }

  lemma SeenStays(org: Org, lag: int, step: OrgStep, x: SfRow)
    requires Seen(org, x)
    ensures Seen(OrgDo(org, lag, step), x)
  {
  }

  /** A commit into a settled second is a late one, so what a genuine row shows stays true. */
  lemma GenuineStays(org: Org, lag: int, step: OrgStep, x: SfRow)
    requires OrgInv(org) && Genuine(org, lag, x)
    ensures Genuine(OrgDo(org, lag, step), lag, x)
  {
    SeenStays(org, lag, step, x);
  }

  lemma ViewIsSeen(org: Org, x: SfRow)
    requires OrgInv(org) && x in Won(org)
    ensures Seen(org, x) && x.id in org.rows && x == View(org, x.id)
    ensures Shows(x, org.last[(x.id, x.stamp)])
  {
    assert RowInv(org, x.id);
  }

  /** The deal is won and its last edit committed within the lag. */
  predicate OnTimeWon(org: Org, id: string) {
    id in org.rows && org.rows[id].deal.won && org.rows[id].onTime
  }

  /** Behind a mark that trails the clock by the lag, nothing new appears on time. */
  lemma NothingNewBehind(org: Org, lag: int, step: OrgStep, mark: int, id: string)
    requires OrgInv(org) && WholeSecond(mark) && mark + lag <= org.clock
    requires var after := OrgDo(org, lag, step); OnTimeWon(after, id) && after.rows[id].stamp < mark
    ensures OnTimeWon(org, id) && org.rows[id] == OrgDo(org, lag, step).rows[id]
  {
  }
}

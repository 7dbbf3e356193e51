/** Cursor paging over a snapshot, and the client that follows it to the end. */
module Paging {
  import opened Prelude
  import opened Calendar
  import opened Decimals
  import opened Events

  /** An HTTP status other than 200. */
  type ErrorStatus = n: nat | n != 200 witness 500

  const UNAUTHORIZED: ErrorStatus := 401
  const BAD_REQUEST: ErrorStatus := 400
  const NOT_FOUND: ErrorStatus := 404

  /** `next` is empty on the last page. */
  datatype Page = Page(total: nat, done: bool, next: string, records: seq<SfRow>)

  /** What a request asks for: a new query, or the text after the version in a next-page URL. */
  datatype Path = First(soql: string) | Next(rest: string)

  /** A request that never got an answer has no status. */
  datatype Failure = Unreachable | Refused | ApiError(status: ErrorStatus)

  type Answers = string -> Option<seq<SfRow>>

  // ---- next-page URLs ----------------------------------------------------------------

  const CURSOR := "01gFAKE"
  const QUERY := "/query/"

  function Locator(n: nat): string {
    CURSOR + Padded(DigitsOf(n), 12)
  }

  function NextUrl(locator: string, offset: nat): string {
    QUERY + locator + "-" + DigitsOf(offset)
  }

  /** The locator and offset a path names, if it has exactly the form of a next-page URL. */
  function ParseNext(rest: string): Option<(string, nat)> {
    if !(QUERY + CURSOR <= rest) then None
    else
      var number := rest[|QUERY + CURSOR|..];
      var n := DigitRun(number);
      if n == 0 || n >= |number| || number[n] != '-' then None
      else
        var offset := number[n + 1..];
        if offset != "" && DigitRun(offset) == |offset| then Some((CURSOR + number[..n], NatOf(offset))) else None
  }

  lemma NextUrlParses(n: nat, offset: nat)
    ensures ParseNext(NextUrl(Locator(n), offset)) == Some((Locator(n), offset))
  {
    hide NatOf, DigitRun, DigitsOf, Padded;
    var front, id, digits := QUERY + CURSOR, Padded(DigitsOf(n), 12), DigitsOf(offset);
    var tail := "-" + digits;
    var number := id + tail;
    assert NextUrl(Locator(n), offset) == front + number;
    TakesFront(front, number);
    DigitRunStops(id, tail);
    DigitRunStops(digits, "");
    assert digits + "" == digits && number[|id|] == '-' && number[|id| + 1..] == digits && number[..|id|] == id;
  }

  lemma TakesFront(front: string, rest: string)
    ensures front <= front + rest && (front + rest)[|front|..] == rest
  {
  }

  lemma LocatorsDiffer(m: nat, n: nat)
    requires Locator(m) == Locator(n)
    ensures m == n
  {
    assert Locator(m)[|CURSOR|..] == Padded(DigitsOf(m), 12);
    assert Locator(n)[|CURSOR|..] == Padded(DigitsOf(n), 12);
  }

  // ---- the server --------------------------------------------------------------------

  function Slice<T>(s: seq<T>, lo: nat, hi: nat): seq<T>
    requires lo <= hi
  {
    s[Min(lo, |s|)..Min(hi, |s|)]
  }

  function PageOf(records: seq<SfRow>, size: nat, locator: string, offset: nat): Page {
    var done := offset + size >= |records|;
    Page(|records|, done, if done then "" else NextUrl(locator, offset + size), Slice(records, offset, offset + size))
  }

  /** With an empty page size a query that found anything would be sent round for ever: the next page is this one. */
  lemma EmptyPagesNeverEnd(records: seq<SfRow>, n: nat, offset: nat)
    requires offset < |records|
    ensures var page := PageOf(records, 0, Locator(n), offset);
            !page.done && page.records == [] && ParseNext(page.next) == Some((Locator(n), offset))
  {
    NextUrlParses(n, offset);
  }

  /** Each page continues where the last one stopped, and the one that reaches the end says so. */
  lemma PagesTile(records: seq<SfRow>, size: nat, n: nat, offset: nat)
    requires size > 0 && offset <= |records|
    ensures var page := PageOf(records, size, Locator(n), offset);
            && records[..offset] + page.records == records[..Min(offset + size, |records|)]
            && page.total == |records| && (page.done <==> offset + size >= |records|)
            && (page.done <==> page.next == "")
            && (!page.done ==> ParseNext(page.next) == Some((Locator(n), offset + size)))
  {
    NextUrlParses(n, offset + size);
    SliceTiles(records, offset, offset + size);
    assert NextUrl(Locator(n), offset + size) != "";
  }

  lemma SliceTiles<T>(s: seq<T>, lo: nat, hi: nat)
    requires lo <= |s| && lo <= hi
    ensures s[..lo] + Slice(s, lo, hi) == s[..Min(hi, |s|)]
  {
  }

  class App {
    var cursors: map<string, seq<SfRow>>
    var nextId: nat
    var tokens: set<string>
    var issued: nat
    var answers: Answers
    const size: nat

    constructor (size: nat, answers: Answers)
      ensures this.size == size && this.answers == answers && cursors == map[] && nextId == 1 && tokens == {} && issued == 0
    {
      this.size, this.answers := size, answers;
      cursors, nextId, tokens, issued := map[], 1, {}, 0;
    }

    /** A cursor of ours: other clients do not close it, and new ones do not collide with it. */
    predicate Holds(n: nat, records: seq<SfRow>)
      reads this
    {
      n < nextId && Locator(n) in cursors && cursors[Locator(n)] == records
    }

    method Grant() returns (token: string)
      modifies this`tokens, this`issued
      ensures token == DigitsOf(old(issued)) && issued == old(issued) + 1 && tokens == old(tokens) + {token}
    {
      token := DigitsOf(issued);
      issued := issued + 1;
      tokens := tokens + {token};
    }

    /** Answer one request, after the checks every request goes through. */
    method Serve(token: string, path: Path, fault: Option<ErrorStatus>) returns (r: Result<Page, Failure>)
      modifies this`cursors, this`nextId
      ensures r.Err? ==> r.error.ApiError?
      ensures token !in tokens ==> r == Err(ApiError(UNAUTHORIZED))
      ensures token in tokens && fault.Some? ==> r == Err(ApiError(fault.value))
      ensures r.Err? ==> cursors == old(cursors) && nextId == old(nextId)
      ensures r.Ok? && path.First? ==>
                && answers(path.soql).Some? && nextId == old(nextId) + 1
                && r.value == PageOf(answers(path.soql).value, size, Locator(old(nextId)), 0)
                && cursors == (if r.value.done then old(cursors) - {Locator(old(nextId))}
                               else old(cursors)[Locator(old(nextId)) := answers(path.soql).value])
      ensures r.Ok? && path.Next? ==>
                && ParseNext(path.rest).Some? && nextId == old(nextId)
                && var (locator, offset) := ParseNext(path.rest).value;
                && locator in old(cursors) && r.value == PageOf(old(cursors[locator]), size, locator, offset)
                && cursors == if r.value.done then old(cursors) - {locator} else old(cursors)
      ensures token in tokens && fault.None? && path.First? ==>
                (if answers(path.soql).Some? then r.Ok? else r == Err(ApiError(BAD_REQUEST)))
      ensures token in tokens && fault.None? && path.Next? ==>
                if ParseNext(path.rest).None? then r == Err(ApiError(NOT_FOUND))
                else if ParseNext(path.rest).value.0 !in old(cursors) then r == Err(ApiError(BAD_REQUEST))
                else r.Ok?
    {
      if token !in tokens {
        return Err(ApiError(UNAUTHORIZED));
      }
      if fault.Some? {
        return Err(ApiError(fault.value));
      }
      match path
      case First(soql) =>
        var records := answers(soql);
        if records.None? {
          return Err(ApiError(BAD_REQUEST));
        }
        var locator := Locator(nextId);
        nextId := nextId + 1;
        cursors := cursors[locator := records.value];
        var page := TakePage(locator, 0);
        return Ok(page);
      case Next(rest) =>
        var place := ParseNext(rest);
        if place.None? {
          return Err(ApiError(NOT_FOUND));
        }
        if place.value.0 !in cursors {
          return Err(ApiError(BAD_REQUEST));
        }
        var page := TakePage(place.value.0, place.value.1);
        return Ok(page);
    }

    /** Cut one page; the last one closes the cursor. */
    method TakePage(locator: string, offset: nat) returns (page: Page)
      requires locator in cursors
      modifies this`cursors
      ensures page == PageOf(old(cursors[locator]), size, locator, offset)
      ensures cursors == if page.done then old(cursors) - {locator} else old(cursors)
    {
      var records := cursors[locator];
      var done := offset + size >= |records|;
      var next := if done then "" else NextUrl(locator, offset + size);
      page := Page(|records|, done, next, Slice(records, offset, offset + size));
      if done {
        cursors := cursors - {locator};
      }
    }

    /** Tokens end, by age or because somebody revoked them. */
    method Lapse(ended: set<string>)
      modifies this`tokens
      ensures tokens == old(tokens) - ended
    {
      tokens := tokens - ended;
    }

    /** What happens between two requests: deals change, tokens lapse, and other clients open and close cursors. */
    method PassTime(w: Weather, mine: Option<string>, ghost n: nat)
      requires mine == Some(Locator(n)) || mine == None
      modifies this`answers, this`tokens, this`cursors, this`nextId
      ensures answers == w.answers && tokens == old(tokens) - w.lapsed && nextId >= old(nextId)
      ensures forall records :: mine.Some? && old(Holds(n, records)) ==> Holds(n, records)
    {
      answers := w.answers;
      tokens := tokens - w.lapsed;
      cursors := map l | l in cursors && (l !in w.closed || mine == Some(l)) :: cursors[l];
      for i := 0 to |w.others|
        invariant nextId >= old(nextId) && answers == w.answers && tokens == old(tokens) - w.lapsed
        invariant forall records :: mine.Some? && old(Holds(n, records)) ==> Holds(n, records)
      {
        cursors := cursors[Locator(nextId) := w.others[i]];
        if Locator(n) == Locator(nextId) {
          LocatorsDiffer(n, nextId);
        }
        nextId := nextId + 1;
      }
    }
  }

  /** Everything outside the client around one attempt. `lapsed` are the tokens that end before it, and `cut` those that
    * end between the moment the client has its token and its request. `granted` and `reaches` are the token request
    * and the query itself getting through. */
  datatype Weather = Weather(
    answers: Answers,
    lapsed: set<string>,
    cut: set<string>,
    others: seq<seq<SfRow>>,
    closed: set<string>,
    granted: bool,
    reaches: bool,
    fault: Option<ErrorStatus>)

  predicate Quiet(w: Weather) {
    w.granted && w.reaches && w.fault.None?
  }

  /** Nothing goes wrong but tokens ending and deals changing. */
  ghost predicate Calm(env: nat -> Weather) {
    forall i: nat :: Quiet(env(i))
  }

  // ---- tokens ------------------------------------------------------------------------

  /** The tokens the server takes, how many it has issued, and the one the client caches. */
  datatype Auth = Auth(live: set<string>, issued: nat, cached: Option<string>)

  /** One attempt, as the tokens see it: the client's token, renewed if it has none or `renew`, meets the request. */
  function Attempted(a: Auth, w: Weather, renew: bool): (r: (Auth, bool))
    ensures r.0.cached.Some? && (r.1 <==> r.0.cached.value in r.0.live)
  {
    var b := if a.cached.Some? && !renew then a.(live := a.live - w.lapsed)
             else Auth(a.live - w.lapsed + {DigitsOf(a.issued)}, a.issued + 1, Some(DigitsOf(a.issued)));
    var after := b.(live := b.live - w.cut);
    (after, after.cached.value in after.live)
  }

  /** One request, from attempt `at` on: after a first 401 there is one more attempt, with a new token. */
  function Asked(a: Auth, env: nat -> Weather, at: nat): (Auth, nat, bool) {
    var (b, ok) := Attempted(a, env(at), false);
    if ok then (b, at + 1, true)
    else
      var (d, again) := Attempted(b, env(at + 1), true);
      (d, at + 2, again)
  }

  /** `n` requests one after another. */
  predicate AllAsked(a: Auth, env: nat -> Weather, at: nat, n: nat)
    decreases n
  {
    n == 0 || (var (b, next, ok) := Asked(a, env, at); ok && AllAsked(b, env, next, n - 1))
  }

  /** How many pages follow offset `done`. */
  function PagesAfter(total: nat, size: nat, done: nat): nat
    requires size > 0
    decreases if done < total then total - done else 0
  {
    if done >= total then 0 else 1 + PagesAfter(total, size, done + size)
  }

  /** A request meets two 401s in a row exactly when the token it starts with is no longer taken and the one it
    * renews it with ends before its own request. */
  lemma RefusedTwice(a: Auth, env: nat -> Weather, at: nat)
    ensures var (b, ok) := Attempted(a, env(at), false);
            !Asked(a, env, at).2 <==> !ok && DigitsOf(b.issued) in env(at + 1).cut
    ensures !Attempted(a, env(at), false).1 <==>
              if a.cached.Some? then a.cached.value !in a.live - env(at).lapsed - env(at).cut else DigitsOf(a.issued) in env(at).cut
  {
  }

  /** The tokens before attempt `i` of one request after another, and whether that attempt renews. */
  function Before(a: Auth, env: nat -> Weather, i: nat): (Auth, bool) {
    if i == 0 then (a, false)
    else
      var (b, renew) := Before(a, env, i - 1);
      var (d, ok) := Attempted(b, env(i - 1), renew);
      (d, !ok && !renew)
  }

  /** A token that an attempt gets is still taken when that attempt's request arrives. */
  ghost predicate GrantsLast(a: Auth, env: nat -> Weather) {
    forall i: nat :: var (b, renew) := Before(a, env, i);
                     b.cached.None? || renew ==> DigitsOf(b.issued) !in env(i).cut
  }

  /** Then none of it matters. */
  lemma {:induction false} LastingTokensSuffice(a: Auth, env: nat -> Weather, at: nat, n: nat)
    requires GrantsLast(a, env) && !Before(a, env, at).1
    ensures AllAsked(Before(a, env, at).0, env, at, n)
    decreases n
  {
    hide Asked, GrantsLast, Before;
    if n > 0 {
      AskedIsAttempts(a, env, at);
      LastingTokensSuffice(a, env, Asked(Before(a, env, at).0, env, at).1, n - 1);
    }
  }

  /** A request takes one attempt or two, and with lasting grants the second is enough. */
  lemma AskedIsAttempts(a: Auth, env: nat -> Weather, at: nat)
    requires GrantsLast(a, env) && !Before(a, env, at).1
    ensures var (b, next, ok) := Asked(Before(a, env, at).0, env, at); ok && Before(a, env, next) == (b, false)
  {
    hide Before;
    var b := Before(a, env, at).0;
    BeforeNext(a, env, at);
    if !Attempted(b, env(at), false).1 {
      RefusedTwice(b, env, at);
      assert Before(a, env, at + 1).1;
      BeforeNext(a, env, at + 1);
    }
  }

  lemma BeforeNext(a: Auth, env: nat -> Weather, i: nat)
    ensures var (b, renew) := Before(a, env, i);
            var (d, ok) := Attempted(b, env(i), renew);
            Before(a, env, i + 1) == (d, !ok && !renew)
  {
  }

  /** While no token ends between its own grant and its own request, a query survives whatever ends later or between
    * requests. */
  lemma LastingTokensSurvive(a: Auth, env: nat -> Weather, soql: string, size: nat)
    requires size > 0 && Accepted(env, First(soql)) && GrantsLast(a, env)
    ensures Survives(a, env, soql, size)
  {
    hide Asked;
    assert Before(a, env, 0) == (a, false);
    AskedIsAttempts(a, env, 0);
    var (b, at, ok) := Asked(a, env, 0);
    assert at > 0 by { AttemptsGoOn(a, env); }
    LastingTokensSuffice(a, env, at, PagesAfter(|env(at - 1).answers(soql).value|, size, size));
  }

  lemma AttemptsGoOn(a: Auth, env: nat -> Weather)
    ensures Asked(a, env, 0).1 > 0
  {
  }

  /** Two tokens that live no time at all are enough: the query fails although nothing else goes wrong. */
  lemma BriefTokensFail(env: nat -> Weather, live: set<string>, issued: nat, soql: string, size: nat)
    requires size > 0 && DigitsOf(issued) in env(0).cut && DigitsOf(issued + 1) in env(1).cut
    ensures !Survives(Auth(live, issued, None), env, soql, size)
  {
    RefusedTwice(Auth(live, issued, None), env, 0);
  }

  class Client {
    var token: Option<string>

    constructor ()
      ensures token == None
    {
      token := None;
    }

    function Tokens(app: App): Auth
      reads this, app
    {
      Auth(app.tokens, app.issued, token)
    }

    /** The cached token, or a new one. */
    method GetToken(app: App, refresh: bool, granted: bool) returns (r: Option<string>)
      modifies this, app`tokens, app`issued
      ensures r.Some? ==> token == r
      ensures r.None? <==> (old(token).None? || refresh) && !granted
      ensures r.None? || (old(token).Some? && !refresh) ==> Tokens(app) == old(Tokens(app))
      ensures r.Some? && (old(token).None? || refresh) ==>
                Tokens(app) == Auth(old(app.tokens) + {r.value}, old(app.issued) + 1, r) && r.value == DigitsOf(old(app.issued))
    {
      if token.Some? && !refresh {
        return token;
      }
      if !granted {
        return None;
      }
      var renewed := app.Grant();
      token := Some(renewed);
      return token;
    }

    /** One attempt at one request. A first page comes with the number `n` of its cursor; a next page is of the cursor
      * `mine`, which a failed attempt leaves open. */
    method Attempt(app: App, path: Path, w: Weather, renew: bool, ghost mine: nat)
      returns (r: Result<Page, Failure>, ghost n: nat)
      requires path.Next? ==> Continues(path, mine) && app.Holds(mine, Snapshot(app.cursors, mine))
      modifies this, app
      ensures r.Ok? && path.First? ==>
                w.answers(path.soql).Some? && Given(app, n, w.answers(path.soql).value, 0, r.value)
      ensures r.Ok? && path.Next? ==>
                n == mine && Given(app, mine, old(Snapshot(app.cursors, mine)), OffsetOf(path), r.value)
      ensures r.Err? && path.Next? ==> n == mine && app.Holds(mine, old(Snapshot(app.cursors, mine)))
      ensures w.granted ==> Tokens(app) == Attempted(old(Tokens(app)), w, renew).0
      ensures Quiet(w) && (path.First? ==> w.answers(path.soql).Some?) ==>
                (if Attempted(old(Tokens(app)), w, renew).1 then r.Ok? else r == Err(ApiError(UNAUTHORIZED)))
    {
      n := mine;
      app.PassTime(w, CursorOf(path), mine);
      var tok := GetToken(app, renew, w.granted);
      if tok.None? {
        return Err(Refused), n;
      }
      app.Lapse(w.cut);
      if !w.reaches {
        return Err(Unreachable), n;
      }
      if path.First? {
        n := app.nextId;
      }
      r := app.Serve(tok.value, path, w.fault);
    }

    /** One request; a 401 is answered by one retry with a new token. `next` counts the attempts made so far. When
      * nothing goes wrong but tokens, it fails exactly when it is refused twice. */
    method GetJson(app: App, path: Path, env: nat -> Weather, at: nat, ghost mine: nat)
      returns (r: Result<Page, Failure>, next: nat, ghost n: nat)
      requires path.Next? ==> Continues(path, mine) && app.Holds(mine, Snapshot(app.cursors, mine))
      modifies this, app
      ensures at < next <= at + 2
      ensures r.Ok? && path.First? ==>
                && env(next - 1).answers(path.soql).Some?
                && Given(app, n, env(next - 1).answers(path.soql).value, 0, r.value)
      ensures r.Ok? && path.Next? ==>
                n == mine && Given(app, mine, old(Snapshot(app.cursors, mine)), OffsetOf(path), r.value)
      ensures Calm(env) && Accepted(env, path) ==>
                && (Tokens(app), next, r.Ok?) == Asked(old(Tokens(app)), env, at)
                && (r.Err? ==> r.error == ApiError(UNAUTHORIZED))
    {
      hide Attempted, PageOf, Locator, ParseNext;
      var attempt := 0;
      next, n := at, mine;
      ghost var snapshot := if path.Next? then Snapshot(app.cursors, mine) else [];
      ghost var first := Tokens(app);
      while true
        invariant 0 <= attempt <= 1 && next == at + attempt
        invariant path.Next? ==> n == mine && app.Holds(mine, snapshot)
        invariant attempt == 0 ==> Tokens(app) == first
        invariant attempt == 1 && Calm(env) && Accepted(env, path) ==> (Tokens(app), false) == Attempted(first, env(at), false)
        decreases 1 - attempt
      {
        r, n := Attempt(app, path, env(next), attempt > 0, mine);
        next := next + 1;
        if r == Err(ApiError(UNAUTHORIZED)) && attempt == 0 {
          attempt := attempt + 1;
          continue;
        }
        return r, next, n;
      }
    }

    /** Follow the pages of one query to the last. `taken` counts the attempts up to the one that opened the
      * query. Whatever the org does meanwhile, the result is what the query answered at that moment. When nothing
      * goes wrong but tokens, it fails exactly when one of its requests is refused twice. */
    method QueryAll(app: App, soql: string, env: nat -> Weather) returns (r: Result<seq<SfRow>, Failure>, ghost taken: nat)
      requires app.size > 0
      modifies this, app
      ensures r.Ok? ==> taken in {0, 1} && env(taken).answers(soql) == Some(r.value)
      ensures Calm(env) && Accepted(env, First(soql)) ==> (r.Ok? <==> Survives(old(Tokens(app)), env, soql, app.size))
    {
      hide ParseNext, NextUrl, Locator, PageOf, Slice, Calm, Asked;
      var path, all, at := First(soql), [], 0;
      ghost var n, snapshot: seq<SfRow> := 0, [];
      ghost var first := Tokens(app);
      taken := 0;
      while true
        invariant path.First? ==> path.soql == soql && all == [] && at == 0 && Tokens(app) == first
        invariant path.Next? ==>
                    && taken in {0, 1} && env(taken).answers(soql) == Some(snapshot)
                    && app.Holds(n, snapshot) && Continues(path, n) && OffsetOf(path) == |all|
                    && |all| < |snapshot| && all == snapshot[..|all|]
        invariant path.Next? && Calm(env) && Accepted(env, First(soql)) ==>
                    (Survives(first, env, soql, app.size) <==>
                       AllAsked(Tokens(app), env, at, PagesAfter(|snapshot|, app.size, |all|)))
        decreases if path.First? then 1 else 0, |snapshot| - |all|
      {
        var page;
        page, at, n := GetJson(app, path, env, at, n);
        if page.Err? {
          return Err(page.error), taken;
        }
        if path.First? {
          taken := at - 1;
          snapshot := env(taken).answers(soql).value;
        }
        PagesTile(snapshot, app.size, n, |all|);
        assert all == snapshot[..|all|] && snapshot[..|snapshot|] == snapshot;
        all := all + page.value.records;
        if page.value.done || page.value.next == "" {
          return Ok(all), taken;
        }
        path := Next(page.value.next);
      }
    }
  }

  /** No request of the whole query is refused twice: neither the first nor those for the pages after it. */
  ghost predicate Survives(a: Auth, env: nat -> Weather, soql: string, size: nat)
    requires size > 0
  {
    var (b, at, ok) := Asked(a, env, 0);
    ok && at > 0 && env(at - 1).answers(soql).Some?
    && AllAsked(b, env, at, PagesAfter(|env(at - 1).answers(soql).value|, size, size))
  }

  /** The path of a next page of cursor `n`. */
  predicate Continues(path: Path, n: nat) {
    path.Next? && ParseNext(path.rest).Some? && ParseNext(path.rest).value.0 == Locator(n)
  }

  /** The cursor a next-page path names: while we follow it nobody else closes it. */
  function CursorOf(path: Path): Option<string> {
    if path.Next? && ParseNext(path.rest).Some? then Some(ParseNext(path.rest).value.0) else None
  }

  function OffsetOf(path: Path): nat {
    if path.Next? && ParseNext(path.rest).Some? then ParseNext(path.rest).value.1 else 0
  }

  function Snapshot(cursors: map<string, seq<SfRow>>, n: nat): seq<SfRow> {
    if Locator(n) in cursors then cursors[Locator(n)] else []
  }

  /** The page at `offset` was given; the cursor stays open exactly while there is more. */
  predicate Given(app: App, n: nat, records: seq<SfRow>, offset: nat, page: Page)
    reads app
  {
    page == PageOf(records, app.size, Locator(n), offset)
    && if page.done then Locator(n) !in app.cursors else app.Holds(n, records)
  }

  ghost predicate Accepted(env: nat -> Weather, path: Path) {
    path.First? ==> forall i: nat :: env(i).answers(path.soql).Some?
  }
}

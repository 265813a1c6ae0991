/** What each transaction of the gate writes, row by row and message by message, and where booked tokens come from. */
module SupportEffects {
  import opened Basics
  import opened SupportGate
  import opened SupportRuns
  import opened SupportGuarantees

  // ---------------------------------------------------------------- a release

  /** Both counts are there and within a thousand million tokens. */
  predicate Usable(usage: ReportedUsage) {
    match usage
    case NotReported => false
    case Reported(input, output) =>
      && input.Some? && 0 <= input.value <= 1_000_000_000
      && output.Some? && 0 <= output.value <= 1_000_000_000
  }

  function UsableInput(usage: ReportedUsage): nat {
    if Usable(usage) then usage.input.value else 0
  }

  function UsableOutput(usage: ReportedUsage): nat {
    if Usable(usage) then usage.output.value else 0
  }

  function AtMostBigint(n: nat): nat {
    if n <= 9_223_372_036_854_775_807 then n else 9_223_372_036_854_775_807
  }

  predicate HoldsToken(row: UsageRow, user: UserId, token: Token) {
    row.user == user && row.activeToken == Some(token)
  }

  lemma FirstHolder(rows: seq<UsageRow>, user: UserId, token: Token, k: nat, start: nat)
    requires start <= k < |rows| && HoldsToken(rows[k], user, token)
    requires forall j :: 0 <= j < |rows| && j != k ==> !HoldsToken(rows[j], user, token)
    ensures FirstWithToken(rows, user, token, start) == Some(k)
  {
    var found := FirstWithToken(rows, user, token, start);
    assert found.Some?;
    assert HoldsToken(rows[found.value], user, token);
  }

  /**
   In every reachable state: a release whose slot is still there adds the reported counts to its row, each up to
   the largest stored number, if both are usable and nothing otherwise, and frees the slot; nothing else changes.
   */
  lemma ReleaseBooksTheUsage(cfg: Config, owners: Owners, events: seq<Event>, user: UserId, token: Token, usage: ReportedUsage, k: nat)
    requires WellTimed(0, events)
    requires k < |After(cfg, owners, events).rows| && HoldsToken(After(cfg, owners, events).rows[k], user, token)
    ensures var db := After(cfg, owners, events);
            var after := Step(cfg, owners, db, ReleaseEvent(user, token, usage));
            var row := db.rows[k];
            && after.messages == db.messages
            && after.rows == db.rows[k := UsageRow(
                 row.user, row.day, row.requestCount, AtMostBigint(row.inputTokens + UsableInput(usage)),
                 AtMostBigint(row.outputTokens + UsableOutput(usage)), None, None)]
  {
    ReachableIsSound(cfg, owners, events);
    var rows := After(cfg, owners, events).rows;
    forall j: nat | j < |rows| && j != k ensures !HoldsToken(rows[j], user, token) {
      if HoldsToken(rows[j], user, token) {
        OneSlot(cfg, rows, j, k);
      }
    }
    FirstHolder(rows, user, token, k, 0);
  }

  /** A late release, whose slot is gone, does nothing at all. */
  lemma LateReleaseDoesNothing(cfg: Config, owners: Owners, db: Db, user: UserId, token: Token, usage: ReportedUsage)
    requires forall k :: 0 <= k < |db.rows| ==> !HoldsToken(db.rows[k], user, token)
    ensures Step(cfg, owners, db, ReleaseEvent(user, token, usage)) == db
  {
    var found := FirstWithToken(db.rows, user, token);
    assert found.Some? ==> HoldsToken(db.rows[found.value], user, token);
  }

  // ---------------------------------------------------------------- every booked token comes from a release

  function InputOf(rows: seq<UsageRow>, user: UserId): nat {
    if rows == [] then 0
    else InputOf(rows[..|rows| - 1], user) + if rows[|rows| - 1].user == user then rows[|rows| - 1].inputTokens else 0
  }

  function OutputOf(rows: seq<UsageRow>, user: UserId): nat {
    if rows == [] then 0
    else OutputOf(rows[..|rows| - 1], user) + if rows[|rows| - 1].user == user then rows[|rows| - 1].outputTokens else 0
  }

  /** The event is a release of this user that finds its slot. */
  predicate Books(db: Db, e: Event, user: UserId) {
    e.ReleaseEvent? && e.user == user && exists k | 0 <= k < |db.rows| :: HoldsToken(db.rows[k], user, e.token)
  }

  /** What the releases of a run that found their slot report for one user. */
  function Booked(cfg: Config, owners: Owners, db: Db, events: seq<Event>, user: UserId): (nat, nat)
    decreases |events|
  {
    if events == [] then (0, 0)
    else
      var rest := Booked(cfg, owners, Step(cfg, owners, db, events[0]), events[1..], user);
      if Books(db, events[0], user) then (rest.0 + UsableInput(events[0].usage), rest.1 + UsableOutput(events[0].usage)) else rest
  }

  /** Rows are kept with their users and counts; rows added have none. */
  ghost predicate SameTokens(before: seq<UsageRow>, after: seq<UsageRow>) {
    && |before| <= |after|
    && (forall k :: 0 <= k < |before| ==> after[k].user == before[k].user && after[k].inputTokens == before[k].inputTokens
                                          && after[k].outputTokens == before[k].outputTokens)
    && (forall k :: |before| <= k < |after| ==> after[k].inputTokens == 0 && after[k].outputTokens == 0)
  }

  lemma {:induction false} SameTokensSameSums(before: seq<UsageRow>, after: seq<UsageRow>, user: UserId)
    requires SameTokens(before, after)
    ensures InputOf(after, user) == InputOf(before, user) && OutputOf(after, user) == OutputOf(before, user)
    decreases |after|
  {
    if |after| > |before| {
      SameTokensSameSums(before, after[..|after| - 1], user);
    } else if after != [] {
      SameTokensSameSums(before[..|before| - 1], after[..|after| - 1], user);
    }
  }

  lemma OpeningBooksNothing(rows: seq<UsageRow>, user: UserId, day: int)
    ensures SameTokens(rows, OpenRow(rows, user, day))
  {
  }

  lemma CleaningBooksNothing(before: seq<UsageRow>, after: seq<UsageRow>)
    requires OnlyCleared(before, after)
    ensures SameTokens(before, after)
  {
  }

  lemma SameTokensTwice(a: seq<UsageRow>, b: seq<UsageRow>, c: seq<UsageRow>)
    requires SameTokens(a, b) && SameTokens(b, c)
    ensures SameTokens(a, c)
  {
  }

  lemma AdmittingBooksNothing(cfg: Config, owners: Owners, db: Db, ready: Db, user: UserId, own: nat, conversation: ConversationId,
                              token: Token, now: int, stamp: int)
    requires own < |ready.rows| && SameTokens(db.rows, ready.rows)
    ensures SameTokens(db.rows, Admit(cfg, owners, db, ready, user, own, conversation, token, now, stamp).0.rows)
  {
    SameTokensTwice(db.rows, ready.rows, ready.rows[own := Occupy(ready.rows[own], token, stamp)]);
  }

  lemma ClaimBooksNothing(cfg: Config, owners: Owners, db: Db, user: UserId, conversation: ConversationId, token: Token,
                          day: int, now: int, stamp: int)
    ensures SameTokens(db.rows, Claim(cfg, owners, db, user, conversation, token, day, now, stamp).0.rows)
  {
    var extended := db.(rows := OpenRow(db.rows, user, day));
    var own := FindRow(extended.rows, user, day).value;
    var seen := RecoverOwn(cfg, owners, extended, user, own, now);
    var ready := RecoverAll(cfg, owners, seen, |seen.rows|, now);
    OpeningBooksNothing(db.rows, user, day);
    RecoverOwnCleans(cfg, owners, extended, user, own, now);
    CleaningBooksNothing(extended.rows, seen.rows);
    SameTokensTwice(db.rows, extended.rows, seen.rows);
    RecoverAllCleans(cfg, owners, seen, |seen.rows|, now);
    CleaningBooksNothing(seen.rows, ready.rows);
    SameTokensTwice(db.rows, seen.rows, ready.rows);
    AdmittingBooksNothing(cfg, owners, db, ready, user, own, conversation, token, now, stamp);
  }

  lemma {:induction false} TokensAfterUpdate(rows: seq<UsageRow>, i: nat, row: UsageRow, user: UserId)
    requires i < |rows| && row.user == rows[i].user
    ensures InputOf(rows[i := row], user) == InputOf(rows, user) + if row.user == user then row.inputTokens - rows[i].inputTokens else 0
    ensures OutputOf(rows[i := row], user) == OutputOf(rows, user) + if row.user == user then row.outputTokens - rows[i].outputTokens else 0
  {
    var updated := rows[i := row];
    if i == |rows| - 1 {
      assert updated[..i] == rows[..i];
    } else {
      TokensAfterUpdate(rows[..|rows| - 1], i, row, user);
      assert updated[..|rows| - 1] == rows[..|rows| - 1][i := row];
    }
  }

  /** The limit leaves room for one more answer below the largest stored number. */
  predicate LimitIsStorable(cfg: Config) {
    cfg.dailyTokenLimit <= 9_223_372_036_854_775_807 - 1_000_000_000
  }

  lemma ReleaseBooks(cfg: Config, owners: Owners, db: Db, e: Event, clock: int, user: UserId)
    requires Sound(cfg, owners, db, clock) && LimitIsStorable(cfg) && e.ReleaseEvent?
    ensures var after, books := Step(cfg, owners, db, e).rows, Books(db, e, user);
            && InputOf(after, user) == InputOf(db.rows, user) + (if books then UsableInput(e.usage) else 0)
            && OutputOf(after, user) == OutputOf(db.rows, user) + (if books then UsableOutput(e.usage) else 0)
  {
    var found := FirstWithToken(db.rows, e.user, e.token);
    if found.Some? {
      var row := db.rows[found.value];
      assert HoldsToken(row, e.user, e.token);
      assert RowWithinQuota(cfg, row);
      TokensAfterUpdate(db.rows, found.value, Spent(row, SafeUsage(e.usage)), user);
    }
  }

  lemma StepBooks(cfg: Config, owners: Owners, db: Db, e: Event, clock: int, user: UserId)
    requires Sound(cfg, owners, db, clock) && LimitIsStorable(cfg)
    ensures var after, books := Step(cfg, owners, db, e).rows, Books(db, e, user);
            && InputOf(after, user) == InputOf(db.rows, user) + (if books then UsableInput(e.usage) else 0)
            && OutputOf(after, user) == OutputOf(db.rows, user) + (if books then UsableOutput(e.usage) else 0)
  {
    if e.ReleaseEvent? {
      ReleaseBooks(cfg, owners, db, e, clock, user);
    } else if e.ClaimEvent? {
      ClaimBooksNothing(cfg, owners, db, e.user, e.conversation, e.token, e.day, e.now, e.stamp);
      SameTokensSameSums(db.rows, Step(cfg, owners, db, e).rows, user);
    }
  }

  lemma {:induction false} RunBooks(cfg: Config, owners: Owners, db: Db, events: seq<Event>, clock: int, user: UserId)
    requires Sound(cfg, owners, db, clock) && WellTimed(clock, events) && LimitIsStorable(cfg)
    ensures var after, booked := Run(cfg, owners, db, events).rows, Booked(cfg, owners, db, events, user);
            InputOf(after, user) == InputOf(db.rows, user) + booked.0 && OutputOf(after, user) == OutputOf(db.rows, user) + booked.1
    decreases |events|
  {
    if events != [] {
      var next := Step(cfg, owners, db, events[0]);
      StepKeepsSound(cfg, owners, db, events[0], clock);
      StepBooks(cfg, owners, db, events[0], clock, user);
      RunBooks(cfg, owners, next, events[1..], ClockAfter(clock, events[0]), user);
    }
  }

  /** In every run the tokens on the rows of a user are those of the releases that found their slot, no more and no less. */
  lemma TokensAreThoseReleased(cfg: Config, owners: Owners, events: seq<Event>, user: UserId)
    requires WellTimed(0, events) && LimitIsStorable(cfg)
    ensures var rows, booked := After(cfg, owners, events).rows, Booked(cfg, owners, Db([], []), events, user);
            InputOf(rows, user) == booked.0 && OutputOf(rows, user) == booked.1
  {
    RunBooks(cfg, owners, Db([], []), events, 0, user);
  }

  // ---------------------------------------------------------------- an answer and a failure

  /** An answer that is stored stands last, one number behind its question, and both carry the verdict. */
  lemma AnswerWritesBoth(cfg: Config, owners: Owners, db: Db, request: nat, completed: bool, stamp: int)
    requires request < |db.messages| && db.messages[request].role.User?
    requires Answer(db, request, completed, stamp).1
    ensures var after, m := Step(cfg, owners, db, AnswerEvent(request, completed, stamp)), db.messages[request];
            var verdict := if completed then Status.Completed else Status.Failed;
            && after.rows == db.rows
            && after.messages == db.messages[request := m.(status := verdict)]
                 + [Message(m.conversation, Assistant, m.sequence + 1, verdict, None, stamp, Some(request))]
  {
  }

  lemma FailureMarksOnlyItsRequest(cfg: Config, owners: Owners, db: Db, request: nat)
    requires request < |db.messages|
    ensures var after := Step(cfg, owners, db, FailEvent(request));
            after.rows == db.rows && after.messages == db.messages[request := db.messages[request].(status := Status.Failed)]
  {
  }

  // ---------------------------------------------------------------- what an admitted claim does to the others

  /** The slot was taken too long ago: twice the provider's time, two minutes at least, or nobody knows when. */
  predicate TooOld(cfg: Config, row: UsageRow, now: int) {
    && row.activeToken.Some?
    && (row.activeStartedAt.Some? ==>
          now - row.activeStartedAt.value > 120_000_000 && now - row.activeStartedAt.value > 2_000_000 * cfg.timeoutSeconds)
  }

  function Freed(cfg: Config, row: UsageRow, now: int): UsageRow {
    if TooOld(cfg, row, now) then UsageRow(row.user, row.day, row.requestCount, row.inputTokens, row.outputTokens, None, None) else row
  }

  /** The message waits for the answer to the request of this slot. */
  predicate WaitsFor(owners: Owners, m: Message, row: UsageRow) {
    m.status.Processing? && m.token.Some? && m.token == row.activeToken && m.conversation in owners && owners[m.conversation] == row.user
  }

  /** One of the first n slots was taken too long ago and the message waits for it. */
  predicate IsForsaken(cfg: Config, owners: Owners, rows: seq<UsageRow>, n: nat, m: Message, now: int)
    requires n <= |rows|
  {
    exists i | 0 <= i < n :: TooOld(cfg, rows[i], now) && WaitsFor(owners, m, rows[i])
  }

  function GivenUp(m: Message, forsaken: bool): Message {
    if forsaken then m.(status := Status.Failed) else m
  }

  lemma TooOldIsStale(cfg: Config, row: UsageRow, now: int)
    ensures Stale(cfg, row, now) <==> TooOld(cfg, row, now)
  {
  }

  lemma RecoverOneRow(cfg: Config, owners: Owners, db: Db, i: nat, now: int)
    requires i < |db.rows|
    ensures Recover(cfg, owners, db, i, now).rows == db.rows[i := Freed(cfg, db.rows[i], now)]
    ensures |Recover(cfg, owners, db, i, now).messages| == |db.messages|
  {
    TooOldIsStale(cfg, db.rows[i], now);
    if !TooOld(cfg, db.rows[i], now) {
      assert db.rows[i := db.rows[i]] == db.rows;
    }
  }

  lemma RecoverOneMessage(cfg: Config, owners: Owners, db: Db, i: nat, now: int, k: nat)
    requires i < |db.rows| && k < |db.messages|
    ensures |Recover(cfg, owners, db, i, now).messages| == |db.messages|
    ensures Recover(cfg, owners, db, i, now).messages[k]
         == GivenUp(db.messages[k], TooOld(cfg, db.rows[i], now) && WaitsFor(owners, db.messages[k], db.rows[i]))
  {
    TooOldIsStale(cfg, db.rows[i], now);
  }

  lemma {:induction false} RecoverRows(cfg: Config, owners: Owners, db: Db, n: nat, now: int)
    requires n <= |db.rows|
    ensures forall j :: 0 <= j < |db.rows| ==>
              RecoverAll(cfg, owners, db, n, now).rows[j] == if j < n then Freed(cfg, db.rows[j], now) else db.rows[j]
  {
    if n > 0 {
      RecoverRows(cfg, owners, db, n - 1, now);
      RecoverOneRow(cfg, owners, RecoverAll(cfg, owners, db, n - 1, now), n - 1, now);
    }
  }

  lemma ForsakenByOneMore(cfg: Config, owners: Owners, rows: seq<UsageRow>, n: nat, m: Message, now: int)
    requires n < |rows|
    ensures IsForsaken(cfg, owners, rows, n + 1, m, now) <==>
      IsForsaken(cfg, owners, rows, n, m, now) || (TooOld(cfg, rows[n], now) && WaitsFor(owners, m, rows[n]))
  {
  }

  lemma {:induction false} RecoverMessages(cfg: Config, owners: Owners, db: Db, n: nat, now: int, k: nat)
    requires n <= |db.rows| && k < |db.messages|
    ensures |RecoverAll(cfg, owners, db, n, now).messages| == |db.messages|
    ensures RecoverAll(cfg, owners, db, n, now).messages[k] == GivenUp(db.messages[k], IsForsaken(cfg, owners, db.rows, n, db.messages[k], now))
  {
    if n > 0 {
      RecoverMessages(cfg, owners, db, n - 1, now, k);
      RecoverRows(cfg, owners, db, n - 1, now);
      RecoverOneMessage(cfg, owners, RecoverAll(cfg, owners, db, n - 1, now), n - 1, now, k);
      ForsakenByOneMore(cfg, owners, db.rows, n - 1, db.messages[k], now);
    }
  }

  /** Every slot is looked at: what is too old is freed, and the messages that waited for it are given up. */
  ghost predicate AllRecovered(cfg: Config, owners: Owners, before: Db, after: Db, now: int) {
    && |after.rows| == |before.rows| && |after.messages| == |before.messages|
    && (forall j :: 0 <= j < |before.rows| ==> after.rows[j] == Freed(cfg, before.rows[j], now))
    && (forall k :: 0 <= k < |before.messages| ==>
          after.messages[k] == GivenUp(before.messages[k], IsForsaken(cfg, owners, before.rows, |before.rows|, before.messages[k], now)))
  }

  lemma RecoverEverySlot(cfg: Config, owners: Owners, db: Db, now: int)
    ensures AllRecovered(cfg, owners, db, RecoverAll(cfg, owners, db, |db.rows|, now), now)
  {
    var after := RecoverAll(cfg, owners, db, |db.rows|, now);
    RecoverAllCleans(cfg, owners, db, |db.rows|, now);
    RecoverRows(cfg, owners, db, |db.rows|, now);
    forall k | 0 <= k < |db.messages|
      ensures after.messages[k] == GivenUp(db.messages[k], IsForsaken(cfg, owners, db.rows, |db.rows|, db.messages[k], now))
    {
      RecoverMessages(cfg, owners, db, |db.rows|, now, k);
    }
  }

  /** Looking at one slot early changes nothing about the outcome for all of them. */
  lemma RecoveredEarly(cfg: Config, owners: Owners, db: Db, i: nat, after: Db, now: int)
    requires i < |db.rows| && AllRecovered(cfg, owners, Recover(cfg, owners, db, i, now), after, now)
    ensures AllRecovered(cfg, owners, db, after, now)
  {
    var first := Recover(cfg, owners, db, i, now);
    RecoverOneRow(cfg, owners, db, i, now);
    forall k | 0 <= k < |db.messages|
      ensures after.messages[k] == GivenUp(db.messages[k], IsForsaken(cfg, owners, db.rows, |db.rows|, db.messages[k], now))
    {
      RecoverOneMessage(cfg, owners, db, i, now, k);
      ForsakenEarly(cfg, owners, db, i, k, now);
    }
  }

  lemma ForsakenEarly(cfg: Config, owners: Owners, db: Db, i: nat, k: nat, now: int)
    requires i < |db.rows| && k < |db.messages|
    ensures var m, rows := db.messages[k], db.rows[i := Freed(cfg, db.rows[i], now)];
      var given := GivenUp(m, TooOld(cfg, db.rows[i], now) && WaitsFor(owners, m, db.rows[i]));
      GivenUp(given, IsForsaken(cfg, owners, rows, |rows|, given, now)) == GivenUp(m, IsForsaken(cfg, owners, db.rows, |db.rows|, m, now))
  {
    var m, rows := db.messages[k], db.rows[i := Freed(cfg, db.rows[i], now)];
    if !(TooOld(cfg, db.rows[i], now) && WaitsFor(owners, m, db.rows[i])) {
      forall j | 0 <= j < |rows|
        ensures TooOld(cfg, rows[j], now) && WaitsFor(owners, m, rows[j]) <==> TooOld(cfg, db.rows[j], now) && WaitsFor(owners, m, db.rows[j])
      {
      }
    }
  }

  lemma RecoveredInTwoSteps(cfg: Config, owners: Owners, db: Db, user: UserId, own: nat, now: int)
    requires own < |db.rows|
    ensures var seen := RecoverOwn(cfg, owners, db, user, own, now);
            AllRecovered(cfg, owners, db, RecoverAll(cfg, owners, seen, |seen.rows|, now), now)
  {
    var first := Recover(cfg, owners, db, own, now);
    var seen := RecoverOwn(cfg, owners, db, user, own, now);
    var ready := RecoverAll(cfg, owners, seen, |seen.rows|, now);
    RecoverEverySlot(cfg, owners, seen, now);
    var other := FirstOtherActive(first.rows, user, own);
    if other.Some? {
      RecoveredEarly(cfg, owners, first, other.value, ready, now);
    }
    RecoveredEarly(cfg, owners, db, own, ready, now);
  }

  /** The rows with one for the day, opened empty if there was none. */
  ghost predicate Opened(rows: seq<UsageRow>, user: UserId, day: int, own: nat, longer: seq<UsageRow>) {
    && own < |longer| && longer[own].user == user && longer[own].day == day
    && (longer == rows || (own == |rows| && longer == rows + [UsageRow(user, day, 0, 0, 0, None, None)]))
  }

  /**
   An admitted claim: the row of the day counts one request more and holds the slot, every slot that is too old is
   freed and its waiting messages are given up, one request is appended, and nothing else changes.
   */
  lemma ClaimTouchesNothingElse(cfg: Config, owners: Owners, db: Db, user: UserId, conversation: ConversationId, token: Token,
                                day: int, now: int, stamp: int) returns (own: nat, longer: seq<UsageRow>, ready: Db)
    requires Claim(cfg, owners, db, user, conversation, token, day, now, stamp).1.Claimed?
    ensures Opened(db.rows, user, day, own, longer) && AllRecovered(cfg, owners, db.(rows := longer), ready, now)
    ensures var after, row := Step(cfg, owners, db, ClaimEvent(user, conversation, token, day, now, stamp)), longer[own];
            && |after.messages| == |db.messages| + 1 && after.messages[..|db.messages|] == ready.messages
            && after.rows == ready.rows[own := UsageRow(
                 user, day, row.requestCount + 1, row.inputTokens, row.outputTokens, Some(token), Some(stamp))]
  {
    var extended := db.(rows := OpenRow(db.rows, user, day));
    longer := extended.rows;
    own := FindRow(longer, user, day).value;
    var seen := RecoverOwn(cfg, owners, extended, user, own, now);
    ready := RecoverAll(cfg, owners, seen, |seen.rows|, now);
    RecoveredInTwoSteps(cfg, owners, extended, user, own, now);
    ClaimedIffNothingRefuses(cfg, owners, db, user, conversation, token, day, now, stamp);
    assert Freed(cfg, longer[own], now).requestCount == longer[own].requestCount;
    OpenedAt(db.rows, user, day);
  }

  lemma OpenedAt(rows: seq<UsageRow>, user: UserId, day: int)
    ensures var longer := OpenRow(rows, user, day);
            Opened(rows, user, day, FindRow(longer, user, day).value, longer)
  {
  }

  /** A claim that is refused, for whatever reason, writes nothing. */
  lemma RefusedClaimWritesNothing(cfg: Config, owners: Owners, db: Db, user: UserId, conversation: ConversationId, token: Token,
                                  day: int, now: int, stamp: int)
    requires Claim(cfg, owners, db, user, conversation, token, day, now, stamp).1.Refused?
    ensures Step(cfg, owners, db, ClaimEvent(user, conversation, token, day, now, stamp)) == db
  {
  }
}

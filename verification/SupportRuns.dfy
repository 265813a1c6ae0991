/**
 Every interleaving of the gate's transactions: the invariant they keep and what it means
 for capacity, message order, idempotency and quotas.

 A run is any sequence of transactions with non-decreasing clock readings. Answers, failure
 marks and releases may come at any moment and for any request, so a late answer of a request
 whose slot was already recovered is an ordinary event here.
 */
module SupportRuns {
  import opened Basics
  import opened SupportGate

  datatype Event =
    | ClaimEvent(user: UserId, conversation: ConversationId, token: Token, day: int, now: int, stamp: int)
    | AnswerEvent(request: nat, completed: bool, stamp: int)
    | FailEvent(request: nat)
    | ReleaseEvent(user: UserId, token: Token, usage: ReportedUsage)

  function Step(cfg: Config, owners: Owners, db: Db, e: Event): Db {
    match e
    case ClaimEvent(user, conversation, token, day, now, stamp) =>
      Claim(cfg, owners, db, user, conversation, token, day, now, stamp).0
    case AnswerEvent(request, completed, stamp) =>
      if request < |db.messages| && db.messages[request].role.User? then Answer(db, request, completed, stamp).0 else db
    case FailEvent(request) =>
      if request < |db.messages| then MarkFailed(db, request) else db
    case ReleaseEvent(user, token, usage) => Release(db, user, token, usage)
  }

  /** The clock after an event; both readings of a claim count. */
  function ClockAfter(clock: int, e: Event): int {
    if e.ClaimEvent? || e.AnswerEvent? then e.stamp else clock
  }

  predicate InTime(clock: int, e: Event) {
    match e
    case ClaimEvent(_, _, _, _, now, stamp) => clock <= now <= stamp
    case AnswerEvent(_, _, stamp) => clock <= stamp
    case _ => true
  }

  function Run(cfg: Config, owners: Owners, db: Db, events: seq<Event>): Db
    decreases |events|
  {
    if events == [] then db else Run(cfg, owners, Step(cfg, owners, db, events[0]), events[1..])
  }

  predicate WellTimed(clock: int, events: seq<Event>)
    decreases |events|
  {
    events != [] ==> InTime(clock, events[0]) && WellTimed(ClockAfter(clock, events[0]), events[1..])
  }

  // ---------------------------------------------------------------- counting

  function CountIn(messages: seq<Message>, conversation: ConversationId): nat {
    if messages == [] then 0
    else CountIn(messages[..|messages| - 1], conversation)
         + if messages[|messages| - 1].conversation == conversation then 1 else 0
  }

  function UserMessages(messages: seq<Message>, owners: Owners, user: UserId): nat {
    if messages == [] then 0
    else
      var last := messages[|messages| - 1];
      UserMessages(messages[..|messages| - 1], owners, user)
      + if last.role.User? && OwnedBy(owners, last.conversation, user) then 1 else 0
  }

  /** User messages of one user created in the closed window of one minute that starts at `from`. */
  function InWindow(messages: seq<Message>, owners: Owners, user: UserId, from: int): nat {
    if messages == [] then 0
    else
      var last := messages[|messages| - 1];
      InWindow(messages[..|messages| - 1], owners, user, from)
      + if last.role.User? && OwnedBy(owners, last.conversation, user) && from <= last.createdAt <= from + 60_000_000 then 1 else 0
  }

  function Requests(rows: seq<UsageRow>, user: UserId): nat {
    if rows == [] then 0
    else Requests(rows[..|rows| - 1], user) + if rows[|rows| - 1].user == user then rows[|rows| - 1].requestCount else 0
  }

  // ---------------------------------------------------------------- the invariant
  //
  // Each clause is a named predicate of one or two positions, so that a proof can say
  // exactly which position it looks at.

  predicate SlotsApart(rows: seq<UsageRow>, i: nat, j: nat)
    requires i < |rows| && j < |rows|
  {
    rows[i].Active() && rows[j].Active() ==> rows[i].user != rows[j].user
  }

  predicate DaysApart(rows: seq<UsageRow>, i: nat, j: nat)
    requires i < |rows| && j < |rows|
  {
    rows[i].user == rows[j].user ==> rows[i].day != rows[j].day
  }

  predicate RowWithinQuota(cfg: Config, row: UsageRow) {
    var spent := row.inputTokens + row.outputTokens;
    && (row.requestCount == 0 ==> spent == 0 && !row.Active())
    && (row.requestCount > 0 ==> row.requestCount <= cfg.dailyRequestLimit
                                 && spent <= cfg.dailyTokenLimit - 1 + 2 * MAX_STORED_USAGE_TOKENS)
    && (row.Active() ==> spent < cfg.dailyTokenLimit)
  }

  /** Capacity, one slot a user over all days, one row a user and day, and the daily quotas. */
  ghost predicate RowsSound(cfg: Config, rows: seq<UsageRow>) {
    && CountActive(rows) <= Max(cfg.globalConcurrency, 0)
    && (forall i: nat, j: nat :: i < j < |rows| ==> SlotsApart(rows, i, j))
    && (forall i: nat, j: nat :: i < j < |rows| ==> DaysApart(rows, i, j))
    && (forall k: nat :: k < |rows| ==> RowWithinQuota(cfg, rows[k]))
  }

  /** In creation order the messages of a conversation are numbered 1, 2, 3 and so on. */
  predicate NumberedAt(messages: seq<Message>, k: nat)
    requires k < |messages|
  {
    messages[k].sequence == CountIn(messages[..k], messages[k].conversation) + 1
  }

  predicate IsAnswer(question: Message, reply: Message) {
    question.role.User? && question.conversation == reply.conversation && reply.sequence == question.sequence + 1
  }

  /** An assistant message follows the user message it was written for. */
  predicate PairedAt(messages: seq<Message>, k: nat)
    requires k < |messages|
  {
    if messages[k].role.User? then messages[k].token.Some? && messages[k].answers.None?
    else && messages[k].token.None? && messages[k].answers.Some? && messages[k].answers.value < k
         && IsAnswer(messages[messages[k].answers.value], messages[k])
  }

  predicate TokensApart(messages: seq<Message>, i: nat, j: nat)
    requires i < |messages| && j < |messages|
  {
    messages[i].role.User? && messages[j].role.User? && messages[i].conversation == messages[j].conversation
    ==> messages[i].token != messages[j].token
  }

  /** At the moment a user message was written, the minute before it was within the rate limit. */
  predicate PacedAt(cfg: Config, owners: Owners, messages: seq<Message>, k: nat)
    requires k < |messages|
  {
    var m := messages[k];
    m.role.User? && m.conversation in owners ==>
      CountRecent(messages[..k + 1], owners, owners[m.conversation], m.createdAt - MINUTE) <= cfg.rateLimit
  }

  predicate DatedAt(messages: seq<Message>, clock: int, k: nat)
    requires k < |messages|
  {
    messages[k].createdAt <= clock
  }

  ghost predicate Numbered(messages: seq<Message>) {
    forall k: nat :: k < |messages| ==> NumberedAt(messages, k)
  }

  ghost predicate MessagesSound(cfg: Config, owners: Owners, messages: seq<Message>, clock: int) {
    && Numbered(messages)
    && (forall k: nat :: k < |messages| ==> PairedAt(messages, k))
    && (forall i: nat, j: nat :: i < j < |messages| ==> TokensApart(messages, i, j))
    && (forall k: nat :: k < |messages| ==> PacedAt(cfg, owners, messages, k))
    && (forall k: nat :: k < |messages| ==> DatedAt(messages, clock, k))
  }

  /** The requests counted on the usage rows of a user are the user's messages. */
  ghost predicate Tallied(owners: Owners, db: Db) {
    forall user :: Requests(db.rows, user) == UserMessages(db.messages, owners, user)
  }

  ghost predicate Sound(cfg: Config, owners: Owners, db: Db, clock: int) {
    RowsSound(cfg, db.rows) && MessagesSound(cfg, owners, db.messages, clock) && Tallied(owners, db)
  }

  // ---------------------------------------------------------------- what recovery may change

  ghost predicate SameButStatus(before: seq<Message>, after: seq<Message>) {
    |before| == |after| && forall k :: 0 <= k < |before| ==> after[k] == before[k].(status := after[k].status)
  }

  ghost predicate OnlyCleared(before: seq<UsageRow>, after: seq<UsageRow>) {
    |before| == |after| && forall k :: 0 <= k < |before| ==> after[k] == before[k] || after[k] == before[k].Cleared()
  }

  ghost predicate Cleaned(before: Db, after: Db) {
    OnlyCleared(before.rows, after.rows) && SameButStatus(before.messages, after.messages)
  }

  lemma RecoverCleans(cfg: Config, owners: Owners, db: Db, i: nat, now: int)
    requires i < |db.rows|
    ensures Cleaned(db, Recover(cfg, owners, db, i, now))
  {
  }

  lemma {:induction false} RecoverAllCleans(cfg: Config, owners: Owners, db: Db, n: nat, now: int)
    requires n <= |db.rows|
    ensures Cleaned(db, RecoverAll(cfg, owners, db, n, now))
  {
    if n > 0 {
      RecoverAllCleans(cfg, owners, db, n - 1, now);
      RecoverCleans(cfg, owners, RecoverAll(cfg, owners, db, n - 1, now), n - 1, now);
    }
  }

  lemma {:induction false} ActiveAfterClearing(before: seq<UsageRow>, after: seq<UsageRow>)
    requires OnlyCleared(before, after)
    ensures CountActive(after) <= CountActive(before)
  {
    if before != [] {
      ActiveAfterClearing(before[..|before| - 1], after[..|after| - 1]);
    }
  }

  lemma {:induction false} RequestsAfterClearing(before: seq<UsageRow>, after: seq<UsageRow>, user: UserId)
    requires OnlyCleared(before, after)
    ensures Requests(after, user) == Requests(before, user)
  {
    if before != [] {
      RequestsAfterClearing(before[..|before| - 1], after[..|after| - 1], user);
    }
  }

  lemma {:induction false} CountsIgnoreStatus(before: seq<Message>, after: seq<Message>, owners: Owners)
    requires SameButStatus(before, after)
    ensures forall c :: CountIn(after, c) == CountIn(before, c)
    ensures forall u :: UserMessages(after, owners, u) == UserMessages(before, owners, u)
    ensures forall u, s :: CountRecent(after, owners, u, s) == CountRecent(before, owners, u, s)
  {
    if before != [] {
      CountsIgnoreStatus(before[..|before| - 1], after[..|after| - 1], owners);
    }
  }

  lemma StatusKeepsMessages(cfg: Config, owners: Owners, before: seq<Message>, after: seq<Message>, clock: int)
    requires SameButStatus(before, after) && MessagesSound(cfg, owners, before, clock)
    ensures MessagesSound(cfg, owners, after, clock)
  {
    forall k: nat | k < |after|
      ensures NumberedAt(after, k) && PairedAt(after, k) && PacedAt(cfg, owners, after, k) && DatedAt(after, clock, k)
    {
      assert NumberedAt(before, k) && PairedAt(before, k) && PacedAt(cfg, owners, before, k) && DatedAt(before, clock, k);
      CountsIgnoreStatus(before[..k], after[..k], owners);
      CountsIgnoreStatus(before[..k + 1], after[..k + 1], owners);
    }
    forall i: nat, j: nat | i < j < |after| ensures TokensApart(after, i, j) {
      assert TokensApart(before, i, j);
    }
  }

  lemma ClearingKeepsRows(cfg: Config, before: seq<UsageRow>, after: seq<UsageRow>)
    requires OnlyCleared(before, after) && RowsSound(cfg, before)
    ensures RowsSound(cfg, after)
  {
    ActiveAfterClearing(before, after);
    forall i: nat, j: nat | i < j < |after| ensures SlotsApart(after, i, j) && DaysApart(after, i, j) {
      assert SlotsApart(before, i, j) && DaysApart(before, i, j);
    }
    forall k: nat | k < |after| ensures RowWithinQuota(cfg, after[k]) {
      assert RowWithinQuota(cfg, before[k]);
    }
  }

  lemma CleaningKeepsSound(cfg: Config, owners: Owners, before: Db, after: Db, clock: int)
    requires Sound(cfg, owners, before, clock) && Cleaned(before, after)
    ensures Sound(cfg, owners, after, clock)
  {
    StatusKeepsMessages(cfg, owners, before.messages, after.messages, clock);
    ClearingKeepsRows(cfg, before.rows, after.rows);
    CountsIgnoreStatus(before.messages, after.messages, owners);
    forall user ensures Requests(after.rows, user) == UserMessages(after.messages, owners, user) {
      RequestsAfterClearing(before.rows, after.rows, user);
    }
  }

  // ---------------------------------------------------------------- row updates

  lemma {:induction false} ActiveAfterUpdate(rows: seq<UsageRow>, i: nat, row: UsageRow)
    requires i < |rows|
    ensures CountActive(rows[i := row])
            == CountActive(rows) - (if rows[i].Active() then 1 else 0) + (if row.Active() then 1 else 0)
  {
    var updated := rows[i := row];
    if i == |rows| - 1 {
      assert updated[..i] == rows[..i];
    } else {
      ActiveAfterUpdate(rows[..|rows| - 1], i, row);
      assert updated[..|rows| - 1] == rows[..|rows| - 1][i := row];
    }
  }

  lemma {:induction false} RequestsAfterUpdate(rows: seq<UsageRow>, i: nat, row: UsageRow, user: UserId)
    requires i < |rows| && row.user == rows[i].user
    ensures Requests(rows[i := row], user)
            == Requests(rows, user) + if row.user == user then row.requestCount - rows[i].requestCount else 0
  {
    var updated := rows[i := row];
    if i == |rows| - 1 {
      assert updated[..i] == rows[..i];
    } else {
      RequestsAfterUpdate(rows[..|rows| - 1], i, row, user);
      assert updated[..|rows| - 1] == rows[..|rows| - 1][i := row];
    }
  }

  /** Opening the row of a day that has none. */
  lemma NewRowKeepsRows(cfg: Config, rows: seq<UsageRow>, user: UserId, day: int)
    requires RowsSound(cfg, rows) && FindRow(rows, user, day).None?
    ensures RowsSound(cfg, OpenRow(rows, user, day))
  {
    var longer := OpenRow(rows, user, day);
    assert longer[..|longer| - 1] == rows;
    forall i: nat, j: nat | i < j < |longer| ensures SlotsApart(longer, i, j) && DaysApart(longer, i, j) {
      if j < |rows| {
        assert SlotsApart(rows, i, j) && DaysApart(rows, i, j);
      }
    }
    forall k: nat | k < |longer| ensures RowWithinQuota(cfg, longer[k]) {
      if k < |rows| {
        assert RowWithinQuota(cfg, rows[k]);
      }
    }
  }

  lemma OpeningKeepsSound(cfg: Config, owners: Owners, db: Db, user: UserId, day: int, clock: int)
    requires Sound(cfg, owners, db, clock)
    ensures Sound(cfg, owners, db.(rows := OpenRow(db.rows, user, day)), clock)
  {
    if FindRow(db.rows, user, day).None? {
      NewRowKeepsRows(cfg, db.rows, user, day);
      var longer := OpenRow(db.rows, user, day);
      assert longer[..|longer| - 1] == db.rows;
      forall u ensures Requests(longer, u) == UserMessages(db.messages, owners, u) {
      }
    }
  }

  // ---------------------------------------------------------------- new messages

  lemma NumberedPrefix(messages: seq<Message>)
    requires messages != [] && Numbered(messages)
    ensures Numbered(messages[..|messages| - 1])
  {
    var before := messages[..|messages| - 1];
    forall k: nat | k < |before| ensures NumberedAt(before, k) {
      assert NumberedAt(messages, k) && messages[..k] == before[..k];
    }
  }

  lemma {:induction false} MaxIsCount(messages: seq<Message>, conversation: ConversationId)
    requires Numbered(messages)
    ensures MaxSequence(messages, conversation) == CountIn(messages, conversation)
  {
    if messages != [] {
      NumberedPrefix(messages);
      MaxIsCount(messages[..|messages| - 1], conversation);
      assert NumberedAt(messages, |messages| - 1);
    }
  }

  /** The numbers in use are exactly those from 1 to the number of messages. */
  lemma {:induction false} TakenUpToCount(messages: seq<Message>, conversation: ConversationId, sequence: nat)
    requires Numbered(messages)
    ensures SequenceTaken(messages, conversation, sequence) <==> 1 <= sequence <= CountIn(messages, conversation)
  {
    if messages != [] {
      var n := |messages| - 1;
      var before := messages[..n];
      NumberedPrefix(messages);
      TakenUpToCount(before, conversation, sequence);
      assert NumberedAt(messages, n);
      if SequenceTaken(before, conversation, sequence) {
        var k :| 0 <= k < n && before[k].conversation == conversation && before[k].sequence == sequence;
        assert messages[k].conversation == conversation;
      }
    }
  }

  /** An appended message leaves every earlier position as it was. */
  lemma EarlierPositionsKept(cfg: Config, owners: Owners, messages: seq<Message>, m: Message, clock: int, k: nat)
    requires MessagesSound(cfg, owners, messages, clock) && clock <= m.createdAt && k < |messages|
    ensures var longer := messages + [m];
            NumberedAt(longer, k) && PairedAt(longer, k) && PacedAt(cfg, owners, longer, k) && DatedAt(longer, m.createdAt, k)
  {
    var longer := messages + [m];
    assert longer[..k] == messages[..k] && longer[..k + 1] == messages[..k + 1];
    assert NumberedAt(messages, k);
    assert PairedAt(messages, k);
    assert PacedAt(cfg, owners, messages, k);
    assert DatedAt(messages, clock, k);
  }

  lemma AppendKeepsMessages(cfg: Config, owners: Owners, messages: seq<Message>, m: Message, clock: int)
    requires MessagesSound(cfg, owners, messages, clock) && clock <= m.createdAt
    requires m.sequence == CountIn(messages, m.conversation) + 1
    requires PairedAt(messages + [m], |messages|)
    requires forall i: nat :: i < |messages| ==> TokensApart(messages + [m], i, |messages|)
    requires PacedAt(cfg, owners, messages + [m], |messages|)
    ensures MessagesSound(cfg, owners, messages + [m], m.createdAt)
  {
    var longer := messages + [m];
    assert longer[..|messages|] == messages;
    forall k: nat | k < |longer|
      ensures NumberedAt(longer, k) && PairedAt(longer, k) && PacedAt(cfg, owners, longer, k)
              && DatedAt(longer, m.createdAt, k)
    {
      if k < |messages| {
        EarlierPositionsKept(cfg, owners, messages, m, clock, k);
      }
    }
    forall i: nat, j: nat | i < j < |longer| ensures TokensApart(longer, i, j) {
      if j < |messages| {
        assert TokensApart(messages, i, j);
      }
    }
  }

  lemma {:induction false} LaterWindowHasLess(messages: seq<Message>, owners: Owners, user: UserId, since: int, later: int)
    requires since <= later
    ensures CountRecent(messages, owners, user, later) <= CountRecent(messages, owners, user, since)
  {
    if messages != [] {
      LaterWindowHasLess(messages[..|messages| - 1], owners, user, since, later);
    }
  }

  // ---------------------------------------------------------------- the transactions keep the invariant

  /** Occupying a free slot of a user who holds no other. */
  lemma OccupyKeepsRows(cfg: Config, owners: Owners, db: Db, user: UserId, own: nat, token: Token, now: int, stamp: int)
    requires RowsSound(cfg, db.rows)
    requires own < |db.rows| && db.rows[own].user == user
    requires forall k :: 0 <= k < |db.rows| && db.rows[k].user == user ==> !db.rows[k].Active()
    requires QuotaRefusal(cfg, owners, db, user, own, now).None?
    ensures RowsSound(cfg, db.rows[own := Occupy(db.rows[own], token, stamp)])
  {
    var rows := db.rows[own := Occupy(db.rows[own], token, stamp)];
    ActiveAfterUpdate(db.rows, own, Occupy(db.rows[own], token, stamp));
    forall i: nat, j: nat | i < j < |rows| ensures SlotsApart(rows, i, j) && DaysApart(rows, i, j) {
      assert SlotsApart(db.rows, i, j) && DaysApart(db.rows, i, j);
    }
    forall k: nat | k < |rows| ensures RowWithinQuota(cfg, rows[k]) {
      assert RowWithinQuota(cfg, db.rows[k]);
    }
  }

  lemma NewTokenStandsApart(messages: seq<Message>, conversation: ConversationId, token: Token, m: Message, i: nat)
    requires FindRequest(messages, conversation, token).None?
    requires m.conversation == conversation && m.token == Some(token) && i < |messages|
    ensures TokensApart(messages + [m], i, |messages|)
  {
  }

  /** One message more in a window that had room for it. */
  lemma NewRequestIsPaced(cfg: Config, owners: Owners, messages: seq<Message>, user: UserId, m: Message, now: int)
    requires OwnedBy(owners, m.conversation, user) && now <= m.createdAt
    requires CountRecent(messages, owners, user, now - MINUTE) < cfg.rateLimit
    ensures PacedAt(cfg, owners, messages + [m], |messages|)
  {
    var longer := messages + [m];
    LaterWindowHasLess(messages, owners, user, now - MINUTE, m.createdAt - MINUTE);
    assert longer[..|messages| + 1] == longer && longer[..|messages|] == messages;
  }

  lemma RequestKeepsMessages(cfg: Config, owners: Owners, messages: seq<Message>, user: UserId,
                             conversation: ConversationId, token: Token, now: int, stamp: int, clock: int)
    requires MessagesSound(cfg, owners, messages, clock) && clock <= now <= stamp
    requires OwnedBy(owners, conversation, user)
    requires FindRequest(messages, conversation, token).None?
    requires CountRecent(messages, owners, user, now - MINUTE) < cfg.rateLimit
    ensures MessagesSound(cfg, owners, messages + [NewRequest(messages, conversation, token, stamp)], stamp)
  {
    var m := NewRequest(messages, conversation, token, stamp);
    MaxIsCount(messages, conversation);
    NewRequestIsPaced(cfg, owners, messages, user, m, now);
    forall i: nat | i < |messages| ensures TokensApart(messages + [m], i, |messages|) {
      NewTokenStandsApart(messages, conversation, token, m, i);
    }
    AppendKeepsMessages(cfg, owners, messages, m, clock);
  }

  lemma UserMessagesAppend(messages: seq<Message>, owners: Owners, user: UserId, m: Message)
    ensures UserMessages(messages + [m], owners, user)
         == UserMessages(messages, owners, user) + if m.role.User? && OwnedBy(owners, m.conversation, user) then 1 else 0
  {
    assert (messages + [m])[..|messages|] == messages;
  }

  lemma OwnerIsOne(owners: Owners, conversation: ConversationId, user: UserId, other: UserId)
    requires OwnedBy(owners, conversation, user)
    ensures OwnedBy(owners, conversation, other) <==> other == user
  {
  }

  /** One request more on a row of the user, and one message more of that user. */
  lemma RequestIsTallied(owners: Owners, db: Db, user: UserId, own: nat, row: UsageRow, m: Message)
    requires Tallied(owners, db) && own < |db.rows| && db.rows[own].user == row.user == user
    requires row.requestCount == db.rows[own].requestCount + 1
    requires m.role.User? && OwnedBy(owners, m.conversation, user)
    ensures Tallied(owners, Db(db.rows[own := row], db.messages + [m]))
  {
    forall u ensures Requests(db.rows[own := row], u) == UserMessages(db.messages + [m], owners, u) {
      RequestsAfterUpdate(db.rows, own, row, u);
      UserMessagesAppend(db.messages, owners, u, m);
      OwnerIsOne(owners, m.conversation, user, u);
    }
  }

  lemma AdmitKeepsSound(cfg: Config, owners: Owners, db: Db, user: UserId, own: nat, conversation: ConversationId,
                        token: Token, now: int, stamp: int, clock: int)
    requires Sound(cfg, owners, db, clock) && clock <= now <= stamp
    requires own < |db.rows| && db.rows[own].user == user && OwnedBy(owners, conversation, user)
    requires forall k :: 0 <= k < |db.rows| && db.rows[k].user == user ==> !db.rows[k].Active()
    requires FindRequest(db.messages, conversation, token).None?
    requires QuotaRefusal(cfg, owners, db, user, own, now).None?
    ensures Sound(cfg, owners, Admit(cfg, owners, db, db, user, own, conversation, token, now, stamp).0, stamp)
  {
    OccupyKeepsRows(cfg, owners, db, user, own, token, now, stamp);
    RequestKeepsMessages(cfg, owners, db.messages, user, conversation, token, now, stamp, clock);
    RequestIsTallied(owners, db, user, own, Occupy(db.rows[own], token, stamp), NewRequest(db.messages, conversation, token, stamp));
  }

  lemma ReplyKeepsMessages(cfg: Config, owners: Owners, messages: seq<Message>, request: nat, reply: Message, clock: int)
    requires MessagesSound(cfg, owners, messages, clock) && clock <= reply.createdAt
    requires request < |messages| && messages[request].role.User?
    requires reply.role.Assistant? && reply.token.None? && reply.answers == Some(request)
    requires IsAnswer(messages[request], reply)
    requires !SequenceTaken(messages, reply.conversation, reply.sequence)
    ensures MessagesSound(cfg, owners, messages + [reply], reply.createdAt)
  {
    TakenUpToCount(messages, reply.conversation, reply.sequence);
    assert NumberedAt(messages, request);
    assert SequenceTaken(messages, reply.conversation, messages[request].sequence);
    TakenUpToCount(messages, reply.conversation, messages[request].sequence);
    AppendKeepsMessages(cfg, owners, messages, reply, clock);
  }

  lemma TakenIgnoresStatus(before: seq<Message>, after: seq<Message>, conversation: ConversationId, sequence: nat)
    requires SameButStatus(before, after) && SequenceTaken(after, conversation, sequence)
    ensures SequenceTaken(before, conversation, sequence)
  {
    var k :| 0 <= k < |after| && after[k].conversation == conversation && after[k].sequence == sequence;
    assert before[k].conversation == conversation;
  }

  lemma AnswerKeepsSound(cfg: Config, owners: Owners, db: Db, request: nat, completed: bool, stamp: int, clock: int)
    requires Sound(cfg, owners, db, clock) && clock <= stamp && request < |db.messages|
    requires db.messages[request].role.User?
    ensures Sound(cfg, owners, Answer(db, request, completed, stamp).0, stamp)
  {
    var (after, stored) := Answer(db, request, completed, stamp);
    if !stored {
      forall k: nat | k < |db.messages| ensures DatedAt(db.messages, stamp, k) {
        assert DatedAt(db.messages, clock, k);
      }
    } else {
      var locked := db.messages[request];
      var marked := db.messages[request := locked.(status := if completed then Completed else Failed)];
      var reply := after.messages[|db.messages|];
      StatusKeepsMessages(cfg, owners, db.messages, marked, clock);
      if SequenceTaken(marked, reply.conversation, reply.sequence) {
        TakenIgnoresStatus(db.messages, marked, reply.conversation, reply.sequence);
      }
      ReplyKeepsMessages(cfg, owners, marked, request, reply, clock);
      CountsIgnoreStatus(db.messages, marked, owners);
      assert after.messages[..|db.messages|] == marked;
      forall u ensures UserMessages(after.messages, owners, u) == UserMessages(db.messages, owners, u) {
      }
    }
  }

  lemma ReleaseKeepsSound(cfg: Config, owners: Owners, db: Db, user: UserId, token: Token, usage: ReportedUsage, clock: int)
    requires Sound(cfg, owners, db, clock)
    ensures Sound(cfg, owners, Release(db, user, token, usage), clock)
  {
    match FirstWithToken(db.rows, user, token)
    case None =>
    case Some(own) =>
      var row := Spent(db.rows[own], SafeUsage(usage));
      var rows := db.rows[own := row];
      ActiveAfterUpdate(db.rows, own, row);
      forall i: nat, j: nat | i < j < |rows| ensures SlotsApart(rows, i, j) && DaysApart(rows, i, j) {
        assert SlotsApart(db.rows, i, j) && DaysApart(db.rows, i, j);
      }
      forall k: nat | k < |rows| ensures RowWithinQuota(cfg, rows[k]) {
        assert RowWithinQuota(cfg, db.rows[k]);
      }
      forall u ensures Requests(rows, u) == UserMessages(db.messages, owners, u) {
        RequestsAfterUpdate(db.rows, own, row, u);
      }
  }

  /** Examining one other row is enough: at most one row of the user can be active at all. */
  lemma NoSlotLeft(cfg: Config, owners: Owners, db: Db, user: UserId, own: nat, now: int)
    requires RowsSound(cfg, db.rows) && own < |db.rows|
    requires !OtherSlotHeld(cfg, owners, db, user, own, now)
    requires !RecoverOwn(cfg, owners, db, user, own, now).rows[own].Active()
    ensures forall k :: 0 <= k < |db.rows| && db.rows[k].user == user ==>
              !RecoverOwn(cfg, owners, db, user, own, now).rows[k].Active()
  {
    var first := Recover(cfg, owners, db, own, now);
    var seen := RecoverOwn(cfg, owners, db, user, own, now);
    RecoverCleans(cfg, owners, db, own, now);
    match FirstOtherActive(first.rows, user, own)
    case None =>
    case Some(j) =>
      RecoverCleans(cfg, owners, first, j, now);
      forall k | 0 <= k < |db.rows| && db.rows[k].user == user ensures !seen.rows[k].Active() {
        assert k < j ==> SlotsApart(db.rows, k, j);
        assert j < k ==> SlotsApart(db.rows, j, k);
      }
  }

  lemma CleanedTwice(a: Db, b: Db, c: Db)
    requires Cleaned(a, b) && Cleaned(b, c)
    ensures Cleaned(a, c)
  {
  }

  lemma RecoverOwnCleans(cfg: Config, owners: Owners, db: Db, user: UserId, own: nat, now: int)
    requires own < |db.rows|
    ensures Cleaned(db, RecoverOwn(cfg, owners, db, user, own, now))
  {
    var first := Recover(cfg, owners, db, own, now);
    RecoverCleans(cfg, owners, db, own, now);
    match FirstOtherActive(first.rows, user, own)
    case None =>
    case Some(j) =>
      RecoverCleans(cfg, owners, first, j, now);
      CleanedTwice(db, first, Recover(cfg, owners, first, j, now));
  }

  lemma FindRequestIgnoresStatus(before: seq<Message>, after: seq<Message>, conversation: ConversationId, token: Token)
    requires SameButStatus(before, after) && FindRequest(before, conversation, token).None?
    ensures FindRequest(after, conversation, token).None?
  {
  }

  lemma LaterClockKeepsSound(cfg: Config, owners: Owners, db: Db, clock: int, later: int)
    requires Sound(cfg, owners, db, clock) && clock <= later
    ensures Sound(cfg, owners, db, later)
  {
    forall k: nat | k < |db.messages| ensures DatedAt(db.messages, later, k) {
      assert DatedAt(db.messages, clock, k);
    }
  }

  lemma ReadyKeepsSound(cfg: Config, owners: Owners, db: Db, seen: Db, user: UserId, own: nat,
                        conversation: ConversationId, token: Token, now: int, stamp: int, clock: int)
    requires Sound(cfg, owners, seen, clock) && clock <= now <= stamp
    requires own < |seen.rows| && seen.rows[own].user == user && OwnedBy(owners, conversation, user)
    requires forall k :: 0 <= k < |seen.rows| && seen.rows[k].user == user ==> !seen.rows[k].Active()
    requires FindRequest(seen.messages, conversation, token).None?
    requires QuotaRefusal(cfg, owners, RecoverAll(cfg, owners, seen, |seen.rows|, now), user, own, now).None?
    ensures Sound(cfg, owners, Admit(cfg, owners, db, RecoverAll(cfg, owners, seen, |seen.rows|, now), user, own,
                                     conversation, token, now, stamp).0, stamp)
  {
    var ready := RecoverAll(cfg, owners, seen, |seen.rows|, now);
    RecoverAllCleans(cfg, owners, seen, |seen.rows|, now);
    CleaningKeepsSound(cfg, owners, seen, ready, clock);
    FindRequestIgnoresStatus(seen.messages, ready.messages, conversation, token);
    AdmitKeepsSound(cfg, owners, ready, user, own, conversation, token, now, stamp, clock);
  }

  /** The tables a claim looks at, after the row was opened and the user's slots were examined. */
  lemma SeenIsSound(cfg: Config, owners: Owners, db: Db, user: UserId, day: int, now: int, clock: int)
    requires Sound(cfg, owners, db, clock)
    ensures var extended := db.(rows := OpenRow(db.rows, user, day));
            var own := FindRow(extended.rows, user, day).value;
            var seen := RecoverOwn(cfg, owners, extended, user, own, now);
            Sound(cfg, owners, seen, clock) && seen.rows[own].user == user
            && (!OtherSlotHeld(cfg, owners, extended, user, own, now) && !seen.rows[own].Active() ==>
                  forall k :: 0 <= k < |seen.rows| && seen.rows[k].user == user ==> !seen.rows[k].Active())
  {
    var extended := db.(rows := OpenRow(db.rows, user, day));
    var own := FindRow(extended.rows, user, day).value;
    OpeningKeepsSound(cfg, owners, db, user, day, clock);
    var seen := RecoverOwn(cfg, owners, extended, user, own, now);
    RecoverOwnCleans(cfg, owners, extended, user, own, now);
    CleaningKeepsSound(cfg, owners, extended, seen, clock);
    if !OtherSlotHeld(cfg, owners, extended, user, own, now) && !seen.rows[own].Active() {
      NoSlotLeft(cfg, owners, extended, user, own, now);
      forall k | 0 <= k < |seen.rows| && seen.rows[k].user == user ensures !seen.rows[k].Active() {
        assert extended.rows[k].user == user;
      }
    }
  }

  lemma ClaimKeepsSound(cfg: Config, owners: Owners, db: Db, user: UserId, conversation: ConversationId,
                        token: Token, day: int, now: int, stamp: int, clock: int)
    requires Sound(cfg, owners, db, clock) && clock <= now <= stamp
    ensures Sound(cfg, owners, Claim(cfg, owners, db, user, conversation, token, day, now, stamp).0, stamp)
  {
    SeenIsSound(cfg, owners, db, user, day, now, clock);
    LaterClockKeepsSound(cfg, owners, db, clock, stamp);
    var extended := db.(rows := OpenRow(db.rows, user, day));
    var own := FindRow(extended.rows, user, day).value;
    var seen := RecoverOwn(cfg, owners, extended, user, own, now);
    LaterClockKeepsSound(cfg, owners, seen, clock, stamp);
    if Claim(cfg, owners, db, user, conversation, token, day, now, stamp).1.Claimed? {
      ReadyKeepsSound(cfg, owners, db, seen, user, own, conversation, token, now, stamp, clock);
    }
  }

  lemma StepKeepsSound(cfg: Config, owners: Owners, db: Db, e: Event, clock: int)
    requires Sound(cfg, owners, db, clock) && InTime(clock, e)
    ensures Sound(cfg, owners, Step(cfg, owners, db, e), ClockAfter(clock, e))
  {
    match e
    case ClaimEvent(user, conversation, token, day, now, stamp) =>
      ClaimKeepsSound(cfg, owners, db, user, conversation, token, day, now, stamp, clock);
    case AnswerEvent(request, completed, stamp) =>
      if request < |db.messages| && db.messages[request].role.User? {
        AnswerKeepsSound(cfg, owners, db, request, completed, stamp, clock);
      } else {
        LaterClockKeepsSound(cfg, owners, db, clock, stamp);
      }
    case FailEvent(request) =>
      if request < |db.messages| {
        CleaningKeepsSound(cfg, owners, db, MarkFailed(db, request), clock);
      }
    case ReleaseEvent(user, token, usage) =>
      ReleaseKeepsSound(cfg, owners, db, user, token, usage, clock);
  }

  /** The clock after a whole run. */
  function ClockAtEnd(clock: int, events: seq<Event>): int
    decreases |events|
  {
    if events == [] then clock else ClockAtEnd(ClockAfter(clock, events[0]), events[1..])
  }

  lemma {:induction false} RunKeepsSound(cfg: Config, owners: Owners, db: Db, events: seq<Event>, clock: int)
    requires Sound(cfg, owners, db, clock) && WellTimed(clock, events)
    ensures Sound(cfg, owners, Run(cfg, owners, db, events), ClockAtEnd(clock, events))
    decreases |events|
  {
    if events != [] {
      StepKeepsSound(cfg, owners, db, events[0], clock);
      RunKeepsSound(cfg, owners, Step(cfg, owners, db, events[0]), events[1..], ClockAfter(clock, events[0]));
    }
  }
}

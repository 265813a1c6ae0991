/** What holds in every state a run of the support gate can reach. */
module SupportGuarantees {
  import opened Basics
  import opened SupportGate
  import opened SupportRuns

  /** The tables after a run that starts with empty tables. */
  function After(cfg: Config, owners: Owners, events: seq<Event>): Db {
    Run(cfg, owners, Db([], []), events)
  }

  lemma ReachableIsSound(cfg: Config, owners: Owners, events: seq<Event>)
    requires WellTimed(0, events)
    ensures Sound(cfg, owners, After(cfg, owners, events), ClockAtEnd(0, events))
  {
    RunKeepsSound(cfg, owners, Db([], []), events, 0);
  }

  /** The rows that hold a slot. */
  function HeldSlots(rows: seq<UsageRow>): set<nat> {
    set k: nat | k < |rows| && rows[k].activeToken.Some?
  }

  lemma OneMoreNumber(before: set<nat>, after: set<nat>, n: nat, added: bool)
    requires after == (if added then before + {n} else before) && n !in before
    ensures |after| == |before| + if added then 1 else 0
  {
  }

  lemma {:induction false} ActiveAreCounted(rows: seq<UsageRow>)
    ensures CountActive(rows) == |HeldSlots(rows)|
  {
    if rows != [] {
      var before, n := rows[..|rows| - 1], |rows| - 1;
      ActiveAreCounted(before);
      OneMoreNumber(HeldSlots(before), HeldSlots(rows), n, rows[n].activeToken.Some?);
    }
  }

  /** At most the configured number of slots are held, and no user holds two, on whatever days. */
  lemma SlotsWithinCapacity(cfg: Config, owners: Owners, events: seq<Event>)
    requires WellTimed(0, events)
    ensures var rows := After(cfg, owners, events).rows;
            && |HeldSlots(rows)| <= Max(cfg.globalConcurrency, 0)
            && forall i, j :: 0 <= i < j < |rows| && rows[i].Active() && rows[j].Active() ==> rows[i].user != rows[j].user
  {
    ReachableIsSound(cfg, owners, events);
    var rows := After(cfg, owners, events).rows;
    ActiveAreCounted(rows);
    forall i, j | 0 <= i < j < |rows| && rows[i].Active() && rows[j].Active() ensures rows[i].user != rows[j].user {
      assert SlotsApart(rows, i, j);
    }
  }

  lemma {:induction false} CountGrows(messages: seq<Message>, shorter: nat, conversation: ConversationId)
    requires shorter <= |messages|
    ensures CountIn(messages[..shorter], conversation) <= CountIn(messages, conversation)
  {
    if shorter < |messages| {
      CountGrows(messages[..|messages| - 1], shorter, conversation);
      assert messages[..|messages| - 1][..shorter] == messages[..shorter];
    } else {
      assert messages[..shorter] == messages;
    }
  }

  lemma LaterNumberIsLarger(messages: seq<Message>, i: nat, j: nat)
    requires Numbered(messages) && i < j < |messages|
    requires messages[i].conversation == messages[j].conversation
    ensures messages[i].sequence < messages[j].sequence
  {
    var c := messages[i].conversation;
    assert NumberedAt(messages, i) && NumberedAt(messages, j);
    assert messages[..i + 1][..i] == messages[..i];
    CountGrows(messages[..j], i + 1, c);
    assert messages[..j][..i + 1] == messages[..i + 1];
  }

  /** The numbers of a conversation with n messages are exactly 1 to n, each used once. */
  lemma SequenceIsOneToN(cfg: Config, owners: Owners, events: seq<Event>, conversation: ConversationId)
    requires WellTimed(0, events)
    ensures var messages := After(cfg, owners, events).messages;
            && (forall s: nat :: SequenceTaken(messages, conversation, s) <==> 1 <= s <= CountIn(messages, conversation))
            && (forall i, j :: 0 <= i < j < |messages| && messages[i].conversation == messages[j].conversation ==>
                  messages[i].sequence != messages[j].sequence)
  {
    ReachableIsSound(cfg, owners, events);
    var messages := After(cfg, owners, events).messages;
    forall s: nat ensures SequenceTaken(messages, conversation, s) <==> 1 <= s <= CountIn(messages, conversation) {
      TakenUpToCount(messages, conversation, s);
    }
    forall i, j | 0 <= i < j < |messages| && messages[i].conversation == messages[j].conversation
      ensures messages[i].sequence != messages[j].sequence
    {
      LaterNumberIsLarger(messages, i, j);
    }
  }

  /** The message just before an assistant message is the user message it answers, and no other. */
  lemma AssistantAnswersThePreviousMessage(cfg: Config, owners: Owners, events: seq<Event>, k: nat, j: nat)
    requires WellTimed(0, events)
    requires k < |After(cfg, owners, events).messages| && j < |After(cfg, owners, events).messages|
    requires var messages := After(cfg, owners, events).messages;
             messages[k].role.Assistant? && messages[j].conversation == messages[k].conversation
             && messages[j].sequence + 1 == messages[k].sequence
    ensures var messages := After(cfg, owners, events).messages;
            messages[j].role.User? && messages[k].answers == Some(j)
  {
    ReachableIsSound(cfg, owners, events);
    var messages := After(cfg, owners, events).messages;
    assert PairedAt(messages, k);
    var question := messages[k].answers.value;
    if question < j {
      LaterNumberIsLarger(messages, question, j);
    } else if j < question {
      LaterNumberIsLarger(messages, j, question);
    }
  }

  /**
   A token that a conversation already knows creates no message: the claim is refused, or it
   returns the first message sent with the token, together with the answer written for it.
   */
  lemma RepeatedTokenCreatesNothing(cfg: Config, owners: Owners, events: seq<Event>, sent: nat,
                                    user: UserId, day: int, now: int, stamp: int)
    requires WellTimed(0, events)
    requires sent < |After(cfg, owners, events).messages|
    requires After(cfg, owners, events).messages[sent].role.User?
    ensures var db := After(cfg, owners, events);
            var m := db.messages[sent];
            m.token.Some? &&
            var (after, outcome) := Claim(cfg, owners, db, user, m.conversation, m.token.value, day, now, stamp);
            && |after.messages| == |db.messages|
            && !outcome.Claimed?
            && (outcome.Duplicate? ==>
                  && outcome.message == sent
                  && (forall k :: 0 <= k < |db.messages| ==>
                        (outcome.answer == Some(k) <==> db.messages[k].answers == Some(sent))))
  {
    ReachableIsSound(cfg, owners, events);
    var db := After(cfg, owners, events);
    var clock := ClockAtEnd(0, events);
    assert PairedAt(db.messages, sent);
    var m := db.messages[sent];
    SeenMessages(cfg, owners, db, user, day, now);
    var extended := db.(rows := OpenRow(db.rows, user, day));
    var own := FindRow(extended.rows, user, day).value;
    var seen := RecoverOwn(cfg, owners, extended, user, own, now);
    assert seen.messages[sent].token == m.token;
    var (after, outcome) := Claim(cfg, owners, db, user, m.conversation, m.token.value, day, now, stamp);
    if outcome.Duplicate? {
      OnlyOneWithToken(cfg, owners, db.messages, clock, sent, outcome.message);
      forall k | 0 <= k < |db.messages| ensures outcome.answer == Some(k) <==> db.messages[k].answers == Some(sent) {
        AnswerIsTheNextNumber(cfg, owners, db.messages, clock, sent, k);
        if outcome.answer.Some? && db.messages[k].answers == Some(sent) {
          AnswerIsTheNextNumber(cfg, owners, db.messages, clock, sent, outcome.answer.value);
          SameNumberSameMessage(db.messages, outcome.answer.value, k);
        }
      }
    }
  }

  /** Examining the slots of a user changes message statuses only. */
  lemma SeenMessages(cfg: Config, owners: Owners, db: Db, user: UserId, day: int, now: int)
    ensures var extended := db.(rows := OpenRow(db.rows, user, day));
            SameButStatus(db.messages,
                          RecoverOwn(cfg, owners, extended, user, FindRow(extended.rows, user, day).value, now).messages)
  {
    var extended := db.(rows := OpenRow(db.rows, user, day));
    RecoverOwnCleans(cfg, owners, extended, user, FindRow(extended.rows, user, day).value, now);
  }

  lemma OnlyOneWithToken(cfg: Config, owners: Owners, messages: seq<Message>, clock: int, i: nat, j: nat)
    requires MessagesSound(cfg, owners, messages, clock) && i < |messages| && j < |messages|
    requires messages[i].role.User? && messages[j].role.User?
    requires messages[i].conversation == messages[j].conversation && messages[i].token == messages[j].token
    ensures i == j
  {
    assert i < j ==> TokensApart(messages, i, j);
    assert j < i ==> TokensApart(messages, j, i);
  }

  lemma SameNumberSameMessage(messages: seq<Message>, i: nat, j: nat)
    requires Numbered(messages) && i < |messages| && j < |messages|
    requires messages[i].conversation == messages[j].conversation && messages[i].sequence == messages[j].sequence
    ensures i == j
  {
    if i < j {
      LaterNumberIsLarger(messages, i, j);
    } else if j < i {
      LaterNumberIsLarger(messages, j, i);
    }
  }

  /** Being written for a request and standing right after it are the same thing. */
  lemma AnswerIsTheNextNumber(cfg: Config, owners: Owners, messages: seq<Message>, clock: int, request: nat, k: nat)
    requires MessagesSound(cfg, owners, messages, clock) && request < |messages| && k < |messages|
    requires messages[request].role.User?
    ensures messages[k].answers == Some(request) <==>
            messages[k].role.Assistant? && messages[k].conversation == messages[request].conversation
            && messages[k].sequence == messages[request].sequence + 1
  {
    assert PairedAt(messages, k);
    if messages[k].role.Assistant? && messages[k].conversation == messages[request].conversation
       && messages[k].sequence == messages[request].sequence + 1 {
      SameNumberSameMessage(messages, messages[k].answers.value, request);
    }
  }

  /** An answer is stored exactly when its question is still the newest message of the conversation. */
  lemma AnswerStoredIffNewest(cfg: Config, owners: Owners, events: seq<Event>, request: nat, completed: bool, stamp: int)
    requires WellTimed(0, events)
    requires request < |After(cfg, owners, events).messages|
    ensures var db := After(cfg, owners, events);
            var m := db.messages[request];
            var (after, stored) := Answer(db, request, completed, stamp);
            && (stored <==> forall k :: 0 <= k < |db.messages| && db.messages[k].conversation == m.conversation ==>
                              db.messages[k].sequence <= m.sequence)
            && (!stored ==> after == db)
  {
    ReachableIsSound(cfg, owners, events);
    var db := After(cfg, owners, events);
    var m := db.messages[request];
    TakenUpToCount(db.messages, m.conversation, m.sequence + 1);
    forall k | 0 <= k < |db.messages| && db.messages[k].conversation == m.conversation
      ensures db.messages[k].sequence <= CountIn(db.messages, m.conversation)
    {
      assert SequenceTaken(db.messages, m.conversation, db.messages[k].sequence);
      TakenUpToCount(db.messages, m.conversation, db.messages[k].sequence);
    }
  }

  /** The requests counted on all usage rows of a user are the user messages of that user. */
  lemma RequestCountIsMessageCount(cfg: Config, owners: Owners, events: seq<Event>, user: UserId)
    requires WellTimed(0, events)
    ensures var db := After(cfg, owners, events);
            Requests(db.rows, user) == UserMessages(db.messages, owners, user)
  {
    ReachableIsSound(cfg, owners, events);
  }

  lemma {:induction false} WindowWithinRecent(messages: seq<Message>, owners: Owners, user: UserId, from: int, since: int)
    requires since <= from
    ensures InWindow(messages, owners, user, from) <= CountRecent(messages, owners, user, since)
  {
    if messages != [] {
      WindowWithinRecent(messages[..|messages| - 1], owners, user, from, since);
    }
  }

  lemma {:induction false} WindowOfPrefix(cfg: Config, owners: Owners, messages: seq<Message>, clock: int, n: nat,
                                          user: UserId, from: int)
    requires MessagesSound(cfg, owners, messages, clock) && n <= |messages|
    ensures InWindow(messages[..n], owners, user, from) <= Max(cfg.rateLimit, 0)
  {
    if n > 0 {
      var last := messages[n - 1];
      assert messages[..n][..n - 1] == messages[..n - 1];
      if last.role.User? && OwnedBy(owners, last.conversation, user) && from <= last.createdAt <= from + MINUTE {
        assert PacedAt(cfg, owners, messages, n - 1);
        WindowWithinRecent(messages[..n], owners, user, from, last.createdAt - MINUTE);
      } else {
        WindowOfPrefix(cfg, owners, messages, clock, n - 1, user, from);
      }
    }
  }

  /** No closed window of one minute holds more user messages of one user than the rate limit. */
  lemma RateLimitHoldsInEveryWindow(cfg: Config, owners: Owners, events: seq<Event>, user: UserId, from: int)
    requires WellTimed(0, events)
    ensures InWindow(After(cfg, owners, events).messages, owners, user, from) <= Max(cfg.rateLimit, 0)
  {
    ReachableIsSound(cfg, owners, events);
    var messages := After(cfg, owners, events).messages;
    assert messages[..|messages|] == messages;
    WindowOfPrefix(cfg, owners, messages, ClockAtEnd(0, events), |messages|, user, from);
  }

  /**
   The daily token limit can be exceeded by one answer at most: a day with a request in flight is
   below the limit, any other day is at most one maximal answer above it, and a day that was never
   claimed has spent nothing.
   */
  lemma DailyOvershootIsBounded(cfg: Config, owners: Owners, events: seq<Event>, k: nat)
    requires WellTimed(0, events)
    requires k < |After(cfg, owners, events).rows|
    ensures var row := After(cfg, owners, events).rows[k];
            var spent := row.inputTokens + row.outputTokens;
            && (row.Active() ==> spent < cfg.dailyTokenLimit)
            && (row.requestCount == 0 ==> spent == 0)
            && (row.requestCount > 0 ==> spent <= cfg.dailyTokenLimit - 1 + 2_000_000_000)
            && row.requestCount <= Max(cfg.dailyRequestLimit, 0)
  {
    ReachableIsSound(cfg, owners, events);
    assert RowWithinQuota(cfg, After(cfg, owners, events).rows[k]);
  }

  // ---------------------------------------------------------------- when a claim is admitted

  /** The slot was taken at a known moment, at most twice the provider's time ago, or two minutes. */
  predicate Fresh(cfg: Config, row: UsageRow, now: int) {
    && row.activeToken.Some? && row.activeStartedAt.Some?
    && (now - row.activeStartedAt.value <= 120_000_000 || now - row.activeStartedAt.value <= 2_000_000 * cfg.timeoutSeconds)
  }

  function CountFresh(cfg: Config, rows: seq<UsageRow>, now: int): nat {
    if rows == [] then 0
    else CountFresh(cfg, rows[..|rows| - 1], now) + if Fresh(cfg, rows[|rows| - 1], now) then 1 else 0
  }

  function WithoutStale(cfg: Config, row: UsageRow, now: int): UsageRow {
    if Stale(cfg, row, now) then row.Cleared() else row
  }

  lemma {:induction false} RecoverAllClearsStale(cfg: Config, owners: Owners, db: Db, n: nat, now: int)
    requires n <= |db.rows|
    ensures forall k :: 0 <= k < n ==> RecoverAll(cfg, owners, db, n, now).rows[k] == WithoutStale(cfg, db.rows[k], now)
    ensures forall k :: n <= k < |db.rows| ==> RecoverAll(cfg, owners, db, n, now).rows[k] == db.rows[k]
  {
    if n > 0 {
      RecoverAllClearsStale(cfg, owners, db, n - 1, now);
    }
  }

  lemma {:induction false} FreshAreLeft(cfg: Config, before: seq<UsageRow>, after: seq<UsageRow>, now: int)
    requires |before| == |after|
    requires forall k :: 0 <= k < |before| ==> after[k] == WithoutStale(cfg, before[k], now)
    ensures CountActive(after) == CountFresh(cfg, before, now)
  {
    if before != [] {
      FreshAreLeft(cfg, before[..|before| - 1], after[..|after| - 1], now);
    }
  }

  /** The slots in use by one user, looked at without recovering anything. */
  predicate UserHasFreshSlot(cfg: Config, rows: seq<UsageRow>, user: UserId, now: int) {
    exists k | 0 <= k < |rows| :: rows[k].user == user && Fresh(cfg, rows[k], now)
  }

  predicate DayHasRoom(cfg: Config, rows: seq<UsageRow>, user: UserId, day: int) {
    match FindRow(rows, user, day)
    case None => 0 < cfg.dailyRequestLimit && 0 < cfg.dailyTokenLimit
    case Some(k) => rows[k].requestCount < cfg.dailyRequestLimit
                    && rows[k].inputTokens + rows[k].outputTokens < cfg.dailyTokenLimit
  }

  /** The messages the user sent at or after a moment. */
  function SentSince(messages: seq<Message>, owners: Owners, user: UserId, since: int): set<nat> {
    set k: nat | k < |messages| && messages[k].role.User? && OwnedBy(owners, messages[k].conversation, user) && since <= messages[k].createdAt
  }

  lemma {:induction false} RecentAreCounted(messages: seq<Message>, owners: Owners, user: UserId, since: int)
    ensures CountRecent(messages, owners, user, since) == |SentSince(messages, owners, user, since)|
  {
    if messages != [] {
      var before, n := messages[..|messages| - 1], |messages| - 1;
      RecentAreCounted(before, owners, user, since);
      OneMoreNumber(SentSince(before, owners, user, since), SentSince(messages, owners, user, since), n,
                    messages[n].role.User? && OwnedBy(owners, messages[n].conversation, user) && since <= messages[n].createdAt);
    }
  }

  /** What a caller can look up beforehand. */
  predicate Admissible(cfg: Config, owners: Owners, db: Db, user: UserId, conversation: ConversationId,
                       token: Token, day: int, now: int)
  {
    && OwnedBy(owners, conversation, user)
    && FindRequest(db.messages, conversation, token).None?
    && !UserHasFreshSlot(cfg, db.rows, user, now)
    && CountFresh(cfg, db.rows, now) < cfg.globalConcurrency
    && |SentSince(db.messages, owners, user, now - 60_000_000)| < cfg.rateLimit
    && DayHasRoom(cfg, db.rows, user, day)
  }

  lemma OneSlot(cfg: Config, rows: seq<UsageRow>, i: nat, j: nat)
    requires RowsSound(cfg, rows) && i < |rows| && j < |rows|
    requires rows[i].Active() && rows[j].Active() && rows[i].user == rows[j].user
    ensures i == j
  {
    assert i < j ==> SlotsApart(rows, i, j);
    assert j < i ==> SlotsApart(rows, j, i);
  }

  /** One row of the user examined besides the own one tells whether any fresh slot exists. */
  lemma SlotsSeen(cfg: Config, owners: Owners, db: Db, user: UserId, own: nat, now: int)
    requires RowsSound(cfg, db.rows) && own < |db.rows| && db.rows[own].user == user
    ensures UserHasFreshSlot(cfg, db.rows, user, now) <==>
            OtherSlotHeld(cfg, owners, db, user, own, now)
            || RecoverOwn(cfg, owners, db, user, own, now).rows[own].Active()
    ensures forall k :: 0 <= k < |db.rows| ==>
              var row := RecoverOwn(cfg, owners, db, user, own, now).rows[k];
              row == db.rows[k] || row == WithoutStale(cfg, db.rows[k], now)
  {
    var first := Recover(cfg, owners, db, own, now);
    var other := FirstOtherActive(first.rows, user, own);
    forall k: nat | k < |db.rows| && db.rows[k].user == user && Fresh(cfg, db.rows[k], now) && k != own
      ensures other == Some(k)
    {
      assert first.rows[k] == db.rows[k];
      OneSlot(cfg, db.rows, other.value, k);
    }
    if OtherSlotHeld(cfg, owners, db, user, own, now) {
      assert Fresh(cfg, db.rows[other.value], now);
    }
    if RecoverOwn(cfg, owners, db, user, own, now).rows[own].Active() {
      assert Fresh(cfg, db.rows[own], now);
    }
  }

  lemma ReadyRows(cfg: Config, owners: Owners, db: Db, user: UserId, own: nat, now: int)
    requires RowsSound(cfg, db.rows) && own < |db.rows| && db.rows[own].user == user
    ensures var seen := RecoverOwn(cfg, owners, db, user, own, now);
            var ready := RecoverAll(cfg, owners, seen, |seen.rows|, now);
            && (forall k :: 0 <= k < |db.rows| ==> ready.rows[k] == WithoutStale(cfg, db.rows[k], now))
            && CountActive(ready.rows) == CountFresh(cfg, db.rows, now)
            && SameButStatus(db.messages, ready.messages)
  {
    var seen := RecoverOwn(cfg, owners, db, user, own, now);
    var ready := RecoverAll(cfg, owners, seen, |seen.rows|, now);
    SlotsSeen(cfg, owners, db, user, own, now);
    RecoverAllClearsStale(cfg, owners, seen, |seen.rows|, now);
    FreshAreLeft(cfg, db.rows, ready.rows, now);
    RecoverOwnCleans(cfg, owners, db, user, own, now);
    RecoverAllCleans(cfg, owners, seen, |seen.rows|, now);
    CleanedTwice(db, seen, ready);
  }

  lemma OpeningAddsNoFreshSlot(cfg: Config, rows: seq<UsageRow>, user: UserId, day: int, now: int)
    ensures CountFresh(cfg, OpenRow(rows, user, day), now) == CountFresh(cfg, rows, now)
    ensures UserHasFreshSlot(cfg, OpenRow(rows, user, day), user, now) <==> UserHasFreshSlot(cfg, rows, user, now)
  {
    var longer := OpenRow(rows, user, day);
    if longer != rows {
      assert longer[..|longer| - 1] == rows;
      if UserHasFreshSlot(cfg, rows, user, now) {
        var k :| 0 <= k < |rows| && rows[k].user == user && Fresh(cfg, rows[k], now);
        assert longer[k] == rows[k];
      }
    }
  }

  lemma QuotaSeen(cfg: Config, owners: Owners, db: Db, ready: Db, user: UserId, day: int, now: int)
    requires var rows := OpenRow(db.rows, user, day);
             |ready.rows| == |rows| && CountActive(ready.rows) == CountFresh(cfg, db.rows, now)
             && forall k :: 0 <= k < |rows| ==> ready.rows[k] == WithoutStale(cfg, rows[k], now)
    requires SameButStatus(db.messages, ready.messages)
    ensures QuotaRefusal(cfg, owners, ready, user, FindRow(OpenRow(db.rows, user, day), user, day).value, now).None? <==>
            && CountFresh(cfg, db.rows, now) < cfg.globalConcurrency
            && CountRecent(db.messages, owners, user, now - 60_000_000) < cfg.rateLimit
            && DayHasRoom(cfg, db.rows, user, day)
  {
    CountsIgnoreStatus(db.messages, ready.messages, owners);
    var rows := OpenRow(db.rows, user, day);
    var own := FindRow(rows, user, day).value;
    if FindRow(db.rows, user, day).None? {
      assert own == |db.rows|;
    }
  }

  lemma ClaimedIffNothingRefuses(cfg: Config, owners: Owners, db: Db, user: UserId, conversation: ConversationId,
                                 token: Token, day: int, now: int, stamp: int)
    ensures var extended := db.(rows := OpenRow(db.rows, user, day));
            var own := FindRow(extended.rows, user, day).value;
            var seen := RecoverOwn(cfg, owners, extended, user, own, now);
            Claim(cfg, owners, db, user, conversation, token, day, now, stamp).1.Claimed? <==>
            && !OtherSlotHeld(cfg, owners, extended, user, own, now)
            && OwnedBy(owners, conversation, user)
            && FindRequest(seen.messages, conversation, token).None?
            && !seen.rows[own].Active()
            && QuotaRefusal(cfg, owners, RecoverAll(cfg, owners, seen, |seen.rows|, now), user, own, now).None?
    ensures var extended := db.(rows := OpenRow(db.rows, user, day));
            var own := FindRow(extended.rows, user, day).value;
            var seen := RecoverOwn(cfg, owners, extended, user, own, now);
            Claim(cfg, owners, db, user, conversation, token, day, now, stamp).1.Claimed? ==>
              Claim(cfg, owners, db, user, conversation, token, day, now, stamp)
              == Admit(cfg, owners, db, RecoverAll(cfg, owners, seen, |seen.rows|, now), user, own, conversation, token, now, stamp)
  {
  }

  /**
   In a reachable state a claim is admitted exactly when the caller's look-ups all pass, counting
   only slots that are not stale; then the new request is the newest message of its conversation
   and holds the slot.
   */
  lemma ClaimAdmittedIff(cfg: Config, owners: Owners, events: seq<Event>, user: UserId, conversation: ConversationId,
                         token: Token, day: int, now: int, stamp: int)
    requires WellTimed(0, events)
    ensures var db := After(cfg, owners, events);
            Claim(cfg, owners, db, user, conversation, token, day, now, stamp).1.Claimed? <==>
            Admissible(cfg, owners, db, user, conversation, token, day, now)
  {
    ReachableIsSound(cfg, owners, events);
    var db := After(cfg, owners, events);
    var extended := db.(rows := OpenRow(db.rows, user, day));
    var own := FindRow(extended.rows, user, day).value;
    RecentAreCounted(db.messages, owners, user, now - 60_000_000);
    OpeningKeepsSound(cfg, owners, db, user, day, ClockAtEnd(0, events));
    OpeningAddsNoFreshSlot(cfg, db.rows, user, day, now);
    SlotsSeen(cfg, owners, extended, user, own, now);
    ReadyRows(cfg, owners, extended, user, own, now);
    var seen := RecoverOwn(cfg, owners, extended, user, own, now);
    QuotaSeen(cfg, owners, db, RecoverAll(cfg, owners, seen, |seen.rows|, now), user, day, now);
    SeenMessages(cfg, owners, db, user, day, now);
    RequestFoundDespiteStatus(db.messages, seen.messages, conversation, token);
    ClaimedIffNothingRefuses(cfg, owners, db, user, conversation, token, day, now, stamp);
  }

  lemma RequestFoundDespiteStatus(before: seq<Message>, after: seq<Message>, conversation: ConversationId, token: Token)
    requires SameButStatus(before, after)
    ensures FindRequest(before, conversation, token).None? <==> FindRequest(after, conversation, token).None?
  {
  }

  predicate HoldsSlot(rows: seq<UsageRow>, user: UserId, day: int, token: Token, stamp: int) {
    exists k | 0 <= k < |rows| ::
      rows[k].user == user && rows[k].day == day && rows[k].activeToken == Some(token) && rows[k].activeStartedAt == Some(stamp)
  }

  lemma AdmitWrites(cfg: Config, owners: Owners, db: Db, ready: Db, user: UserId, own: nat, conversation: ConversationId,
                    token: Token, day: int, now: int, stamp: int)
    requires own < |ready.rows| && ready.rows[own].user == user && ready.rows[own].day == day
    requires Numbered(ready.messages)
    requires Admit(cfg, owners, db, ready, user, own, conversation, token, now, stamp).1.Claimed?
    ensures var (after, outcome) := Admit(cfg, owners, db, ready, user, own, conversation, token, now, stamp);
            && outcome.message == |ready.messages|
            && after.messages == ready.messages + [Message(conversation, User, CountIn(ready.messages, conversation) + 1,
                                                           Processing, Some(token), stamp, None)]
            && HoldsSlot(after.rows, user, day, token, stamp)
  {
    var (after, outcome) := Admit(cfg, owners, db, ready, user, own, conversation, token, now, stamp);
    MaxIsCount(ready.messages, conversation);
    assert after.rows[own].user == user;
  }

  /** The database as an admission finds it: only statuses of messages differ from the one before the claim. */
  lemma ReadyForAdmission(cfg: Config, owners: Owners, db: Db, user: UserId, conversation: ConversationId, day: int, now: int, clock: int)
    requires Sound(cfg, owners, db, clock)
    ensures var extended := db.(rows := OpenRow(db.rows, user, day));
            var own := FindRow(extended.rows, user, day).value;
            var seen := RecoverOwn(cfg, owners, extended, user, own, now);
            var ready := RecoverAll(cfg, owners, seen, |seen.rows|, now);
            && own < |ready.rows| && ready.rows[own].user == user && ready.rows[own].day == day
            && SameButStatus(db.messages, ready.messages) && Numbered(ready.messages)
            && CountIn(ready.messages, conversation) == CountIn(db.messages, conversation)
  {
    var extended := db.(rows := OpenRow(db.rows, user, day));
    var own := FindRow(extended.rows, user, day).value;
    OpeningKeepsSound(cfg, owners, db, user, day, clock);
    ReadyRows(cfg, owners, extended, user, own, now);
    var seen := RecoverOwn(cfg, owners, extended, user, own, now);
    var ready := RecoverAll(cfg, owners, seen, |seen.rows|, now);
    CountsIgnoreStatus(db.messages, ready.messages, owners);
    StatusKeepsMessages(cfg, owners, db.messages, ready.messages, clock);
  }

  lemma AdmittedWrites(cfg: Config, owners: Owners, db: Db, ready: Db, user: UserId, own: nat, conversation: ConversationId,
                       token: Token, day: int, now: int, stamp: int)
    requires own < |ready.rows| && ready.rows[own].user == user && ready.rows[own].day == day
    requires SameButStatus(db.messages, ready.messages) && Numbered(ready.messages)
    requires CountIn(ready.messages, conversation) == CountIn(db.messages, conversation)
    requires Admit(cfg, owners, db, ready, user, own, conversation, token, now, stamp).1.Claimed?
    ensures Appends(db, Admit(cfg, owners, db, ready, user, own, conversation, token, now, stamp), user, conversation, token, day, stamp)
  {
    AdmitWrites(cfg, owners, db, ready, user, own, conversation, token, day, now, stamp);
    var after := Admit(cfg, owners, db, ready, user, own, conversation, token, now, stamp).0;
    assert after.messages[..|db.messages|] == ready.messages;
  }

  /** One numbered request in progress more, other messages changed in status only, and the slot of the day held. */
  ghost predicate Appends(db: Db, claimed: (Db, ClaimOutcome), user: UserId, conversation: ConversationId, token: Token, day: int, stamp: int)
    requires claimed.1.Claimed?
  {
    var (after, outcome) := claimed;
    && |after.messages| == |db.messages| + 1 && outcome.message == |db.messages|
    && after.messages[outcome.message]
       == Message(conversation, User, CountIn(db.messages, conversation) + 1, Processing, Some(token), stamp, None)
    && SameButStatus(db.messages, after.messages[..|db.messages|])
    && HoldsSlot(after.rows, user, day, token, stamp)
  }

  /** An admitted claim appends one numbered request in progress and holds the slot of the day. */
  lemma ClaimedWrites(cfg: Config, owners: Owners, events: seq<Event>, user: UserId, conversation: ConversationId,
                      token: Token, day: int, now: int, stamp: int)
    requires WellTimed(0, events)
    ensures var db := After(cfg, owners, events);
            var claimed := Claim(cfg, owners, db, user, conversation, token, day, now, stamp);
            claimed.1.Claimed? ==> Appends(db, claimed, user, conversation, token, day, stamp)
  {
    ReachableIsSound(cfg, owners, events);
    var db := After(cfg, owners, events);
    ClaimedIffNothingRefuses(cfg, owners, db, user, conversation, token, day, now, stamp);
    if Claim(cfg, owners, db, user, conversation, token, day, now, stamp).1.Claimed? {
      var extended := db.(rows := OpenRow(db.rows, user, day));
      var own := FindRow(extended.rows, user, day).value;
      var seen := RecoverOwn(cfg, owners, extended, user, own, now);
      ReadyForAdmission(cfg, owners, db, user, conversation, day, now, ClockAtEnd(0, events));
      AdmittedWrites(cfg, owners, db, RecoverAll(cfg, owners, seen, |seen.rows|, now), user, own, conversation, token, day, now, stamp);
    }
  }
}

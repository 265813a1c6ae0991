/**
 The request gate of the AI support chat: usage rows, messages, and the four transactions
 that change them (claim, answer, failure mark, release).

 The tables are sequences in primary-key order. Times are microseconds. A refused
 transaction is rolled back, so it leaves every table as it was.
 */
module SupportGate {
  import opened Basics

  type UserId = nat
  type ConversationId = nat
  type Token = nat

  const MINUTE: int := 60_000_000
  const MAX_STORED_USAGE_TOKENS: int := 1_000_000_000
  const POSTGRES_BIGINT_MAX: int := 9_223_372_036_854_775_807

  /** The limits from the settings file; timeoutSeconds is the provider timeout. */
  datatype Config = Config(
    globalConcurrency: int, rateLimit: int, dailyRequestLimit: int, dailyTokenLimit: int, timeoutSeconds: int)
  {
    function StaleAfter(): int {
      Max(timeoutSeconds * 2, 120) * 1_000_000
    }
  }

  datatype Role = User | Assistant

  datatype Status = Processing | Completed | Failed

  /** `answers` is bookkeeping of the model: which user message an assistant message was written for. */
  datatype Message = Message(
    conversation: ConversationId, role: Role, sequence: nat, status: Status,
    token: Option<Token>, createdAt: int, answers: Option<nat>)

  datatype UsageRow = UsageRow(
    user: UserId, day: int, requestCount: nat, inputTokens: nat, outputTokens: nat,
    activeToken: Option<Token>, activeStartedAt: Option<int>)
  {
    predicate Active() {
      activeToken.Some?
    }

    function Cleared(): UsageRow {
      this.(activeToken := None, activeStartedAt := None)
    }
  }

  datatype Db = Db(rows: seq<UsageRow>, messages: seq<Message>)

  /** Who owns each conversation. */
  type Owners = map<ConversationId, UserId>

  predicate OwnedBy(owners: Owners, conversation: ConversationId, user: UserId) {
    conversation in owners && owners[conversation] == user
  }

  datatype Refusal = ConcurrentRequest | ProviderCapacity | QuotaExceeded | ConversationNotFound

  datatype ClaimOutcome =
    | Claimed(message: nat)
    | Duplicate(message: nat, answer: Option<nat>)
    | Refused(reason: Refusal)

  /** What a provider reports; a component that is absent or not an integer is None. */
  datatype ReportedUsage = NotReported | Reported(input: Option<int>, output: Option<int>)

  // ---------------------------------------------------------------- queries

  function FindRow(rows: seq<UsageRow>, user: UserId, day: int, start: nat := 0): (r: Option<nat>)
    requires start <= |rows|
    ensures r.Some? ==> start <= r.value < |rows| && rows[r.value].user == user && rows[r.value].day == day
    ensures r.None? ==> forall k :: start <= k < |rows| ==> !(rows[k].user == user && rows[k].day == day)
    decreases |rows| - start
  {
    if start == |rows| then None
    else if rows[start].user == user && rows[start].day == day then Some(start)
    else FindRow(rows, user, day, start + 1)
  }

  function FirstOtherActive(rows: seq<UsageRow>, user: UserId, own: nat, start: nat := 0): (r: Option<nat>)
    requires start <= |rows|
    ensures r.Some? ==> start <= r.value < |rows| && r.value != own && rows[r.value].user == user && rows[r.value].Active()
    ensures r.None? ==> forall k :: start <= k < |rows| && k != own && rows[k].user == user ==> !rows[k].Active()
    decreases |rows| - start
  {
    if start == |rows| then None
    else if start != own && rows[start].user == user && rows[start].Active() then Some(start)
    else FirstOtherActive(rows, user, own, start + 1)
  }

  function FirstWithToken(rows: seq<UsageRow>, user: UserId, token: Token, start: nat := 0): (r: Option<nat>)
    requires start <= |rows|
    ensures r.Some? ==> start <= r.value < |rows| && rows[r.value].user == user && rows[r.value].activeToken == Some(token)
    ensures r.None? ==> forall k :: start <= k < |rows| && rows[k].user == user ==> rows[k].activeToken != Some(token)
    decreases |rows| - start
  {
    if start == |rows| then None
    else if rows[start].user == user && rows[start].activeToken == Some(token) then Some(start)
    else FirstWithToken(rows, user, token, start + 1)
  }

  /** The user message of the conversation that carries the token. */
  function FindRequest(messages: seq<Message>, conversation: ConversationId, token: Token, start: nat := 0): (r: Option<nat>)
    requires start <= |messages|
    ensures r.Some? ==> start <= r.value < |messages| && messages[r.value].conversation == conversation
                        && messages[r.value].role.User? && messages[r.value].token == Some(token)
    ensures r.None? ==>
              forall k :: start <= k < |messages| && messages[k].conversation == conversation && messages[k].role.User? ==>
                messages[k].token != Some(token)
    decreases |messages| - start
  {
    if start == |messages| then None
    else if messages[start].conversation == conversation && messages[start].role.User? && messages[start].token == Some(token)
      then Some(start)
    else FindRequest(messages, conversation, token, start + 1)
  }

  /** The assistant message of the conversation at a sequence number. */
  function FindAnswer(messages: seq<Message>, conversation: ConversationId, sequence: nat, start: nat := 0): (r: Option<nat>)
    requires start <= |messages|
    ensures r.Some? ==> start <= r.value < |messages| && messages[r.value].conversation == conversation
                        && messages[r.value].role.Assistant? && messages[r.value].sequence == sequence
    ensures r.None? ==>
              forall k :: start <= k < |messages| && messages[k].conversation == conversation && messages[k].role.Assistant? ==>
                messages[k].sequence != sequence
    decreases |messages| - start
  {
    if start == |messages| then None
    else if messages[start].conversation == conversation && messages[start].role.Assistant? && messages[start].sequence == sequence
      then Some(start)
    else FindAnswer(messages, conversation, sequence, start + 1)
  }

  /** The unique (conversation, sequence) constraint of the message table. */
  predicate SequenceTaken(messages: seq<Message>, conversation: ConversationId, sequence: nat) {
    exists k | 0 <= k < |messages| :: messages[k].conversation == conversation && messages[k].sequence == sequence
  }

  function MaxSequence(messages: seq<Message>, conversation: ConversationId): nat {
    if messages == [] then 0
    else
      var last := messages[|messages| - 1];
      var before := MaxSequence(messages[..|messages| - 1], conversation);
      if last.conversation == conversation then Max(before, last.sequence) else before
  }

  function CountActive(rows: seq<UsageRow>): nat {
    if rows == [] then 0
    else CountActive(rows[..|rows| - 1]) + if rows[|rows| - 1].Active() then 1 else 0
  }

  /** How many user messages of one user were created at or after `since`. */
  function CountRecent(messages: seq<Message>, owners: Owners, user: UserId, since: int): nat {
    if messages == [] then 0
    else
      var last := messages[|messages| - 1];
      CountRecent(messages[..|messages| - 1], owners, user, since)
      + if last.role.User? && OwnedBy(owners, last.conversation, user) && since <= last.createdAt then 1 else 0
  }

  // ---------------------------------------------------------------- recovery of a stale slot

  predicate Stale(cfg: Config, row: UsageRow, now: int) {
    row.Active() && (row.activeStartedAt.None? || row.activeStartedAt.value < now - cfg.StaleAfter())
  }

  predicate Abandoned(message: Message, owners: Owners, user: UserId, token: Token) {
    OwnedBy(owners, message.conversation, user) && message.token == Some(token) && message.status.Processing?
  }

  function FailAbandoned(messages: seq<Message>, owners: Owners, user: UserId, token: Token): seq<Message> {
    seq(|messages|, i requires 0 <= i < |messages| =>
      if Abandoned(messages[i], owners, user, token) then messages[i].(status := Failed) else messages[i])
  }

  function Recover(cfg: Config, owners: Owners, db: Db, i: nat, now: int): (r: Db)
    requires i < |db.rows|
    ensures |r.rows| == |db.rows|
  {
    var row := db.rows[i];
    if Stale(cfg, row, now) then
      Db(db.rows[i := row.Cleared()], FailAbandoned(db.messages, owners, row.user, row.activeToken.value))
    else db
  }

  /** Recovery of the first n rows, in order. */
  function RecoverAll(cfg: Config, owners: Owners, db: Db, n: nat, now: int): (r: Db)
    requires n <= |db.rows|
    ensures |r.rows| == |db.rows|
  {
    if n == 0 then db else Recover(cfg, owners, RecoverAll(cfg, owners, db, n - 1, now), n - 1, now)
  }

  // ---------------------------------------------------------------- the transactions

  /** get_or_create of the usage row of a day. */
  function OpenRow(rows: seq<UsageRow>, user: UserId, day: int): (r: seq<UsageRow>)
    ensures FindRow(r, user, day).Some?
  {
    if FindRow(rows, user, day).Some? then rows else
      var extended := rows + [UsageRow(user, day, 0, 0, 0, None, None)];
      assert extended[|rows|].user == user && extended[|rows|].day == day;
      extended
  }

  /** The tables after the own row and the first other active row of the user were examined. */
  function RecoverOwn(cfg: Config, owners: Owners, db: Db, user: UserId, own: nat, now: int): (r: Db)
    requires own < |db.rows|
    ensures |r.rows| == |db.rows|
  {
    var first := Recover(cfg, owners, db, own, now);
    match FirstOtherActive(first.rows, user, own)
    case None => first
    case Some(j) => Recover(cfg, owners, first, j, now)
  }

  predicate OtherSlotHeld(cfg: Config, owners: Owners, db: Db, user: UserId, own: nat, now: int)
    requires own < |db.rows|
  {
    var first := Recover(cfg, owners, db, own, now);
    match FirstOtherActive(first.rows, user, own)
    case None => false
    case Some(j) => Recover(cfg, owners, first, j, now).rows[j].Active()
  }

  /** Why a claim is refused once all stale slots were recovered, if it is. */
  function QuotaRefusal(cfg: Config, owners: Owners, db: Db, user: UserId, own: nat, now: int): Option<Refusal>
    requires own < |db.rows|
  {
    var row := db.rows[own];
    if CountActive(db.rows) >= cfg.globalConcurrency then Some(ProviderCapacity)
    else if CountRecent(db.messages, owners, user, now - MINUTE) >= cfg.rateLimit then Some(QuotaExceeded)
    else if row.requestCount >= cfg.dailyRequestLimit then Some(QuotaExceeded)
    else if row.inputTokens + row.outputTokens >= cfg.dailyTokenLimit then Some(QuotaExceeded)
    else None
  }

  function Occupy(row: UsageRow, token: Token, stamp: int): UsageRow {
    row.(requestCount := row.requestCount + 1, activeToken := Some(token), activeStartedAt := Some(stamp))
  }

  function NewRequest(messages: seq<Message>, conversation: ConversationId, token: Token, stamp: int): Message {
    Message(conversation, User, MaxSequence(messages, conversation) + 1, Processing, Some(token), stamp, None)
  }

  /** The end of a claim, once every stale slot was recovered into `ready`. */
  function Admit(cfg: Config, owners: Owners, db: Db, ready: Db, user: UserId, own: nat, conversation: ConversationId,
                 token: Token, now: int, stamp: int): (Db, ClaimOutcome)
    requires own < |ready.rows|
  {
    var refusal := QuotaRefusal(cfg, owners, ready, user, own, now);
    if refusal.Some? then (db, Refused(refusal.value)) else
    (Db(ready.rows[own := Occupy(ready.rows[own], token, stamp)],
        ready.messages + [NewRequest(ready.messages, conversation, token, stamp)]),
     Claimed(|ready.messages|))
  }

  /** The claim transaction: `now` is the clock when limits are read, `stamp` when rows are written. */
  function Claim(cfg: Config, owners: Owners, db: Db, user: UserId, conversation: ConversationId,
                 token: Token, day: int, now: int, stamp: int): (Db, ClaimOutcome)
  {
    var extended := db.(rows := OpenRow(db.rows, user, day));
    var own := FindRow(extended.rows, user, day).value;
    if OtherSlotHeld(cfg, owners, extended, user, own, now) then (db, Refused(ConcurrentRequest)) else
    var seen := RecoverOwn(cfg, owners, extended, user, own, now);
    if !OwnedBy(owners, conversation, user) then (db, Refused(ConversationNotFound)) else
    var repeated := FindRequest(seen.messages, conversation, token);
    if repeated.Some? then
      (seen, Duplicate(repeated.value,
                       FindAnswer(seen.messages, conversation, seen.messages[repeated.value].sequence + 1)))
    else if seen.rows[own].Active() then (db, Refused(ConcurrentRequest)) else
    Admit(cfg, owners, db, RecoverAll(cfg, owners, seen, |seen.rows|, now), user, own, conversation, token, now, stamp)
  }

  /** The answer transaction of a user message: false when a unique constraint rejects it. */
  function Answer(db: Db, request: nat, completed: bool, stamp: int): (Db, bool)
    requires request < |db.messages|
  {
    var locked := db.messages[request];
    if SequenceTaken(db.messages, locked.conversation, locked.sequence + 1) then (db, false) else
    var status := if completed then Completed else Failed;
    var reply := Message(locked.conversation, Assistant, locked.sequence + 1, status, None, stamp, Some(request));
    (db.(messages := db.messages[request := locked.(status := status)] + [reply]), true)
  }

  function MarkFailed(db: Db, request: nat): Db
    requires request < |db.messages|
  {
    db.(messages := db.messages[request := db.messages[request].(status := Failed)])
  }

  predicate Storable(value: Option<int>) {
    value.Some? && 0 <= value.value <= MAX_STORED_USAGE_TOKENS
  }

  /** Either both counts are usable or none is kept. */
  function SafeUsage(usage: ReportedUsage): (r: (nat, nat))
    ensures r.0 <= MAX_STORED_USAGE_TOKENS && r.1 <= MAX_STORED_USAGE_TOKENS
    ensures r != (0, 0) ==> usage == Reported(Some(r.0), Some(r.1))
  {
    if usage.Reported? && Storable(usage.input) && Storable(usage.output)
    then (usage.input.value, usage.output.value)
    else (0, 0)
  }

  function Spent(row: UsageRow, usage: (nat, nat)): UsageRow {
    row.(inputTokens := Min(row.inputTokens + usage.0, POSTGRES_BIGINT_MAX),
         outputTokens := Min(row.outputTokens + usage.1, POSTGRES_BIGINT_MAX)).Cleared()
  }

  function Release(db: Db, user: UserId, token: Token, usage: ReportedUsage): Db {
    match FirstWithToken(db.rows, user, token)
    case None => db
    case Some(i) => db.(rows := db.rows[i := Spent(db.rows[i], SafeUsage(usage))])
  }

  // ---------------------------------------------------------------- the service

  /** The stored tables, changed in place by each transaction. */
  class SupportStore {
    const cfg: Config
    const owners: Owners
    var rows: seq<UsageRow>
    var messages: seq<Message>

    constructor (cfg: Config, owners: Owners)
      ensures this.cfg == cfg && this.owners == owners && Tables() == Db([], [])
    {
      this.cfg := cfg;
      this.owners := owners;
      rows, messages := [], [];
    }

    function Tables(): Db
      reads this
    {
      Db(rows, messages)
    }

    method RecoverStaleUsage(i: nat, now: int)
      requires i < |rows|
      modifies this
      ensures Tables() == Recover(cfg, owners, old(Tables()), i, now)
    {
      var row := rows[i];
      if row.Active() && (row.activeStartedAt.None? || row.activeStartedAt.value < now - cfg.StaleAfter()) {
        messages := FailAbandoned(messages, owners, row.user, row.activeToken.value);
        rows := rows[i := row.Cleared()];
      }
    }

    method RecoverEveryRow(now: int)
      modifies this
      ensures Tables() == RecoverAll(cfg, owners, old(Tables()), |old(rows)|, now)
    {
      var i := 0;
      while i < |rows|
        invariant |rows| == |old(rows)| && 0 <= i <= |rows|
        invariant Tables() == RecoverAll(cfg, owners, old(Tables()), i, now)
      {
        RecoverStaleUsage(i, now);
        i := i + 1;
      }
    }

    method ActiveCount() returns (count: nat)
      ensures count == CountActive(rows)
    {
      count := 0;
      var i := 0;
      while i < |rows|
        invariant 0 <= i <= |rows| && count == CountActive(rows[..i])
      {
        if rows[i].Active() {
          count := count + 1;
        }
        i := i + 1;
        assert rows[..i][..i - 1] == rows[..i - 1];
      }
      assert rows[..i] == rows;
    }

    method ClaimRequest(conversation: ConversationId, user: UserId, token: Token, day: int, now: int, stamp: int)
      returns (outcome: ClaimOutcome)
      modifies this
      ensures (Tables(), outcome) == Claim(cfg, owners, old(Tables()), user, conversation, token, day, now, stamp)
    {
      var rows0, messages0 := rows, messages;
      outcome := TryClaim(conversation, user, token, day, now, stamp);
      if outcome.Refused? {
        rows, messages := rows0, messages0;  // the transaction is rolled back
      }
    }

    /** The body of the claim, before any rollback. */
    method TryClaim(conversation: ConversationId, user: UserId, token: Token, day: int, now: int, stamp: int)
      returns (outcome: ClaimOutcome)
      modifies this
      ensures var spec := Claim(cfg, owners, old(Tables()), user, conversation, token, day, now, stamp);
              outcome == spec.1 && (!outcome.Refused? ==> Tables() == spec.0)
    {
      rows := OpenRow(rows, user, day);
      var own := FindRow(rows, user, day).value;
      RecoverStaleUsage(own, now);
      var other := FirstOtherActive(rows, user, own);
      if other.Some? {
        RecoverStaleUsage(other.value, now);
        if rows[other.value].Active() {
          return Refused(ConcurrentRequest);
        }
      }
      if !OwnedBy(owners, conversation, user) {
        return Refused(ConversationNotFound);
      }
      var repeated := FindRequest(messages, conversation, token);
      if repeated.Some? {
        var answer := FindAnswer(messages, conversation, messages[repeated.value].sequence + 1);
        return Duplicate(repeated.value, answer);
      }
      if rows[own].Active() {
        return Refused(ConcurrentRequest);
      }
      RecoverEveryRow(now);
      outcome := AdmitRequest(conversation, user, own, token, now, stamp);
    }

    method AdmitRequest(conversation: ConversationId, user: UserId, own: nat, token: Token, now: int, stamp: int)
      returns (outcome: ClaimOutcome)
      requires own < |rows|
      modifies this
      ensures (Tables(), outcome) == Admit(cfg, owners, old(Tables()), old(Tables()), user, own, conversation, token, now, stamp)
    {
      var active := ActiveCount();
      if active >= cfg.globalConcurrency {
        return Refused(ProviderCapacity);
      }
      if CountRecent(messages, owners, user, now - MINUTE) >= cfg.rateLimit
         || rows[own].requestCount >= cfg.dailyRequestLimit
         || rows[own].inputTokens + rows[own].outputTokens >= cfg.dailyTokenLimit {
        return Refused(QuotaExceeded);
      }
      outcome := Claimed(|messages|);
      messages := messages + [NewRequest(messages, conversation, token, stamp)];
      rows := rows[own := Occupy(rows[own], token, stamp)];
    }

    method AnswerRequest(request: nat, completed: bool, stamp: int) returns (stored: bool)
      requires request < |messages|
      modifies this
      ensures (Tables(), stored) == Answer(old(Tables()), request, completed, stamp)
    {
      var locked := messages[request];
      if SequenceTaken(messages, locked.conversation, locked.sequence + 1) {
        return false;
      }
      var status := if completed then Completed else Failed;
      messages := messages + [Message(locked.conversation, Assistant, locked.sequence + 1, status, None, stamp, Some(request))];
      messages := messages[request := locked.(status := status)];
      assert messages == old(messages)[request := locked.(status := status)] + [messages[|old(messages)|]];
      stored := true;
    }

    method FailRequest(request: nat)
      requires request < |messages|
      modifies this
      ensures Tables() == MarkFailed(old(Tables()), request)
    {
      messages := messages[request := messages[request].(status := Failed)];
    }

    method ReleaseRequest(user: UserId, token: Token, usage: ReportedUsage)
      modifies this
      ensures Tables() == Release(old(Tables()), user, token, usage)
    {
      var found := FirstWithToken(rows, user, token);
      if found.Some? {
        var row := rows[found.value];
        var (input, output) := SafeUsage(usage);
        row := row.(inputTokens := Min(row.inputTokens + input, POSTGRES_BIGINT_MAX));
        row := row.(outputTokens := Min(row.outputTokens + output, POSTGRES_BIGINT_MAX));
        rows := rows[found.value := row.Cleared()];
      }
    }
  }
}

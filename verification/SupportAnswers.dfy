/** Every answer of a claim and just when it is given, by what the caller could look up beforehand. */
module SupportAnswers {
  import opened Basics
  import opened SupportGate
  import opened SupportRuns
  import opened SupportGuarantees

  /** The user holds a slot in use on another day, or on this one. */
  predicate BusyOnAnotherDay(cfg: Config, rows: seq<UsageRow>, user: UserId, day: int, now: int) {
    exists k | 0 <= k < |rows| :: rows[k].user == user && rows[k].day != day && Fresh(cfg, rows[k], now)
  }

  predicate BusyToday(cfg: Config, rows: seq<UsageRow>, user: UserId, day: int, now: int) {
    exists k | 0 <= k < |rows| :: rows[k].user == user && rows[k].day == day && Fresh(cfg, rows[k], now)
  }

  /** The conversation has a request with this token. */
  predicate WasAsked(messages: seq<Message>, conversation: ConversationId, token: Token) {
    exists k | 0 <= k < |messages| ::
      messages[k].conversation == conversation && messages[k].role.User? && messages[k].token == Some(token)
  }

  lemma OpeningMakesNobodyBusy(cfg: Config, rows: seq<UsageRow>, user: UserId, day: int, now: int)
    ensures var longer := OpenRow(rows, user, day);
      && (BusyOnAnotherDay(cfg, longer, user, day, now) <==> BusyOnAnotherDay(cfg, rows, user, day, now))
      && (BusyToday(cfg, longer, user, day, now) <==> BusyToday(cfg, rows, user, day, now))
  {
    var longer := OpenRow(rows, user, day);
    assert forall k :: 0 <= k < |rows| ==> longer[k] == rows[k];
    assert longer == rows || (|longer| == |rows| + 1 && !Fresh(cfg, longer[|rows|], now));
  }

  lemma OtherSlotIff(cfg: Config, owners: Owners, db: Db, user: UserId, day: int, own: nat, now: int)
    requires RowsSound(cfg, db.rows) && own < |db.rows| && db.rows[own].user == user && db.rows[own].day == day
    ensures OtherSlotHeld(cfg, owners, db, user, own, now) <==> BusyOnAnotherDay(cfg, db.rows, user, day, now)
  {
    var first := Recover(cfg, owners, db, own, now);
    var other := FirstOtherActive(first.rows, user, own);
    forall k: nat | k < |db.rows| && db.rows[k].user == user && db.rows[k].day != day && Fresh(cfg, db.rows[k], now)
      ensures other == Some(k)
    {
      assert first.rows[k] == db.rows[k];
      OneSlot(cfg, db.rows, other.value, k);
    }
    if OtherSlotHeld(cfg, owners, db, user, own, now) {
      var j := other.value;
      assert Fresh(cfg, db.rows[j], now);
      assert j < own ==> DaysApart(db.rows, j, own);
      assert own < j ==> DaysApart(db.rows, own, j);
    }
  }

  lemma OwnSlotIff(cfg: Config, owners: Owners, db: Db, user: UserId, day: int, own: nat, now: int)
    requires RowsSound(cfg, db.rows) && own < |db.rows| && db.rows[own].user == user && db.rows[own].day == day
    ensures RecoverOwn(cfg, owners, db, user, own, now).rows[own].Active() <==> BusyToday(cfg, db.rows, user, day, now)
  {
    var first := Recover(cfg, owners, db, own, now);
    assert first.rows[own] == WithoutStale(cfg, db.rows[own], now);
    assert RecoverOwn(cfg, owners, db, user, own, now).rows[own] == first.rows[own];
    forall k: nat | k < |db.rows| && db.rows[k].user == user && db.rows[k].day == day ensures k == own {
      assert k < own ==> DaysApart(db.rows, k, own);
      assert own < k ==> DaysApart(db.rows, own, k);
    }
  }

  lemma WasAskedIff(messages: seq<Message>, conversation: ConversationId, token: Token)
    ensures FindRequest(messages, conversation, token).Some? <==> WasAsked(messages, conversation, token)
  {
  }

  /** The refusal of capacity comes before those of the quotas. */
  lemma QuotaReason(cfg: Config, owners: Owners, db: Db, ready: Db, user: UserId, day: int, now: int)
    requires var rows := OpenRow(db.rows, user, day);
             |ready.rows| == |rows| && CountActive(ready.rows) == CountFresh(cfg, db.rows, now)
             && forall k :: 0 <= k < |rows| ==> ready.rows[k] == WithoutStale(cfg, rows[k], now)
    requires SameButStatus(db.messages, ready.messages)
    ensures var refusal := QuotaRefusal(cfg, owners, ready, user, FindRow(OpenRow(db.rows, user, day), user, day).value, now);
      && (refusal == Some(ProviderCapacity) <==> CountFresh(cfg, db.rows, now) >= cfg.globalConcurrency)
      && (refusal == Some(QuotaExceeded) <==>
            && CountFresh(cfg, db.rows, now) < cfg.globalConcurrency
            && (|SentSince(db.messages, owners, user, now - 60_000_000)| >= cfg.rateLimit || !DayHasRoom(cfg, db.rows, user, day)))
      && refusal != Some(ConcurrentRequest) && refusal != Some(ConversationNotFound)
  {
    QuotaSeen(cfg, owners, db, ready, user, day, now);
    RecentAreCounted(db.messages, owners, user, now - 60_000_000);
  }

  /** What the steps of a claim find, in their order. */
  lemma ClaimSteps(cfg: Config, owners: Owners, db: Db, user: UserId, conversation: ConversationId, token: Token,
                   day: int, now: int, stamp: int)
    ensures var extended := db.(rows := OpenRow(db.rows, user, day));
      var own := FindRow(extended.rows, user, day).value;
      var seen := RecoverOwn(cfg, owners, extended, user, own, now);
      var outcome := Claim(cfg, owners, db, user, conversation, token, day, now, stamp).1;
      var held := OtherSlotHeld(cfg, owners, extended, user, own, now);
      var repeated := FindRequest(seen.messages, conversation, token).Some?;
      var ready := RecoverAll(cfg, owners, seen, |seen.rows|, now);
      var quota := QuotaRefusal(cfg, owners, ready, user, own, now);
      && (held ==> outcome == Refused(ConcurrentRequest))
      && (!held && !OwnedBy(owners, conversation, user) ==> outcome == Refused(ConversationNotFound))
      && (!held && OwnedBy(owners, conversation, user) && repeated ==> outcome.Duplicate?)
      && (!held && OwnedBy(owners, conversation, user) && !repeated && seen.rows[own].Active() ==> outcome == Refused(ConcurrentRequest))
      && (!held && OwnedBy(owners, conversation, user) && !repeated && !seen.rows[own].Active() ==>
            if quota.Some? then outcome == Refused(quota.value) else outcome.Claimed?)
  {
  }

  /** A claim that reaches the quotas: no slot of the user is in use and the request is new. */
  predicate ReachesTheQuotas(cfg: Config, owners: Owners, db: Db, user: UserId, conversation: ConversationId, token: Token, day: int, now: int) {
    && !BusyOnAnotherDay(cfg, db.rows, user, day, now) && OwnedBy(owners, conversation, user)
    && !WasAsked(db.messages, conversation, token) && !BusyToday(cfg, db.rows, user, day, now)
  }

  /**
   In a reachable state a claim looks in this order at: the user's slot of another day, the conversation, a repeated
   token, the slot of the day, the capacity of the provider, the quotas. Each answer is given just when its look-up says so.
   */
  lemma ClaimIsAnsweredIff(cfg: Config, owners: Owners, events: seq<Event>, user: UserId, conversation: ConversationId,
                           token: Token, day: int, now: int, stamp: int)
    requires WellTimed(0, events)
    ensures var db := After(cfg, owners, events);
      var outcome := Claim(cfg, owners, db, user, conversation, token, day, now, stamp).1;
      var elsewhere, asked := BusyOnAnotherDay(cfg, db.rows, user, day, now), WasAsked(db.messages, conversation, token);
      var reaches := ReachesTheQuotas(cfg, owners, db, user, conversation, token, day, now);
      && (outcome == Refused(ConversationNotFound) <==> !elsewhere && !OwnedBy(owners, conversation, user))
      && (outcome.Duplicate? <==> !elsewhere && OwnedBy(owners, conversation, user) && asked)
      && (outcome == Refused(ConcurrentRequest) <==>
            elsewhere || (OwnedBy(owners, conversation, user) && !asked && BusyToday(cfg, db.rows, user, day, now)))
      && (outcome == Refused(ProviderCapacity) <==> reaches && CountFresh(cfg, db.rows, now) >= cfg.globalConcurrency)
      && (outcome == Refused(QuotaExceeded) <==>
            && reaches && CountFresh(cfg, db.rows, now) < cfg.globalConcurrency
            && (|SentSince(db.messages, owners, user, now - 60_000_000)| >= cfg.rateLimit || !DayHasRoom(cfg, db.rows, user, day)))
  {
    ReachableIsSound(cfg, owners, events);
    var db := After(cfg, owners, events);
    var extended := db.(rows := OpenRow(db.rows, user, day));
    var own := FindRow(extended.rows, user, day).value;
    var seen := RecoverOwn(cfg, owners, extended, user, own, now);
    OpeningKeepsSound(cfg, owners, db, user, day, ClockAtEnd(0, events));
    OpeningAddsNoFreshSlot(cfg, db.rows, user, day, now);
    OpeningMakesNobodyBusy(cfg, db.rows, user, day, now);
    OtherSlotIff(cfg, owners, extended, user, day, own, now);
    OwnSlotIff(cfg, owners, extended, user, day, own, now);
    ReadyRows(cfg, owners, extended, user, own, now);
    QuotaReason(cfg, owners, db, RecoverAll(cfg, owners, seen, |seen.rows|, now), user, day, now);
    SeenMessages(cfg, owners, db, user, day, now);
    RequestFoundDespiteStatus(db.messages, seen.messages, conversation, token);
    WasAskedIff(db.messages, conversation, token);
    ClaimSteps(cfg, owners, db, user, conversation, token, day, now, stamp);
  }
}

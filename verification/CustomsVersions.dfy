/**
 The customs card of a part and its append-only data versions, selected as of a moment.

 Saving a card always records a version: the save signal does it, and the explicit call that
 follows finds nothing new. Weights are thousandths of a kilogram.
 */
module CustomsVersions {
  import opened Basics

  /** The fields of a card that are not weights or the application area. */
  datatype Facts = Facts(
    nameRu: string, nameRuConfirmed: bool, nameEn: string, manufacturer: string, country: string,
    unitPriceUsd: Option<int>, sourceReference: string)

  datatype Values = Values(gross: Option<int>, net: Option<int>, area: string, facts: Facts)

  datatype Version = Version(number: nat, effectiveFrom: int, values: Values)

  /** What is stored for one part; `defaults` is what opening an empty card would prefill. */
  datatype PartRecord = PartRecord(card: Option<Values>, versions: seq<Version>, defaults: Facts)

  function Untouched(defaults: Facts): Values {
    Values(None, None, "", defaults)
  }

  function Record(p: PartRecord, values: Values, now: int): seq<Version> {
    if values == Untouched(p.defaults) then p.versions
    else if p.versions != [] && p.versions[|p.versions| - 1].values == values then p.versions
    else p.versions + [Version(if p.versions == [] then 1 else p.versions[|p.versions| - 1].number + 1, now, values)]
  }

  function Save(p: PartRecord, values: Values, now: int): PartRecord {
    p.(card := Some(values), versions := Record(p, values, now))
  }

  /** The card as read without creating it. */
  function Read(p: PartRecord): Values {
    match p.card
    case None => Untouched(p.defaults)
    case Some(values) => values
  }

  // ---------------------------------------------------------------- the version in force

  function LastBefore(versions: seq<Version>, at: int): Option<Version> {
    if versions == [] then None
    else if versions[|versions| - 1].effectiveFrom <= at then Some(versions[|versions| - 1])
    else LastBefore(versions[..|versions| - 1], at)
  }

  /** The first version also covers everything before it; no moment at all means the first version. */
  function VersionAt(versions: seq<Version>, at: Option<int>): Option<Version> {
    if versions == [] then None
    else if at.None? then Some(versions[0])
    else
      match LastBefore(versions, at.value)
      case Some(v) => Some(v)
      case None => Some(versions[0])
  }

  predicate NumberedAt(versions: seq<Version>, k: nat)
    requires k < |versions|
  {
    && versions[k].number == k + 1
    && (k > 0 ==> versions[k].values != versions[k - 1].values && versions[k - 1].effectiveFrom <= versions[k].effectiveFrom)
  }

  /** Numbered from one, consecutive versions different, in order of time and none in the future. */
  ghost predicate HistorySound(versions: seq<Version>, clock: int) {
    && (forall k: nat :: k < |versions| ==> NumberedAt(versions, k))
    && (versions != [] ==> versions[|versions| - 1].effectiveFrom <= clock)
  }

  lemma SaveKeepsHistory(p: PartRecord, values: Values, clock: int, now: int)
    requires HistorySound(p.versions, clock) && clock <= now
    ensures HistorySound(Save(p, values, now).versions, now)
  {
    var after := Save(p, values, now).versions;
    forall k: nat | k < |after| ensures NumberedAt(after, k) {
      if k < |p.versions| {
        assert NumberedAt(p.versions, k);
      } else if k > 0 {
        assert NumberedAt(p.versions, k - 1);
      }
    }
  }

  lemma {:induction false} LaterVersionsDoNotMatter(versions: seq<Version>, later: seq<Version>, at: int)
    requires forall k :: 0 <= k < |later| ==> at < later[k].effectiveFrom
    ensures LastBefore(versions + later, at) == LastBefore(versions, at)
  {
    if later == [] {
      assert versions + later == versions;
    } else {
      LaterVersionsDoNotMatter(versions, later[..|later| - 1], at);
      assert (versions + later)[..|versions + later| - 1] == versions + later[..|later| - 1];
    }
  }

  /** A save appends one version from then on, with the next number, unless nothing was ever entered or nothing changed. */
  lemma SaveRecordsIff(p: PartRecord, values: Values, clock: int, now: int)
    requires HistorySound(p.versions, clock)
    ensures var after := Save(p, values, now);
            && after.card == Some(values) && after.defaults == p.defaults
            && if values == Values(None, None, "", p.defaults)
                  || (p.versions != [] && p.versions[|p.versions| - 1].values == values)
               then after.versions == p.versions
               else after.versions == p.versions + [Version(|p.versions| + 1, now, values)]
  {
    if p.versions != [] {
      assert NumberedAt(p.versions, |p.versions| - 1);
    }
  }

  /** Once a version exists, a save never changes what was in force at any earlier moment. */
  lemma SaveKeepsThePast(p: PartRecord, values: Values, now: int, at: Option<int>)
    requires p.versions != [] && (at.Some? ==> at.value < now)
    ensures VersionAt(Save(p, values, now).versions, at) == VersionAt(p.versions, at)
  {
    var after := Save(p, values, now).versions;
    if after != p.versions && at.Some? {
      LaterVersionsDoNotMatter(p.versions, [after[|p.versions|]], at.value);
    }
  }

  datatype Edit = Edit(values: Values, now: int)

  predicate InOrder(clock: int, edits: seq<Edit>)
    decreases |edits|
  {
    edits != [] ==> clock <= edits[0].now && InOrder(edits[0].now, edits[1..])
  }

  function SaveAll(p: PartRecord, edits: seq<Edit>): PartRecord
    decreases |edits|
  {
    if edits == [] then p else SaveAll(Save(p, edits[0].values, edits[0].now), edits[1..])
  }

  function ClockAfter(clock: int, edits: seq<Edit>): int
    decreases |edits|
  {
    if edits == [] then clock else ClockAfter(edits[0].now, edits[1..])
  }

  lemma {:induction false} EditsKeepHistory(p: PartRecord, edits: seq<Edit>, clock: int)
    requires HistorySound(p.versions, clock) && InOrder(clock, edits)
    ensures HistorySound(SaveAll(p, edits).versions, ClockAfter(clock, edits))
    decreases |edits|
  {
    if edits != [] {
      SaveKeepsHistory(p, edits[0].values, clock, edits[0].now);
      EditsKeepHistory(Save(p, edits[0].values, edits[0].now), edits[1..], edits[0].now);
    }
  }

  /** Over any later edits, what was in force at a moment already past stays in force there. */
  lemma {:induction false} EditsKeepThePast(p: PartRecord, edits: seq<Edit>, clock: int, at: int)
    requires p.versions != [] && at < clock && InOrder(clock, edits)
    ensures VersionAt(SaveAll(p, edits).versions, Some(at)) == VersionAt(p.versions, Some(at))
    decreases |edits|
  {
    if edits != [] {
      SaveKeepsThePast(p, edits[0].values, edits[0].now, Some(at));
      EditsKeepThePast(Save(p, edits[0].values, edits[0].now), edits[1..], edits[0].now, at);
    }
  }

  /** The version in force is the newest one that has begun. */
  lemma {:induction false} InForceIsNewestBegun(versions: seq<Version>, clock: int, at: int, k: nat)
    requires HistorySound(versions, clock) && k < |versions| && versions[k].effectiveFrom <= at
    requires k == |versions| - 1 || at < versions[k + 1].effectiveFrom
    ensures VersionAt(versions, Some(at)) == Some(versions[k])
  {
    if k < |versions| - 1 {
      var rest := versions[k + 1..];
      forall j | 0 <= j < |rest| ensures at < rest[j].effectiveFrom {
        InTimeOrder(versions, clock, k + 1, k + 1 + j);
      }
      LaterVersionsDoNotMatter(versions[..k + 1], rest, at);
      assert versions[..k + 1] + rest == versions;
    }
  }

  lemma {:induction false} InTimeOrder(versions: seq<Version>, clock: int, i: nat, j: nat)
    requires HistorySound(versions, clock) && i <= j < |versions|
    ensures versions[i].effectiveFrom <= versions[j].effectiveFrom
  {
    if i < j {
      InTimeOrder(versions, clock, i, j - 1);
      assert NumberedAt(versions, j);
    }
  }

  // ---------------------------------------------------------------- remembering what the cart shows

  /** A field of a cart row: left alone, or typed in (possibly cleared). */
  datatype Typed<T> = Keep | Set(value: T)

  datatype Pending = Pending(gross: Typed<Option<int>>, net: Typed<Option<int>>, area: Typed<string>)

  const NOTHING_TYPED := Pending(Keep, Keep, Keep)

  function Chosen<T>(typed: Typed<T>, remembered: T): T {
    match typed
    case Keep => remembered
    case Set(value) => value
  }

  /** What the cart shows for a part, and what will be remembered. */
  function Effective(p: PartRecord, pending: Pending): Values {
    var remembered := Read(p);
    remembered.(gross := Chosen(pending.gross, remembered.gross),
                net := Chosen(pending.net, remembered.net),
                area := Chosen(pending.area, remembered.area))
  }

  function Remember(p: PartRecord, pending: Pending, now: int): PartRecord {
    var values := Effective(p, pending);
    var created := if p.card.None? then Save(p, Untouched(p.defaults), now) else p;
    if values == Read(created) then created else Save(created, values, now)
  }

  const SNOWMOBILE := "СНЕГОХОД"
  const ATV := "КВАДРОЦИКЛ"
  const WATERCRAFT := "ГИДРОЦИКЛ"
  const OUTBOARD_MOTOR := "ЛОДОЧНЫЙ МОТОР"
  const BOAT_CRAFT := "КАТЕР"

  predicate IsQuickActionArea(area: string) {
    area in {SNOWMOBILE, ATV, WATERCRAFT, OUTBOARD_MOTOR, BOAT_CRAFT}
  }

  /** Both weights known and ordered, and an approved application area. */
  predicate Complete(values: Values) {
    values.gross.Some? && values.net.Some? && values.gross.value >= values.net.value && IsQuickActionArea(values.area)
  }

  predicate SameShown(a: Values, b: Values) {
    a.gross == b.gross && a.net == b.net && a.area == b.area
  }

  /** A card somebody filled in is what its newest version says. Every save keeps this. */
  predicate CardInSync(p: PartRecord) {
    p.card.Some? && p.card.value.gross.Some? ==>
      p.versions != [] && p.versions[|p.versions| - 1].values == p.card.value
  }

  lemma SaveSyncs(p: PartRecord, values: Values, now: int)
    ensures CardInSync(Save(p, values, now))
  {
  }

  lemma RememberKeeps(p: PartRecord, pending: Pending, clock: int, now: int)
    requires HistorySound(p.versions, clock) && clock <= now
    ensures HistorySound(Remember(p, pending, now).versions, now)
    ensures CardInSync(p) ==> CardInSync(Remember(p, pending, now))
    ensures SameShown(Read(Remember(p, pending, now)), Effective(p, pending))
  {
    if p.card.None? {
      SaveKeepsHistory(p, Untouched(p.defaults), clock, now);
      SaveKeepsHistory(Save(p, Untouched(p.defaults), now), Effective(p, pending), now, now);
    } else {
      SaveKeepsHistory(p, Effective(p, pending), clock, now);
    }
  }

  /** What is remembered is a card with exactly what the cart showed, also for a part that had none. */
  lemma RememberedIsTheCard(p: PartRecord, pending: Pending, now: int)
    ensures var after, values := Remember(p, pending, now), Effective(p, pending);
            && after.card == Some(values) && after.defaults == p.defaults && p.versions <= after.versions
            && values.facts == Read(p).facts
            && (pending.gross.Set? ==> values.gross == pending.gross.value) && (pending.gross.Keep? ==> values.gross == Read(p).gross)
            && (pending.net.Set? ==> values.net == pending.net.value) && (pending.net.Keep? ==> values.net == Read(p).net)
            && (pending.area.Set? ==> values.area == pending.area.value) && (pending.area.Keep? ==> values.area == Read(p).area)
  {
  }

  /**
   After remembering complete values, the version in force from now on holds exactly what the cart
   showed, if and only if something on the card had to change or its newest version says so already.
   */
  lemma InForceIsShownIff(p: PartRecord, pending: Pending, clock: int, now: int, at: int)
    requires HistorySound(p.versions, clock) && clock <= now <= at
    requires Complete(Effective(p, pending))
    ensures var after := Remember(p, pending, now);
            var inForce := VersionAt(after.versions, Some(at));
            inForce.Some? && SameShown(inForce.value.values, Effective(p, pending)) <==>
            || Effective(p, pending) != Read(p)
            || (p.versions != [] && SameShown(p.versions[|p.versions| - 1].values, Effective(p, pending)))
  {
    var after := Remember(p, pending, now);
    RememberKeeps(p, pending, clock, now);
    if after.versions != [] {
      InForceIsNewestBegun(after.versions, now, at, |after.versions| - 1);
    }
  }

  /** So it always does for a card that was only ever saved. */
  lemma InForceIsShown(p: PartRecord, pending: Pending, clock: int, now: int, at: int)
    requires HistorySound(p.versions, clock) && clock <= now <= at
    requires CardInSync(p) && Complete(Effective(p, pending))
    ensures var inForce := VersionAt(Remember(p, pending, now).versions, Some(at));
            inForce.Some? && SameShown(inForce.value.values, Effective(p, pending))
  {
    InForceIsShownIff(p, pending, clock, now, at);
  }

  // ---------------------------------------------------------------- the stored card

  class CustomsCard {
    var card: Option<Values>
    var versions: seq<Version>
    const defaults: Facts

    constructor (p: PartRecord)
      ensures Stored() == p
    {
      card, versions, defaults := p.card, p.versions, p.defaults;
    }

    function Stored(): PartRecord
      reads this
    {
      PartRecord(card, versions, defaults)
    }

    /** record_customs_data_version for a card with the given field values. */
    method RecordVersion(values: Values, now: int)
      modifies this`versions
      ensures versions == Record(old(Stored()), values, now)
    {
      if values == Untouched(defaults) {
        return;
      }
      if versions == [] {
        versions := [Version(1, now, values)];
      } else {
        var previous := versions[|versions| - 1];
        if previous.values != values {
          versions := versions + [Version(previous.number + 1, now, values)];
        }
      }
    }

    /** Saving fires the signal, and the caller records once more. */
    method SaveCard(values: Values, now: int)
      modifies this
      ensures Stored() == Save(old(Stored()), values, now)
    {
      card := Some(values);
      RecordVersion(values, now);
      RecordVersion(values, now);
    }

    method RememberMetadata(pending: Pending, now: int)
      modifies this
      ensures Stored() == Remember(old(Stored()), pending, now)
    {
      var values := Effective(Stored(), pending);
      if card.None? {
        SaveCard(Untouched(defaults), now);
      }
      if values != card.value {
        SaveCard(values, now);
      }
    }
  }
}

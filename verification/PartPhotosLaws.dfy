/** Replacement of a photo, runs of any operations, and what the public page shows. */
module PartPhotosLaws {
  import opened Basics
  import opened Ordering
  import opened PartPhotos
  import opened PartPhotosRuns

  // ---------------------------------------------------------------- replacement keeps the invariant

  predicate CanReplace(p: Photos, target: nat) {
    target < |p.images| && p.images[target].active
  }

  function Slot(p: Photos, target: nat): (slot: nat)
    requires ImagesSound(p.images) && CanReplace(p, target)
    ensures slot < |Gallery(p.images)| && Pks(Gallery(p.images))[slot] == target
    ensures PlaceIn(Pks(Gallery(p.images)), target) == Some(slot)
  {
    GalleryPks(p.images);
    PlaceIn(Pks(Gallery(p.images)), target).value
  }

  /** The order of the card with the new photo in the target's place. */
  function NewOrder(p: Photos, target: nat): seq<nat>
    requires ImagesSound(p.images) && CanReplace(p, target)
  {
    Pks(Gallery(p.images))[Slot(p, target) := |p.images|]
  }

  lemma NewOrderMembers(p: Photos, target: nat)
    requires ImagesSound(p.images) && CanReplace(p, target)
    ensures NoRepeats(NewOrder(p, target))
    ensures forall pk: nat :: pk in NewOrder(p, target) <==> pk == |p.images| || (pk < |p.images| && pk != target && p.images[pk].active)
  {
    var pks, slot := Pks(Gallery(p.images)), Slot(p, target);
    var order := NewOrder(p, target);
    GalleryPks(p.images);
    assert pks[slot] == target;
    forall i: nat, j: nat | i < j < |order| ensures order[i] != order[j] {
      assert pks[i] != pks[j] && pks[i] in pks && pks[j] in pks;
    }
    forall pk: nat ensures pk in order <==> pk == |p.images| || (pk < |p.images| && pk != target && p.images[pk].active) {
      if pk in order {
        var k: nat :| k < |order| && order[k] == pk;
        if k != slot {
          assert pks[k] == pk && pk in pks;
          assert k < slot ==> pks[k] != pks[slot];
        }
      }
      if pk == |p.images| {
        assert order[slot] == pk;
      }
      if pk < |p.images| && pk != target && p.images[pk].active {
        var k: nat :| k < |pks| && pks[k] == pk;
        assert order[k] == pk;
      }
    }
  }

  lemma PreparedIs(p: Photos, target: nat, at: int)
    requires Sound(p) && CanReplace(p, target)
    ensures var after := Prepared(p, target, Slot(p, target), at);
      && |after.images| == |p.images| + 1 && |after.decisions| == |p.decisions|
      && (forall k: nat :: k < |p.images| ==>
           && after.images[k].pk == k && after.images[k].active == p.images[k].active
           && after.images[k].primary == (p.images[k].primary && k != target))
      && after.images[|p.images|].pk == |p.images| && after.images[|p.images|].active
      && after.images[|p.images|].primary == p.images[target].primary
      && (forall k: nat :: k < |p.decisions| ==>
           after.decisions[k] == p.decisions[k].(sortOrder := after.decisions[k].sortOrder))
  {
    forall k: nat | k < |p.images| ensures p.images[k].pk == k {
      assert ImageAt(p.images, k);
    }
  }

  lemma PreparedImagesSound(p: Photos, target: nat, at: int)
    requires Sound(p) && CanReplace(p, target)
    ensures ImagesSound(Prepared(p, target, Slot(p, target), at).images)
  {
    var images := Prepared(p, target, Slot(p, target), at).images;
    PreparedIs(p, target, at);
    forall k: nat | k < |images| ensures ImageAt(images, k) {
      if k < |p.images| { assert ImageAt(p.images, k); }
    }
    forall i: nat, j: nat | i < j < |images| ensures !BothPrimary(images, i, j) {
      if j < |p.images| {
        assert !BothPrimary(p.images, i, j);
      } else {
        assert i < target ==> !BothPrimary(p.images, i, target);
        assert target < i ==> !BothPrimary(p.images, target, i);
      }
    }
  }

  lemma PreparedDecisionsSound(p: Photos, target: nat, at: int)
    requires Sound(p) && CanReplace(p, target)
    ensures var after := Prepared(p, target, Slot(p, target), at);
      Consistent(after.decisions) && Backed(after.images, after.decisions)
  {
    var after := Prepared(p, target, Slot(p, target), at);
    PreparedIs(p, target, at);
    forall k: nat | k < |after.decisions| ensures DecisionAt(after.decisions, k) {
      assert DecisionAt(p.decisions, k);
    }
    forall i: nat, j: nat | i < j < |after.decisions| ensures Apart(after.decisions, i, j) {
      assert Apart(p.decisions, i, j);
    }
    SameCount(p.decisions, after.decisions);
    forall k: nat | k < |after.decisions| ensures SourceAt(after.images, after.decisions, k) {
      assert SourceAt(p.images, p.decisions, k);
      assert ImageAt(p.images, p.decisions[k].image);
    }
  }

  /** Taking down an image nothing published stands on. */
  lemma RetiredIsSound(p: Photos, target: nat)
    requires Sound(p) && target < |p.images| && !IsPublic(p, target)
    ensures Sound(Retired(p, target))
  {
    var after := Retired(p, target);
    forall k: nat | k < |after.images| ensures ImageAt(after.images, k) {
      assert ImageAt(p.images, k);
    }
    forall i: nat, j: nat | i < j < |after.images| ensures !BothPrimary(after.images, i, j) {
      assert !BothPrimary(p.images, i, j);
    }
    forall k: nat | k < |after.decisions| ensures SourceAt(after.images, after.decisions, k) {
      assert SourceAt(p.images, p.decisions, k);
      var at := DecisionOn(p.decisions, target);
      if p.decisions[k].image == target && at.Some? {
        OneDecision(p.decisions, k, at.value);
      }
    }
  }

  /** Publication of one image leaves alone whether another is public. */
  lemma OthersStayAsTheyAre(p: Photos, image: nat, readable: bool, other: nat)
    requires Consistent(p.decisions) && other != image && Publish(p, image, readable).Ok?
    requires Consistent(Publish(p, image, readable).value.decisions)
    ensures IsPublic(Publish(p, image, readable).value, other) == IsPublic(p, other)
  {
    var after := Publish(p, image, readable).value.decisions;
    var before, found := DecisionOn(p.decisions, other), DecisionOn(after, other);
    assert forall k: nat :: k < |p.decisions| ==> after[k].image == p.decisions[k].image;
    assert forall k: nat :: k < |p.decisions| && p.decisions[k].image != image ==> after[k].published == p.decisions[k].published;
    if before.Some? && found.Some? {
      OneDecision(after, before.value, found.value);
    }
  }

  lemma TakingOverKeepsSound(p: Photos, image: nat, other: nat)
    requires Sound(p) && IsPublic(p, image)
    ensures Sound(TakeOverPrimary(p, image))
    ensures IsPublic(TakeOverPrimary(p, image), other) == IsPublic(p, other)
    ensures IsPublicPrimary(TakeOverPrimary(p, image), image)
  {
    var at := DecisionOn(p.decisions, image).value;
    var after := MadePrimary(p.decisions, at);
    MadePrimaryIsSound(p.images, p.decisions, at);
    SameDecisionOn(p.decisions, after, other);
    SameDecisionOn(p.decisions, after, image);
  }

  lemma {:induction false} SameDecisionOn(a: seq<Decision>, b: seq<Decision>, image: nat)
    requires |a| == |b| && forall k :: 0 <= k < |a| ==> a[k].image == b[k].image
    ensures DecisionOn(a, image) == DecisionOn(b, image)
  {
    if a != [] {
      SameDecisionOn(a[..|a| - 1], b[..|b| - 1], image);
    }
  }

  lemma PublicAt(p: Photos, image: nat, at: nat)
    requires Consistent(p.decisions) && at < |p.decisions| && p.decisions[at].image == image && p.decisions[at].published
    ensures IsPublic(p, image)
  {
    var found := DecisionOn(p.decisions, image);
    assert found.Some?;
    OneDecision(p.decisions, at, found.value);
  }

  /** A publication leaves the decision of its image published, wherever that stands. */
  lemma PublishedAt(p: Photos, image: nat, readable: bool) returns (at: nat)
    requires Publish(p, image, readable).Ok?
    ensures var after := Publish(p, image, readable).value.decisions;
      at < |after| && after[at].image == image && after[at].published
  {
    var before := DecisionOn(p.decisions, image);
    var confirmed := Confirmed(p.decisions, before, image, p.images[image].sortOrder);
    at := if before.Some? then before.value else |p.decisions|;
    assert confirmed[at].image == image && confirmed[at].published;
    PromotionKeeps(confirmed, at);
  }

  lemma PromotionKeeps(decisions: seq<Decision>, at: nat)
    requires at < |decisions|
    ensures |PromoteNext(decisions)| == |decisions|
    ensures PromoteNext(decisions)[at].image == decisions[at].image && PromoteNext(decisions)[at].published == decisions[at].published
  {
  }

  lemma PublishedIsPublic(p: Photos, image: nat, readable: bool)
    requires Publish(p, image, readable).Ok? && Consistent(Publish(p, image, readable).value.decisions)
    ensures IsPublic(Publish(p, image, readable).value, image)
  {
    var at := PublishedAt(p, image, readable);
    PublicAt(Publish(p, image, readable).value, image, at);
  }

  lemma TargetIsAtItsSlot(p: Photos, target: nat, upload: Upload)
    requires Sound(p) && Replace(p, target, upload).Ok?
    ensures CanReplace(p, target)
  {
    GalleryPks(p.images);
  }

  /** The replacement is published beside its target; whether the target is public has not changed. */
  lemma PublishStage(p: Photos, target: nat, upload: Upload)
    requires Sound(p) && CanReplace(p, target)
    requires Publish(Prepared(p, target, Slot(p, target), upload.at), |p.images|, upload.readable).Ok?
    ensures var published := Publish(Prepared(p, target, Slot(p, target), upload.at), |p.images|, upload.readable).value;
      Sound(published) && IsPublic(published, target) == IsPublic(p, target) && IsPublic(published, |p.images|)
  {
    var prepared, image := Prepared(p, target, Slot(p, target), upload.at), |p.images|;
    PreparedImagesSound(p, target, upload.at);
    PreparedDecisionsSound(p, target, upload.at);
    PublishKeepsSound(prepared, image, upload.readable);
    OthersStayAsTheyAre(prepared, image, upload.readable, target);
    PreparedIs(p, target, upload.at);
    SameDecisionOn(p.decisions, prepared.decisions, target);
    PublishedIsPublic(prepared, image, upload.readable);
  }

  function Leading(p: Photos, target: nat, published: Photos): Photos {
    if IsPublicPrimary(p, target) then TakeOverPrimary(published, |p.images|) else published
  }

  function Withdrawing(p: Photos, target: nat, led: Photos): Photos
    requires target < |led.images|
  {
    if IsPublic(p, target) then Reject(led, target).value else led
  }

  lemma WithdrawStage(p: Photos, target: nat, published: Photos)
    requires Sound(published) && target < |published.images| && IsPublic(published, |p.images|)
    requires IsPublic(published, target) == IsPublic(p, target)
    ensures var withdrawn := Withdrawing(p, target, Leading(p, target, published));
      Sound(withdrawn) && !IsPublic(withdrawn, target) && withdrawn.images == published.images
  {
    if IsPublicPrimary(p, target) {
      TakingOverKeepsSound(published, |p.images|, target);
    }
    if IsPublic(p, target) {
      var led := Leading(p, target, published);
      forall k: nat | k < |led.decisions| ensures led.decisions[k].image < |led.images| && SourceAt(led.images, led.decisions, k) {
        assert SourceAt(led.images, led.decisions, k);
      }
      RejectKeepsSound(led, target);
    }
  }

  /** What a successful replacement leaves, taken apart. */
  lemma ReplacementStages(p: Photos, target: nat, upload: Upload) returns (withdrawn: Photos)
    requires Sound(p) && Replace(p, target, upload).Ok?
    ensures CanReplace(p, target)
    ensures Sound(withdrawn) && !IsPublic(withdrawn, target)
    ensures withdrawn.images == Prepared(p, target, Slot(p, target), upload.at).images
    ensures target < |withdrawn.images| && Replace(p, target, upload) == Ok(Retired(withdrawn, target))
  {
    TargetIsAtItsSlot(p, target, upload);
    PublishStage(p, target, upload);
    var published := Publish(Prepared(p, target, Slot(p, target), upload.at), |p.images|, upload.readable).value;
    WithdrawStage(p, target, published);
    withdrawn := Withdrawing(p, target, Leading(p, target, published));
  }

  lemma ReplaceKeepsSound(p: Photos, target: nat, upload: Upload)
    requires Sound(p) && Replace(p, target, upload).Ok?
    ensures Sound(Replace(p, target, upload).value)
  {
    var withdrawn := ReplacementStages(p, target, upload);
    RetiredIsSound(withdrawn, target);
  }

  // ---------------------------------------------------------------- replacement keeps the order

  /** The images a successful replacement leaves. */
  function FinalImages(p: Photos, target: nat, at: int): seq<Image>
    requires Sound(p) && CanReplace(p, target)
  {
    var images := Prepared(p, target, Slot(p, target), at).images;
    images[target := images[target].(active := false, primary := false)]
  }

  lemma ReplacementLeaves(p: Photos, target: nat, upload: Upload)
    requires Sound(p) && Replace(p, target, upload).Ok?
    ensures CanReplace(p, target) && Replace(p, target, upload).value.images == FinalImages(p, target, upload.at)
  {
    var withdrawn := ReplacementStages(p, target, upload);
  }

  lemma FinalActive(p: Photos, target: nat, at: int, k: nat)
    requires Sound(p) && CanReplace(p, target) && k < |FinalImages(p, target, at)|
    ensures FinalImages(p, target, at)[k].pk == k
    ensures FinalImages(p, target, at)[k].active <==> k in NewOrder(p, target)
  {
    PreparedIs(p, target, at);
    NewOrderMembers(p, target);
  }

  lemma FinalPosition(p: Photos, target: nat, at: int, j: nat)
    requires Sound(p) && CanReplace(p, target) && j < |NewOrder(p, target)|
    ensures NewOrder(p, target)[j] < |FinalImages(p, target, at)|
    ensures FinalImages(p, target, at)[NewOrder(p, target)[j]].sortOrder == j
  {
    var order := NewOrder(p, target);
    PreparedIs(p, target, at);
    NewOrderMembers(p, target);
    assert order[j] in order;
    assert PlaceIn(order, order[j]) == Some(j);
  }

  /** The replacement is the main image if its target was; every other image keeps its flag. */
  lemma ReplaceKeepsTheMainImage(p: Photos, target: nat, upload: Upload)
    requires Sound(p) && Replace(p, target, upload).Ok?
    ensures CanReplace(p, target)
    ensures var images := Replace(p, target, upload).value.images;
      && |images| == |p.images| + 1 && images[|p.images|].primary == p.images[target].primary
      && (forall k: nat :: k < |p.images| && k != target ==> images[k].primary == p.images[k].primary)
  {
    ReplacementLeaves(p, target, upload);
    PreparedIs(p, target, upload.at);
  }

  /** The active images in the new order. */
  function Listed(p: Photos, target: nat, at: int): (listed: seq<Image>)
    requires Sound(p) && CanReplace(p, target)
  {
    var images, order := FinalImages(p, target, at), NewOrder(p, target);
    seq(|order|, j requires 0 <= j < |order| => if order[j] < |images| then images[order[j]] else images[0])
  }

  lemma ListedAt(p: Photos, target: nat, at: int, j: nat)
    requires Sound(p) && CanReplace(p, target) && j < |NewOrder(p, target)|
    ensures var image, images := Listed(p, target, at)[j], FinalImages(p, target, at);
      image in images && image.active && image.pk == NewOrder(p, target)[j] && image.sortOrder == j
  {
    FinalPosition(p, target, at, j);
    FinalActive(p, target, at, NewOrder(p, target)[j]);
    assert NewOrder(p, target)[j] in NewOrder(p, target);
  }

  lemma ListedMember(p: Photos, target: nat, at: int, image: Image)
    requires Sound(p) && CanReplace(p, target) && ImagesSound(FinalImages(p, target, at))
    ensures image in Listed(p, target, at) <==> image in FinalImages(p, target, at) && image.active
  {
    var images, order, listed := FinalImages(p, target, at), NewOrder(p, target), Listed(p, target, at);
    if image in listed {
      var j: nat :| j < |listed| && listed[j] == image;
      ListedAt(p, target, at, j);
    }
    if image in images && image.active {
      PkIsPlace(images, image);
      FinalActive(p, target, at, image.pk);
      var j: nat :| j < |order| && order[j] == image.pk;
      assert listed[j] == image;
    }
  }

  /** The card shows the same photos in the same order, with only the target substituted. */
  lemma ReplaceKeepsTheOrder(p: Photos, target: nat, upload: Upload)
    requires Sound(p) && Replace(p, target, upload).Ok?
    ensures CanReplace(p, target)
    ensures Pks(Gallery(Replace(p, target, upload).value.images)) == NewOrder(p, target)
  {
    ReplacementLeaves(p, target, upload);
    ReplaceKeepsSound(p, target, upload);
    var images, listed := FinalImages(p, target, upload.at), Listed(p, target, upload.at);
    forall j: nat | j < |listed| ensures listed[j].sortOrder == j && listed[j].pk == NewOrder(p, target)[j] {
      ListedAt(p, target, upload.at, j);
    }
    forall i, j | 0 <= i < j < |listed| ensures listed[i] != listed[j] {
      assert listed[i].sortOrder != listed[j].sortOrder;
    }
    forall image ensures image in listed <==> image in images && image.active {
      ListedMember(p, target, upload.at, image);
    }
    GalleryIs(images, listed);
  }

  /** Besides a target that is on the card and a readable file, replacement needs a free public place. */
  lemma ReplaceSucceedsIff(p: Photos, target: nat, upload: Upload)
    requires Sound(p)
    ensures Replace(p, target, upload).Ok? <==>
      && upload.knownSource && upload.valid && upload.readable && CanReplace(p, target)
      && |Published(p.decisions)| < MAX_PUBLISHED
  {
    GalleryPks(p.images);
    if CanReplace(p, target) {
      var prepared := Prepared(p, target, Slot(p, target), upload.at);
      PreparedIs(p, target, upload.at);
      SameCount(p.decisions, prepared.decisions);
      forall k: nat | k < |p.decisions| ensures prepared.decisions[k].image != |p.images| {
        assert SourceAt(p.images, p.decisions, k);
      }
    }
  }

  lemma {:induction false} AllPublished(decisions: seq<Decision>)
    requires forall k :: 0 <= k < |decisions| ==> decisions[k].published
    ensures Published(decisions) == decisions
  {
    if decisions != [] {
      AllPublished(decisions[..|decisions| - 1]);
    }
  }

  /**
   Counterexample: the replacement is published before its target is withdrawn, so a part whose public
   page is full cannot have any of its photos replaced.
   */
  lemma FullPageCannotBeReplaced() returns (p: Photos)
    ensures Sound(p) && |Published(p.decisions)| == MAX_PUBLISHED
    ensures CanReplace(p, 3) && IsPublic(p, 3)
    ensures Replace(p, 3, Upload(true, true, true, 100)).Err?
  {
    var images := seq(8, k requires 0 <= k => Image(k, k, k, k == 0, true));
    var decisions := seq(8, k requires 0 <= k => Decision(k, k, true, k == 0, k));
    AllPublished(decisions);
    p := Photos(images, decisions);
    assert decisions[0].published && decisions[0].primary;
    assert decisions[3].image == 3;
    ReplaceSucceedsIff(p, 3, Upload(true, true, true, 100));
  }

  // ---------------------------------------------------------------- the public page

  lemma {:induction false} PublishedMember(decisions: seq<Decision>, d: Decision)
    ensures d in Published(decisions) <==> d in decisions && d.published
  {
    if decisions != [] {
      PublishedMember(decisions[..|decisions| - 1], d);
      assert decisions == decisions[..|decisions| - 1] + [decisions[|decisions| - 1]];
    }
  }

  lemma PageFacts(p: Photos)
    requires Sound(p)
    ensures Ordered(PublicKey, PublicGallery(p.decisions)) && NoRepeats(PublicGallery(p.decisions))
    ensures |PublicGallery(p.decisions)| <= MAX_PUBLISHED
    ensures forall d :: d in PublicGallery(p.decisions) <==> d in p.decisions && d.published
  {
    var page, published := PublicGallery(p.decisions), Published(p.decisions);
    SortPermutes(PublicKey, published);
    SortOrders(PublicKey, published);
    PublishedDoNotRepeat(p.decisions);
    PermutationKeepsDistinct(published, page);
    forall d ensures d in page <==> d in p.decisions && d.published {
      SortKeepsMembers(PublicKey, published, d);
      PublishedMember(p.decisions, d);
    }
  }

  lemma OnlyTheFirstLeads(p: Photos, page: seq<Decision>, k: nat)
    requires Consistent(p.decisions) && Ordered(PublicKey, page) && NoRepeats(page)
    requires forall d :: d in page ==> d in p.decisions
    requires 0 < k < |page|
    ensures !page[k].primary
  {
    if page[k].primary {
      assert !Before(PublicKey(page[k]), PublicKey(page[0]));
      assert page[0] in page && page[k] in page;
      OnePrimary(p.decisions, page[0], page[k]);
    }
  }

  /** The page shows every published photo, at most eight, the primary one first and the others in the order of the card. */
  lemma PublicPage(p: Photos)
    requires Sound(p)
    ensures var page := PublicGallery(p.decisions);
      && |page| <= MAX_PUBLISHED
      && (forall d :: d in page <==> d in p.decisions && d.published)
      && (page != [] ==> page[0].primary)
      && (forall k :: 0 < k < |page| ==> !page[k].primary)
      && (forall i, j :: 0 < i < j < |page| ==> page[i].sortOrder <= page[j].sortOrder)
  {
    var page := PublicGallery(p.decisions);
    PageFacts(p);
    forall k | 0 < k < |page| ensures !page[k].primary {
      OnlyTheFirstLeads(p, page, k);
    }
    forall i, j | 0 < i < j < |page| ensures page[i].sortOrder <= page[j].sortOrder {
      assert !Before(PublicKey(page[j]), PublicKey(page[i]));
    }
    if page != [] {
      assert page[0] in page;
      PublishedMember(p.decisions, page[0]);
      var k :| 0 <= k < |p.decisions| && p.decisions[k].published && p.decisions[k].primary;
      assert p.decisions[k] in page;
    }
  }

  lemma OnePrimary(decisions: seq<Decision>, a: Decision, b: Decision)
    requires Consistent(decisions) && a in decisions && b in decisions && a.primary && b.primary
    ensures a == b
  {
    var i: nat :| i < |decisions| && decisions[i] == a;
    var j: nat :| j < |decisions| && decisions[j] == b;
    assert i < j ==> Apart(decisions, i, j);
    assert j < i ==> Apart(decisions, j, i);
  }

  lemma {:induction false} PublishedDoNotRepeat(decisions: seq<Decision>)
    requires forall k: nat :: k < |decisions| ==> DecisionAt(decisions, k)
    ensures NoRepeats(Published(decisions))
  {
    if decisions != [] {
      var before := decisions[..|decisions| - 1];
      forall k: nat | k < |before| ensures DecisionAt(before, k) && before[k] != decisions[|before|] {
        assert DecisionAt(decisions, k) && DecisionAt(decisions, |before|);
      }
      PublishedDoNotRepeat(before);
      PublishedMember(before, decisions[|before|]);
    }
  }

  /** Everything on the page stands before a photo whose sort order is the next one. */
  lemma PageStandsBefore(p: Photos, d: Decision)
    requires Sound(p) && d in PublicGallery(p.decisions)
    ensures d.sortOrder < NextSortOrder(Active(p.images)) && d.pk < |p.decisions|
  {
    PageFacts(p);
    var k: nat :| k < |p.decisions| && p.decisions[k] == d;
    assert SourceAt(p.images, p.decisions, k) && DecisionAt(p.decisions, k);
    ActiveMember(p.images, p.images[d.image]);
  }

  lemma AddedIsSortedLast(published: seq<Decision>, added: Decision)
    requires var page := Sort(PublicKey, published); page != [] ==> !Before(PublicKey(added), PublicKey(page[|page| - 1]))
    ensures Sort(PublicKey, published + [added]) == Sort(PublicKey, published) + [added]
  {
    assert (published + [added])[..|published|] == published;
  }

  /** A photo added to a page that already shows something is shown behind all the others. */
  lemma AppendedPhotoIsLastOnThePage(p: Photos, upload: Upload)
    requires Sound(p) && UploadAdditional(p, upload).Ok? && Published(p.decisions) != []
    ensures PublicGallery(UploadAdditional(p, upload).value.decisions)
      == PublicGallery(p.decisions) + [Decision(|p.decisions|, |p.images|, true, false, NextSortOrder(Active(p.images)))]
  {
    var added := Decision(|p.decisions|, |p.images|, true, false, NextSortOrder(Active(p.images)));
    AppendedDecision(p, upload, added);
    PublishedAppend(p.decisions, added);
    var page := PublicGallery(p.decisions);
    if page != [] {
      PageStandsBefore(p, page[|page| - 1]);
    }
    AddedIsSortedLast(Published(p.decisions), added);
  }

  lemma AppendedDecision(p: Photos, upload: Upload, added: Decision)
    requires Sound(p) && UploadAdditional(p, upload).Ok? && Published(p.decisions) != []
    requires added == Decision(|p.decisions|, |p.images|, true, false, NextSortOrder(Active(p.images)))
    ensures UploadAdditional(p, upload).value.decisions == p.decisions + [added]
  {
    forall k: nat | k < |p.decisions| ensures p.decisions[k].image < |p.images| {
      assert SourceAt(p.images, p.decisions, k);
    }
    assert HasPrimary(p.decisions + [added]) by {
      var k :| 0 <= k < |p.decisions| && p.decisions[k].published && p.decisions[k].primary;
      assert (p.decisions + [added])[k].primary;
    }
  }

  /** The replacement of the leading photo leads the page, and its target is no longer public. */
  lemma ReplacementTakesOverThePage(p: Photos, target: nat, upload: Upload)
    requires Sound(p) && Replace(p, target, upload).Ok?
    requires IsPublicPrimary(p, target)
    ensures IsPublicPrimary(Replace(p, target, upload).value, |p.images|)
    ensures !IsPublic(Replace(p, target, upload).value, target)
  {
    TargetIsAtItsSlot(p, target, upload);
    PublishStage(p, target, upload);
    var published := Publish(Prepared(p, target, Slot(p, target), upload.at), |p.images|, upload.readable).value;
    WithdrawStage(p, target, published);
    var led := TakeOverPrimary(published, |p.images|);
    TakingOverKeepsSound(published, |p.images|, target);
    RejectingAnotherKeepsThePrimary(led, target, |p.images|);
  }

  lemma RejectingAnotherKeepsThePrimary(p: Photos, image: nat, leader: nat)
    requires Consistent(p.decisions) && image != leader && image < |p.images| && IsPublicPrimary(p, leader)
    ensures IsPublicPrimary(Reject(p, image).value, leader)
  {
    var at := DecisionOn(p.decisions, image);
    var withheld := Withheld(p.decisions, at, image);
    var place := DecisionOn(p.decisions, leader).value;
    assert withheld[place].published && withheld[place].primary && withheld[place].image == leader;
    assert HasPrimary(withheld);
    WithheldStaysConsistent(p, image);
    OneDecision(withheld, place, DecisionOn(withheld, leader).value);
  }

  // ---------------------------------------------------------------- runs

  datatype Operation =
    | UploadFirst(upload: Upload)
    | UploadNext(upload: Upload)
    | ReplaceWith(target: nat, upload: Upload)
    | AddInternal(at: int)
    | MakeMain(image: nat)
    | DeleteImage(image: nat)
    | PublishImage(image: nat, readable: bool)
    | RejectImage(image: nat)
    | MakePublicPrimary(decision: nat)

  function Attempt(p: Photos, operation: Operation): Result<Photos, Refusal> {
    match operation
    case UploadFirst(upload) => UploadPrimary(p, upload)
    case UploadNext(upload) => UploadAdditional(p, upload)
    case ReplaceWith(target, upload) => Replace(p, target, upload)
    case AddInternal(at) => Ok(AddImage(p, at))
    case MakeMain(image) => SetPrimary(p, image)
    case DeleteImage(image) => Delete(p, image)
    case PublishImage(image, readable) => Publish(p, image, readable)
    case RejectImage(image) => Reject(p, image)
    case MakePublicPrimary(decision) => SetPublicPrimary(p, decision)
  }

  /** A refused operation is rolled back. */
  function Step(p: Photos, operation: Operation): Photos {
    match Attempt(p, operation)
    case Ok(after) => after
    case Err(_) => p
  }

  function Run(p: Photos, operations: seq<Operation>): Photos {
    if operations == [] then p else Step(Run(p, operations[..|operations| - 1]), operations[|operations| - 1])
  }

  lemma StepKeepsSound(p: Photos, operation: Operation)
    requires Sound(p)
    ensures Sound(Step(p, operation))
  {
    if Attempt(p, operation).Ok? {
      match operation
      case UploadFirst(upload) => UploadPrimaryKeepsSound(p, upload);
      case UploadNext(upload) => UploadAdditionalKeepsSound(p, upload);
      case ReplaceWith(target, upload) => ReplaceKeepsSound(p, target, upload);
      case AddInternal(at) => AddedImageIsSound(p, Image(|p.images|, at, 0, Active(p.images) == [], true));
      case MakeMain(image) => SetPrimaryKeepsSound(p, image);
      case DeleteImage(image) => DeleteKeepsSound(p, image);
      case PublishImage(image, readable) => PublishKeepsSound(p, image, readable);
      case RejectImage(image) => AnyRejectionKeepsSound(p, image);
      case MakePublicPrimary(decision) =>
        if p.decisions[decision].published {
          MadePrimaryIsSound(p.images, p.decisions, decision);
        }
    }
  }

  lemma AnyRejectionKeepsSound(p: Photos, image: nat)
    requires Sound(p) && image < |p.images|
    ensures Sound(Reject(p, image).value)
  {
    forall k: nat | k < |p.decisions| ensures p.decisions[k].image < |p.images| && SourceAt(p.images, p.decisions, k) {
      assert SourceAt(p.images, p.decisions, k);
    }
    RejectKeepsSound(p, image);
  }

  /**
   After any run of uploads, replacements, deletions and decisions: at most eight published photos, one
   public primary if and only if any is published, at most one main image, and no public copy that
   outlives its source.
   */
  lemma {:induction false} RunKeepsSound(operations: seq<Operation>)
    ensures Sound(Run(Photos([], []), operations))
  {
    if operations != [] {
      RunKeepsSound(operations[..|operations| - 1]);
      StepKeepsSound(Run(Photos([], []), operations[..|operations| - 1]), operations[|operations| - 1]);
    }
  }
}

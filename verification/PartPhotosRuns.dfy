/** What every operation on the photos of a part keeps, over any run. */
module PartPhotosRuns {
  import opened Ordering
  import opened PartPhotos

  // ---------------------------------------------------------------- the invariant

  predicate ImageAt(images: seq<Image>, k: nat)
    requires k < |images|
  {
    images[k].pk == k && (images[k].primary ==> images[k].active)
  }

  predicate BothPrimary(images: seq<Image>, i: nat, j: nat)
    requires i < |images| && j < |images|
  {
    images[i].primary && images[j].primary
  }

  /** At most one image is the main one, and it is an active one. */
  ghost predicate ImagesSound(images: seq<Image>) {
    && (forall k: nat :: k < |images| ==> ImageAt(images, k))
    && (forall i: nat, j: nat :: i < j < |images| ==> !BothPrimary(images, i, j))
  }

  predicate DecisionAt(decisions: seq<Decision>, k: nat)
    requires k < |decisions|
  {
    decisions[k].pk == k && (decisions[k].primary ==> decisions[k].published)
  }

  predicate Apart(decisions: seq<Decision>, i: nat, j: nat)
    requires i < |decisions| && j < |decisions|
  {
    decisions[i].image != decisions[j].image && !(decisions[i].primary && decisions[j].primary)
  }

  /** One decision on an image, at most one primary, only published ones primary, at most eight published. */
  ghost predicate Consistent(decisions: seq<Decision>) {
    && (forall k: nat :: k < |decisions| ==> DecisionAt(decisions, k))
    && (forall i: nat, j: nat :: i < j < |decisions| ==> Apart(decisions, i, j))
    && |Published(decisions)| <= MAX_PUBLISHED
  }

  lemma OneDecision(decisions: seq<Decision>, i: nat, j: nat)
    requires Consistent(decisions) && i < |decisions| && j < |decisions| && decisions[i].image == decisions[j].image
    ensures i == j
  {
    assert i < j ==> Apart(decisions, i, j);
    assert j < i ==> Apart(decisions, j, i);
  }

  /** Whenever anything is published, one photo is the primary one. */
  ghost predicate Led(decisions: seq<Decision>) {
    Published(decisions) != [] ==> HasPrimary(decisions)
  }

  predicate SourceAt(images: seq<Image>, decisions: seq<Decision>, k: nat)
    requires k < |decisions|
  {
    var d := decisions[k];
    && d.image < |images|
    && (d.published ==> images[d.image].active && d.sortOrder == images[d.image].sortOrder)
  }

  /** What is published has an active source and stands where its source stands. */
  ghost predicate Backed(images: seq<Image>, decisions: seq<Decision>) {
    forall k: nat :: k < |decisions| ==> SourceAt(images, decisions, k)
  }

  ghost predicate Sound(p: Photos) {
    ImagesSound(p.images) && Consistent(p.decisions) && Led(p.decisions) && Backed(p.images, p.decisions)
  }

  // ---------------------------------------------------------------- counting published decisions

  function Weight(d: Decision): nat {
    if d.published then 1 else 0
  }

  lemma {:induction false} PublishedAppend(decisions: seq<Decision>, d: Decision)
    ensures Published(decisions + [d]) == Published(decisions) + (if d.published then [d] else [])
  {
    assert (decisions + [d])[..|decisions|] == decisions;
  }

  lemma {:induction false} PublishedUpdate(decisions: seq<Decision>, at: nat, d: Decision)
    requires at < |decisions|
    ensures |Published(decisions[at := d])| + Weight(decisions[at]) == |Published(decisions)| + Weight(d)
  {
    var updated := decisions[at := d];
    if at == |decisions| - 1 {
      assert updated[..at] == decisions[..at];
    } else {
      PublishedUpdate(decisions[..|decisions| - 1], at, d);
      assert updated[..|updated| - 1] == decisions[..|decisions| - 1][at := d];
    }
  }

  lemma {:induction false} NothingPublished(decisions: seq<Decision>)
    ensures Published(decisions) == [] <==> forall k :: 0 <= k < |decisions| ==> !decisions[k].published
  {
    if decisions != [] {
      var before := decisions[..|decisions| - 1];
      NothingPublished(before);
      if Published(before) != [] {
        var k :| 0 <= k < |before| && before[k].published;
        assert decisions[k].published;
      } else {
        assert forall k :: 0 <= k < |before| ==> decisions[k] == before[k];
      }
    }
  }

  lemma {:induction false} SameCount(a: seq<Decision>, b: seq<Decision>)
    requires |a| == |b| && forall k :: 0 <= k < |a| ==> a[k].published == b[k].published
    ensures |Published(a)| == |Published(b)|
  {
    if a != [] {
      SameCount(a[..|a| - 1], b[..|b| - 1]);
    }
  }

  // ---------------------------------------------------------------- promotion

  lemma PromotionLeads(decisions: seq<Decision>)
    requires Consistent(decisions)
    ensures Consistent(PromoteNext(decisions)) && Led(PromoteNext(decisions))
  {
    var after := PromoteNext(decisions);
    var first := FirstPublished(decisions);
    NothingPublished(decisions);
    if !HasPrimary(decisions) && first.Some? {
      forall k: nat | k < |after| ensures DecisionAt(after, k) {
        assert DecisionAt(decisions, k);
      }
      forall i: nat, j: nat | i < j < |after| ensures Apart(after, i, j) {
        assert Apart(decisions, i, j) && DecisionAt(decisions, i) && DecisionAt(decisions, j);
      }
      SameCount(decisions, after);
      assert after[first.value].published && after[first.value].primary;
    }
  }

  lemma PromotionKeepsBacking(images: seq<Image>, decisions: seq<Decision>)
    requires Backed(images, decisions)
    ensures Backed(images, PromoteNext(decisions))
  {
    var after := PromoteNext(decisions);
    forall k: nat | k < |after| ensures SourceAt(images, after, k) {
      assert SourceAt(images, decisions, k);
    }
  }

  // ---------------------------------------------------------------- publishing and rejecting

  lemma ConfirmedStaysConsistent(p: Photos, image: nat)
    requires Consistent(p.decisions) && image < |p.images|
    requires IsPublic(p, image) || |Published(p.decisions)| < MAX_PUBLISHED
    ensures Consistent(Confirmed(p.decisions, DecisionOn(p.decisions, image), image, p.images[image].sortOrder))
  {
    var decisions, at := p.decisions, DecisionOn(p.decisions, image);
    var after := Confirmed(decisions, at, image, p.images[image].sortOrder);
    forall k: nat | k < |after| ensures DecisionAt(after, k) {
      if k < |decisions| { assert DecisionAt(decisions, k); }
    }
    forall i: nat, j: nat | i < j < |after| ensures Apart(after, i, j) {
      if j < |decisions| { assert Apart(decisions, i, j); }
    }
    if at.None? {
      PublishedAppend(decisions, after[|decisions|]);
    } else {
      PublishedUpdate(decisions, at.value, after[at.value]);
    }
  }

  lemma PublishKeepsSound(p: Photos, image: nat, readable: bool)
    requires ImagesSound(p.images) && Consistent(p.decisions) && Backed(p.images, p.decisions)
    requires Publish(p, image, readable).Ok?
    ensures Sound(Publish(p, image, readable).value)
  {
    var at := DecisionOn(p.decisions, image);
    var confirmed := Confirmed(p.decisions, at, image, p.images[image].sortOrder);
    ConfirmedStaysConsistent(p, image);
    PromotionLeads(confirmed);
    forall k: nat | k < |confirmed| ensures SourceAt(p.images, confirmed, k) {
      if k < |p.decisions| { assert SourceAt(p.images, p.decisions, k); }
    }
    PromotionKeepsBacking(p.images, confirmed);
  }

  lemma WithheldStaysConsistent(p: Photos, image: nat)
    requires Consistent(p.decisions)
    ensures Consistent(Withheld(p.decisions, DecisionOn(p.decisions, image), image))
  {
    var decisions, at := p.decisions, DecisionOn(p.decisions, image);
    var after := Withheld(decisions, at, image);
    forall k: nat | k < |after| ensures DecisionAt(after, k) {
      if k < |decisions| { assert DecisionAt(decisions, k); }
    }
    forall i: nat, j: nat | i < j < |after| ensures Apart(after, i, j) {
      if j < |decisions| { assert Apart(decisions, i, j); }
    }
    if at.None? {
      PublishedAppend(decisions, after[|decisions|]);
    } else {
      PublishedUpdate(decisions, at.value, after[at.value]);
    }
  }

  /** Everything published has an active source, except perhaps what stands on this image. */
  ghost predicate BackedExcept(images: seq<Image>, decisions: seq<Decision>, image: nat) {
    forall k: nat :: k < |decisions| ==> decisions[k].image < |images| && (decisions[k].image == image || SourceAt(images, decisions, k))
  }

  lemma RejectKeepsSound(p: Photos, image: nat)
    requires ImagesSound(p.images) && Consistent(p.decisions) && BackedExcept(p.images, p.decisions, image)
    requires image < |p.images|
    ensures Sound(Reject(p, image).value)
    ensures !IsPublic(Reject(p, image).value, image)
  {
    var at := DecisionOn(p.decisions, image);
    var withheld := Withheld(p.decisions, at, image);
    WithheldStaysConsistent(p, image);
    PromotionLeads(withheld);
    forall k: nat | k < |withheld| ensures SourceAt(p.images, withheld, k) {
      if k < |p.decisions| {
        assert p.decisions[k].image == image || SourceAt(p.images, p.decisions, k);
        if at.Some? && p.decisions[k].image == image {
          OneDecision(p.decisions, k, at.value);
        }
      }
    }
    PromotionKeepsBacking(p.images, withheld);
    RejectedIsNotPublic(p, image);
  }

  lemma RejectedIsNotPublic(p: Photos, image: nat)
    requires Consistent(p.decisions) && image < |p.images|
    ensures !IsPublic(Reject(p, image).value, image)
  {
    var at := DecisionOn(p.decisions, image);
    var withheld := Withheld(p.decisions, at, image);
    WithheldStaysConsistent(p, image);
    var after := PromoteNext(withheld);
    var place := if at.Some? then at.value else |p.decisions|;
    var found := DecisionOn(after, image);
    assert after[place].image == image && !after[place].published;
    PromotionLeads(withheld);
    OneDecision(after, found.value, place);
  }

  lemma MadePrimaryIsSound(images: seq<Image>, decisions: seq<Decision>, at: nat)
    requires Consistent(decisions) && Backed(images, decisions)
    requires at < |decisions| && decisions[at].published
    ensures Consistent(MadePrimary(decisions, at)) && Led(MadePrimary(decisions, at)) && Backed(images, MadePrimary(decisions, at))
  {
    var after := MadePrimary(decisions, at);
    forall k: nat | k < |after| ensures DecisionAt(after, k) && SourceAt(images, after, k) {
      assert DecisionAt(decisions, k) && SourceAt(images, decisions, k);
    }
    forall i: nat, j: nat | i < j < |after| ensures Apart(after, i, j) {
      assert Apart(decisions, i, j);
    }
    SameCount(decisions, after);
    assert after[at].published && after[at].primary;
  }

  // ---------------------------------------------------------------- internal images

  lemma {:induction false} NothingActive(images: seq<Image>)
    ensures Active(images) == [] <==> forall k :: 0 <= k < |images| ==> !images[k].active
  {
    if images != [] {
      var before := images[..|images| - 1];
      NothingActive(before);
      if Active(before) != [] {
        var k :| 0 <= k < |before| && before[k].active;
        assert images[k].active;
      } else {
        assert forall k :: 0 <= k < |before| ==> images[k] == before[k];
      }
    }
  }

  /** Adds an active image that is the main one only if it is the only active one. */
  lemma AddedImageIsSound(p: Photos, image: Image)
    requires ImagesSound(p.images) && Backed(p.images, p.decisions)
    requires image.pk == |p.images| && image.active && (image.primary ==> Active(p.images) == [])
    ensures ImagesSound(p.images + [image]) && Backed(p.images + [image], p.decisions)
  {
    var after := p.images + [image];
    NothingActive(p.images);
    forall k: nat | k < |after| ensures ImageAt(after, k) {
      if k < |p.images| { assert ImageAt(p.images, k); }
    }
    forall i: nat, j: nat | i < j < |after| ensures !BothPrimary(after, i, j) {
      assert ImageAt(p.images, i);
      if j < |p.images| { assert !BothPrimary(p.images, i, j); }
    }
    forall k: nat | k < |p.decisions| ensures SourceAt(after, p.decisions, k) {
      assert SourceAt(p.images, p.decisions, k);
    }
  }

  lemma SetPrimaryKeepsSound(p: Photos, image: nat)
    requires Sound(p) && SetPrimary(p, image).Ok?
    ensures Sound(SetPrimary(p, image).value)
  {
    var after := SetPrimary(p, image).value;
    if p.images[image].active {
      forall k: nat | k < |after.images| ensures ImageAt(after.images, k) {
        assert ImageAt(p.images, k);
      }
      forall k: nat | k < |p.decisions| ensures SourceAt(after.images, p.decisions, k) {
        assert SourceAt(p.images, p.decisions, k);
      }
    }
  }

  lemma DeactivatedIsSound(images: seq<Image>, image: nat)
    requires ImagesSound(images) && image < |images|
    ensures ImagesSound(Deactivated(images, image))
    ensures forall k: nat :: k < |images| && k != image ==>
      Deactivated(images, image)[k].active == images[k].active && Deactivated(images, image)[k].sortOrder == images[k].sortOrder
  {
    var after := Deactivated(images, image);
    forall k: nat | k < |after| ensures ImageAt(after, k) {
      assert ImageAt(images, k);
    }
    forall i: nat, j: nat | i < j < |after| ensures !BothPrimary(after, i, j) {
      assert !BothPrimary(images, i, j);
      if i < image { assert !BothPrimary(images, i, image); }
      if image < i { assert !BothPrimary(images, image, i); }
      if j < image { assert !BothPrimary(images, j, image); }
      if image < j { assert !BothPrimary(images, image, j); }
    }
  }

  lemma DeleteKeepsSound(p: Photos, image: nat)
    requires Sound(p) && image < |p.images|
    ensures Sound(Delete(p, image).value)
  {
    var removed := Deactivated(p.images, image);
    var q := p.(images := removed);
    DeactivatedIsSound(p.images, image);
    var at := DecisionOn(p.decisions, image);
    forall k: nat | k < |p.decisions|
      ensures p.decisions[k].image < |removed| && (p.decisions[k].image == image || SourceAt(removed, p.decisions, k))
    {
      assert SourceAt(p.images, p.decisions, k);
    }
    if at.Some? && p.decisions[at.value].published {
      RejectKeepsSound(q, image);
    } else {
      forall k: nat | k < |p.decisions| ensures SourceAt(removed, p.decisions, k) {
        assert SourceAt(p.images, p.decisions, k);
        if p.decisions[k].image == image && at.Some? {
          OneDecision(p.decisions, k, at.value);
        }
      }
    }
  }

  // ---------------------------------------------------------------- the gallery

  lemma {:induction false} ActiveMember(images: seq<Image>, image: Image)
    ensures image in Active(images) <==> image in images && image.active
  {
    if images != [] {
      ActiveMember(images[..|images| - 1], image);
      assert images == images[..|images| - 1] + [images[|images| - 1]];
    }
  }

  lemma {:induction false} ActiveDoNotRepeat(images: seq<Image>)
    requires forall k: nat :: k < |images| ==> ImageAt(images, k)
    ensures NoRepeats(Active(images))
  {
    if images != [] {
      var before := images[..|images| - 1];
      forall k: nat | k < |before| ensures ImageAt(before, k) {
        assert ImageAt(images, k);
      }
      ActiveDoNotRepeat(before);
      ActiveMember(before, images[|before|]);
      forall k: nat | k < |before| ensures before[k] != images[|before|] {
        assert ImageAt(before, k) && ImageAt(images, |before|);
      }
    }
  }

  /** The gallery is the only ordered listing of the active images. */
  lemma GalleryIs(images: seq<Image>, listed: seq<Image>)
    requires ImagesSound(images) && Ordered(DisplayKey, listed) && NoRepeats(listed)
    requires forall image :: image in listed <==> image in images && image.active
    ensures Gallery(images) == listed
  {
    ActiveDoNotRepeat(images);
    forall image ensures image in Active(images) <==> image in listed {
      ActiveMember(images, image);
    }
    SameMembersSameCounts(Active(images), listed);
    SortPermutes(DisplayKey, Active(images));
    SortOrders(DisplayKey, Active(images));
    forall x, y | x in listed && y in listed && DisplayKey(x) == DisplayKey(y) ensures x == y {
      assert ImageAt(images, x.pk) && ImageAt(images, y.pk) by { PkIsPlace(images, x); PkIsPlace(images, y); }
      PkIsPlace(images, x);
      PkIsPlace(images, y);
    }
    PermutationDistinguishes(DisplayKey, listed, Gallery(images));
    OrderIsUnique(DisplayKey, listed, Gallery(images));
  }

  lemma PkIsPlace(images: seq<Image>, image: Image)
    requires ImagesSound(images) && image in images
    ensures image.pk < |images| && images[image.pk] == image
  {
    var k: nat :| k < |images| && images[k] == image;
    assert ImageAt(images, k);
  }

  lemma GalleryFacts(images: seq<Image>)
    requires ImagesSound(images)
    ensures Ordered(DisplayKey, Gallery(images)) && NoRepeats(Gallery(images))
    ensures forall image :: image in Gallery(images) <==> image in images && image.active
  {
    ActiveDoNotRepeat(images);
    SortOrders(DisplayKey, Active(images));
    SortPermutes(DisplayKey, Active(images));
    PermutationKeepsDistinct(Active(images), Gallery(images));
    forall image ensures image in Gallery(images) <==> image in images && image.active {
      SortKeepsMembers(DisplayKey, Active(images), image);
      ActiveMember(images, image);
    }
  }

  lemma GalleryPks(images: seq<Image>)
    requires ImagesSound(images)
    ensures NoRepeats(Pks(Gallery(images)))
    ensures forall pk: nat :: pk in Pks(Gallery(images)) <==> pk < |images| && images[pk].active
  {
    var listed, pks := Gallery(images), Pks(Gallery(images));
    GalleryFacts(images);
    forall i: nat, j: nat | i < j < |pks| ensures pks[i] != pks[j] {
      PkIsPlace(images, listed[i]);
      PkIsPlace(images, listed[j]);
    }
    forall pk: nat ensures pk in pks <==> pk < |images| && images[pk].active {
      if pk in pks {
        var k :| 0 <= k < |pks| && pks[k] == pk;
        PkIsPlace(images, listed[k]);
      }
      if pk < |images| && images[pk].active {
        assert ImageAt(images, pk) && images[pk] in listed;
        var k :| 0 <= k < |listed| && listed[k] == images[pk];
        assert pks[k] == pk;
      }
    }
  }

  // ---------------------------------------------------------------- uploads

  lemma UploadPrimaryKeepsSound(p: Photos, upload: Upload)
    requires Sound(p) && UploadPrimary(p, upload).Ok?
    ensures Sound(UploadPrimary(p, upload).value)
  {
    var image := Image(|p.images|, upload.at, 0, true, true);
    AddedImageIsSound(p, image);
    PublishKeepsSound(p.(images := p.images + [image]), |p.images|, upload.readable);
  }

  lemma UploadAdditionalKeepsSound(p: Photos, upload: Upload)
    requires Sound(p) && UploadAdditional(p, upload).Ok?
    ensures Sound(UploadAdditional(p, upload).value)
  {
    var active := Active(p.images);
    AddedImageIsSound(p, Image(|p.images|, upload.at, NextSortOrder(active), active == [], true));
    PublishKeepsSound(Appended(p, upload.at), |p.images|, upload.readable);
  }

  /** An added photo stands behind all the others. */
  lemma AppendedPhotoIsLast(p: Photos, upload: Upload)
    requires Sound(p) && UploadAdditional(p, upload).Ok?
    ensures var after := UploadAdditional(p, upload).value;
      Gallery(after.images) == Gallery(p.images) + [after.images[|p.images|]]
  {
    var active := Active(p.images);
    var image := Image(|p.images|, upload.at, NextSortOrder(active), active == [], true);
    AddedImageIsSound(p, image);
    GalleryFacts(p.images);
    var listed := Gallery(p.images) + [image];
    forall i, j | 0 <= i < j < |listed| ensures !Before(DisplayKey(listed[j]), DisplayKey(listed[i])) {
      if j == |listed| - 1 {
        assert listed[i] in Gallery(p.images);
        ActiveMember(p.images, listed[i]);
      }
    }
    forall i, j | 0 <= i < j < |listed| ensures listed[i] != listed[j] {
      assert listed[i] in Gallery(p.images);
      PkIsPlace(p.images, listed[i]);
    }
    GalleryIs(p.images + [image], listed);
  }
}

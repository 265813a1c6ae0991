/**
 What each photo operation leaves, told by what a visitor and the card see: which images are shown, which
 one leads the page, and which one is the main image of the card.
 */
module PhotoEffects {
  import opened Basics
  import opened Ordering
  import opened PartPhotos
  import opened PartPhotosRuns
  import opened PartPhotosLaws

  /** The image is on the public page. */
  ghost predicate Shown(decisions: seq<Decision>, image: nat) {
    exists k: nat :: k < |decisions| && decisions[k].image == image && decisions[k].published
  }

  /** The image is the primary one of the public page. */
  ghost predicate Leads(decisions: seq<Decision>, image: nat) {
    exists k: nat :: k < |decisions| && decisions[k].image == image && decisions[k].published && decisions[k].primary
  }

  ghost predicate NobodyShown(decisions: seq<Decision>) {
    forall k: nat :: k < |decisions| ==> !decisions[k].published
  }

  // ---------------------------------------------------------------- promotion, confirmation, refusal

  lemma PromotionShowsTheSame(decisions: seq<Decision>, image: nat)
    ensures Shown(PromoteNext(decisions), image) <==> Shown(decisions, image)
  {
    var after := PromoteNext(decisions);
    assert forall k: nat :: k < |decisions| ==>
      after[k].image == decisions[k].image && after[k].published == decisions[k].published;
  }

  /** The published photo that comes before every other published one. */
  ghost predicate ComesFirst(decisions: seq<Decision>, k: nat) {
    && k < |decisions| && decisions[k].published
    && forall m: nat :: m < |decisions| && m != k && decisions[m].published ==> Precedes(decisions[k], decisions[m])
  }

  lemma FirstIsTheFirst(decisions: seq<Decision>, k: nat)
    requires Consistent(decisions)
    ensures FirstPublished(decisions) == Some(k) <==> ComesFirst(decisions, k)
  {
    var first := FirstPublished(decisions);
    if first == Some(k) {
      forall m: nat | m < |decisions| && m != k && decisions[m].published ensures Precedes(decisions[k], decisions[m]) {
        assert DecisionAt(decisions, m) && DecisionAt(decisions, k);
      }
    }
  }

  lemma PromotionLeadsTheFirst(decisions: seq<Decision>, image: nat)
    requires Consistent(decisions)
    ensures HasPrimary(decisions) ==> (Leads(PromoteNext(decisions), image) <==> Leads(decisions, image))
    ensures !HasPrimary(decisions) ==>
      (Leads(PromoteNext(decisions), image) <==> exists k: nat :: ComesFirst(decisions, k) && decisions[k].image == image)
  {
    var first, after := FirstPublished(decisions), PromoteNext(decisions);
    if !HasPrimary(decisions) {
      if first.Some? {
        FirstIsTheFirst(decisions, first.value);
        assert after[first.value].primary && after[first.value].published;
      }
      if k: nat :| ComesFirst(decisions, k) && decisions[k].image == image {
        FirstIsTheFirst(decisions, k);
      }
    }
  }

  lemma ConfirmationShows(decisions: seq<Decision>, image: nat, sortOrder: nat, j: nat)
    requires Consistent(decisions)
    ensures var after := Confirmed(decisions, DecisionOn(decisions, image), image, sortOrder);
      (Shown(after, j) <==> j == image || Shown(decisions, j)) && (Leads(after, j) <==> Leads(decisions, j))
  {
    var at := DecisionOn(decisions, image);
    var after := Confirmed(decisions, at, image, sortOrder);
    var place := if at.Some? then at.value else |decisions|;
    assert after[place].image == image && after[place].published;
    forall k: nat | k < |decisions|
      ensures after[k].image == decisions[k].image && after[k].primary == decisions[k].primary
      ensures decisions[k].published ==> after[k].published
      ensures decisions[k].primary ==> decisions[k].published
    {
      assert DecisionAt(decisions, k);
    }
  }

  lemma RefusalHides(decisions: seq<Decision>, image: nat, j: nat)
    requires Consistent(decisions)
    ensures var after := Withheld(decisions, DecisionOn(decisions, image), image);
      && (Shown(after, j) <==> j != image && Shown(decisions, j))
      && (Leads(after, j) <==> j != image && Leads(decisions, j))
  {
    var at := DecisionOn(decisions, image);
    var after := Withheld(decisions, at, image);
    forall k: nat | k < |decisions|
      ensures after[k].image == decisions[k].image
      ensures if decisions[k].image == image then !after[k].published else after[k] == decisions[k]
    {
      if decisions[k].image == image {
        OneDecision(decisions, k, at.value);
      }
    }
  }

  lemma LeaderIsThere(decisions: seq<Decision>)
    requires Led(decisions)
    ensures HasPrimary(decisions) <==> !NobodyShown(decisions)
  {
    NothingPublished(decisions);
  }

  // ---------------------------------------------------------------- publication and rejection

  lemma ShownIsPublic(p: Photos, image: nat)
    requires Consistent(p.decisions)
    ensures IsPublic(p, image) <==> Shown(p.decisions, image)
    ensures IsPublicPrimary(p, image) <==> Leads(p.decisions, image)
  {
    var at := DecisionOn(p.decisions, image);
    if k: nat :| k < |p.decisions| && p.decisions[k].image == image && p.decisions[k].published {
      OneDecision(p.decisions, k, at.value);
    }
    if k: nat :| k < |p.decisions| && p.decisions[k].image == image && p.decisions[k].published && p.decisions[k].primary {
      OneDecision(p.decisions, k, at.value);
    }
  }

  /** A publication is refused for exactly one of four reasons, in this order. */
  lemma PublicationSucceedsIff(p: Photos, image: nat, readable: bool)
    requires Consistent(p.decisions)
    ensures Publish(p, image, readable) == Err(NotFound) <==> image >= |p.images|
    ensures Publish(p, image, readable) == Err(Removed) <==> image < |p.images| && !p.images[image].active
    ensures Publish(p, image, readable) == Err(TooMany) <==>
      image < |p.images| && p.images[image].active && !Shown(p.decisions, image) && |Published(p.decisions)| >= 8
    ensures Publish(p, image, readable).Ok? <==>
      && image < |p.images| && p.images[image].active && readable
      && (Shown(p.decisions, image) || |Published(p.decisions)| < 8)
  {
    ShownIsPublic(p, image);
  }

  /** A publication shows that image besides what was shown, and it leads only if nothing was shown. */
  lemma PublicationShows(p: Photos, image: nat, readable: bool, j: nat)
    requires Consistent(p.decisions) && Led(p.decisions) && Publish(p, image, readable).Ok?
    ensures var after := Publish(p, image, readable).value.decisions;
      && (Shown(after, j) <==> j == image || Shown(p.decisions, j))
      && (Leads(after, j) <==> if NobodyShown(p.decisions) then j == image else Leads(p.decisions, j))
  {
    var at := DecisionOn(p.decisions, image);
    var confirmed := Confirmed(p.decisions, at, image, p.images[image].sortOrder);
    ConfirmedStaysConsistent(p, image);
    ConfirmationShows(p.decisions, image, p.images[image].sortOrder, j);
    PromotionShowsTheSame(confirmed, j);
    PromotionLeadsTheFirst(confirmed, j);
    LeaderIsThere(p.decisions);
    OnlyOneLeads(p.decisions, confirmed, at, image);
  }

  lemma OnlyOneLeads(decisions: seq<Decision>, confirmed: seq<Decision>, at: Option<nat>, image: nat)
    requires Consistent(decisions) && at == DecisionOn(decisions, image)
    requires exists sortOrder: nat :: confirmed == Confirmed(decisions, at, image, sortOrder)
    ensures HasPrimary(confirmed) <==> HasPrimary(decisions)
    ensures NobodyShown(decisions) ==> forall k: nat :: ComesFirst(confirmed, k) <==> k == if at.Some? then at.value else |decisions|
  {
    forall k: nat | k < |decisions| ensures confirmed[k].primary == decisions[k].primary && (decisions[k].primary ==> decisions[k].published) {
      assert DecisionAt(decisions, k);
    }
    if HasPrimary(decisions) {
      var k :| 0 <= k < |decisions| && decisions[k].published && decisions[k].primary;
      assert confirmed[k].published && confirmed[k].primary;
    }
  }

  /** The published photo that comes before every other published one but those of this image. */
  ghost predicate ComesFirstWithout(decisions: seq<Decision>, image: nat, k: nat) {
    && k < |decisions| && decisions[k].published && decisions[k].image != image
    && forall m: nat :: m < |decisions| && m != k && decisions[m].published && decisions[m].image != image ==>
         Precedes(decisions[k], decisions[m])
  }

  lemma FirstOnceRefused(decisions: seq<Decision>, image: nat, k: nat)
    requires Consistent(decisions)
    ensures ComesFirst(Withheld(decisions, DecisionOn(decisions, image), image), k) <==> ComesFirstWithout(decisions, image, k)
  {
    var at := DecisionOn(decisions, image);
    var after := Withheld(decisions, at, image);
    forall m: nat | m < |decisions|
      ensures if decisions[m].image == image then !after[m].published else after[m] == decisions[m]
    {
      if decisions[m].image == image {
        OneDecision(decisions, m, at.value);
      }
    }
    assert forall m: nat :: m < |decisions| ==> after[m].image == decisions[m].image;
    assert at.None? ==> !after[|decisions|].published;
  }

  lemma PrimaryOnceRefused(decisions: seq<Decision>, image: nat)
    requires Consistent(decisions)
    ensures HasPrimary(Withheld(decisions, DecisionOn(decisions, image), image)) <==> HasPrimary(decisions) && !Leads(decisions, image)
  {
    var at := DecisionOn(decisions, image);
    var after := Withheld(decisions, at, image);
    if k :| 0 <= k < |decisions| && decisions[k].published && decisions[k].primary {
      if decisions[k].image != image {
        assert after[k] == decisions[k];
        forall m: nat | m < |decisions| && decisions[m].image == image ensures !decisions[m].primary {
          assert k < m ==> Apart(decisions, k, m);
          assert m < k ==> Apart(decisions, m, k);
        }
      } else {
        OneDecision(decisions, k, at.value);
        forall m: nat | m < |decisions| && m != k ensures !decisions[m].primary {
          assert k < m ==> Apart(decisions, k, m);
          assert m < k ==> Apart(decisions, m, k);
        }
      }
    }
  }

  /** A rejection hides that image and no other; if it led the page, the first of the others leads it now. */
  lemma RejectionHides(p: Photos, image: nat, j: nat)
    requires Consistent(p.decisions) && Led(p.decisions) && Reject(p, image).Ok?
    ensures var after := Reject(p, image).value.decisions;
      && (Shown(after, j) <==> j != image && Shown(p.decisions, j))
      && (!Leads(p.decisions, image) ==> (Leads(after, j) <==> Leads(p.decisions, j)))
      && (Leads(p.decisions, image) ==>
           (Leads(after, j) <==> exists k: nat :: ComesFirstWithout(p.decisions, image, k) && p.decisions[k].image == j))
  {
    var decisions := p.decisions;
    var withheld := Withheld(decisions, DecisionOn(decisions, image), image);
    WithheldStaysConsistent(p, image);
    RefusalHides(decisions, image, j);
    PromotionShowsTheSame(withheld, j);
    PromotionLeadsTheFirst(withheld, j);
    PrimaryOnceRefused(decisions, image);
    forall k: nat ensures ComesFirst(withheld, k) <==> ComesFirstWithout(decisions, image, k) {
      FirstOnceRefused(decisions, image, k);
    }
    assert forall k: nat :: k < |decisions| ==> withheld[k].image == decisions[k].image;
    NothingToLead(decisions, withheld, image);
  }

  /** Without a leader nothing is shown, before and after a rejection. */
  lemma NothingToLead(decisions: seq<Decision>, withheld: seq<Decision>, image: nat)
    requires Consistent(decisions) && Led(decisions) && withheld == Withheld(decisions, DecisionOn(decisions, image), image)
    ensures !HasPrimary(decisions) ==> forall k: nat :: !ComesFirst(withheld, k)
    ensures forall k: nat :: ComesFirst(withheld, k) ==> k < |decisions|
  {
    LeaderIsThere(decisions);
  }

  /** Choosing a shown photo as the primary one makes it lead alone and shows the same photos; nothing else is accepted. */
  lemma ChosenPhotoLeads(p: Photos, at: nat, j: nat)
    requires Consistent(p.decisions)
    ensures SetPublicPrimary(p, at) == Err(NotFound) <==> at >= |p.decisions|
    ensures at < |p.decisions| && !p.decisions[at].published ==> SetPublicPrimary(p, at) == Ok(p)
    ensures at < |p.decisions| && p.decisions[at].published ==>
      && SetPublicPrimary(p, at).Ok? && SetPublicPrimary(p, at).value.images == p.images
      && (Shown(SetPublicPrimary(p, at).value.decisions, j) <==> Shown(p.decisions, j))
      && (Leads(SetPublicPrimary(p, at).value.decisions, j) <==> j == p.decisions[at].image)
  {
    if at < |p.decisions| && p.decisions[at].published {
      MadePrimaryLeads(p.decisions, at, j);
      if p.decisions[at].primary {
        forall k: nat | k < |p.decisions| && k != at ensures !p.decisions[k].primary {
          assert k < at ==> Apart(p.decisions, k, at);
          assert at < k ==> Apart(p.decisions, at, k);
        }
      }
    }
  }

  lemma MadePrimaryLeads(decisions: seq<Decision>, at: nat, j: nat)
    requires at < |decisions| && decisions[at].published
    ensures Shown(MadePrimary(decisions, at), j) <==> Shown(decisions, j)
    ensures Leads(MadePrimary(decisions, at), j) <==> j == decisions[at].image
  {
    var after := MadePrimary(decisions, at);
    assert forall k: nat :: k < |decisions| ==> after[k].image == decisions[k].image && after[k].published == decisions[k].published;
    assert after[at].primary && after[at].published;
  }

  // ---------------------------------------------------------------- uploads

  lemma ShownCount(decisions: seq<Decision>)
    ensures Published(decisions) == [] <==> NobodyShown(decisions)
  {
    NothingPublished(decisions);
  }

  ghost predicate EmptyCard(images: seq<Image>) {
    forall k: nat :: k < |images| ==> !images[k].active
  }

  lemma FreshImageIsNotShown(p: Photos)
    requires Sound(p)
    ensures !Shown(p.decisions, |p.images|) && !Leads(p.decisions, |p.images|)
  {
    forall k: nat | k < |p.decisions| ensures p.decisions[k].image < |p.images| {
      assert SourceAt(p.images, p.decisions, k);
    }
  }

  /** The first photo of a part is accepted if and only if it has none, and is at once on the card, main, shown and leading. */
  lemma FirstPhotoIsPublished(p: Photos, upload: Upload, j: nat)
    requires Sound(p)
    ensures UploadPrimary(p, upload).Ok? <==>
      upload.knownSource && upload.valid && upload.readable && EmptyCard(p.images) && NobodyShown(p.decisions)
    ensures UploadPrimary(p, upload) == Err(AlreadyHasPhoto) <==>
      upload.knownSource && upload.valid && !(EmptyCard(p.images) && NobodyShown(p.decisions))
    ensures UploadPrimary(p, upload).Ok? ==>
      && UploadPrimary(p, upload).value.images == p.images + [Image(|p.images|, upload.at, 0, true, true)]
      && (Shown(UploadPrimary(p, upload).value.decisions, j) <==> j == |p.images|)
      && (Leads(UploadPrimary(p, upload).value.decisions, j) <==> j == |p.images|)
  {
    var image := Image(|p.images|, upload.at, 0, true, true);
    var added := p.(images := p.images + [image]);
    NothingActive(p.images);
    ShownCount(p.decisions);
    PublicationSucceedsIff(added, |p.images|, upload.readable);
    if UploadPrimary(p, upload).Ok? {
      PublicationShows(added, |p.images|, upload.readable, j);
    }
  }

  /** One more photo is accepted if and only if a public place is free, and is shown besides the others. */
  lemma AddedPhotoIsShown(p: Photos, upload: Upload, j: nat)
    requires Sound(p)
    ensures UploadAdditional(p, upload).Ok? <==>
      upload.knownSource && upload.valid && upload.readable && |Published(p.decisions)| < 8
    ensures UploadAdditional(p, upload).Ok? ==>
      && (Shown(UploadAdditional(p, upload).value.decisions, j) <==> j == |p.images| || Shown(p.decisions, j))
      && (Leads(UploadAdditional(p, upload).value.decisions, j) <==>
            if NobodyShown(p.decisions) then j == |p.images| else Leads(p.decisions, j))
  {
    var added := Appended(p, upload.at);
    FreshImageIsNotShown(p);
    PublicationSucceedsIff(added, |p.images|, upload.readable);
    if UploadAdditional(p, upload).Ok? {
      PublicationShows(added, |p.images|, upload.readable, j);
    }
  }

  // ---------------------------------------------------------------- replacement

  lemma SameRowsShowTheSame(a: seq<Decision>, b: seq<Decision>, j: nat)
    requires |a| == |b|
    requires forall k: nat :: k < |a| ==> a[k].image == b[k].image && a[k].published == b[k].published && a[k].primary == b[k].primary
    ensures (Shown(a, j) <==> Shown(b, j)) && (Leads(a, j) <==> Leads(b, j))
    ensures HasPrimary(a) <==> HasPrimary(b)
    ensures NobodyShown(a) <==> NobodyShown(b)
  {
    if k :| 0 <= k < |a| && a[k].published && a[k].primary {
      assert b[k].published && b[k].primary;
    }
    if k :| 0 <= k < |b| && b[k].published && b[k].primary {
      assert a[k].published && a[k].primary;
    }
  }

  /** The replacement once published: nothing else about the page has changed yet. */
  lemma PublishedReplacement(p: Photos, target: nat, upload: Upload, published: Photos, j: nat)
    requires Sound(p) && CanReplace(p, target)
    requires Publish(Prepared(p, target, Slot(p, target), upload.at), |p.images|, upload.readable) == Ok(published)
    ensures Shown(published.decisions, j) <==> j == |p.images| || Shown(p.decisions, j)
    ensures Leads(published.decisions, j) <==> if NobodyShown(p.decisions) then j == |p.images| else Leads(p.decisions, j)
  {
    var prepared := Prepared(p, target, Slot(p, target), upload.at);
    PreparedIs(p, target, upload.at);
    PreparedDecisionsSound(p, target, upload.at);
    SameRowsShowTheSame(prepared.decisions, p.decisions, j);
    LeaderIsThere(p.decisions);
    NothingPublished(prepared.decisions);
    PublicationShows(prepared, |p.images|, upload.readable, j);
  }

  lemma LedReplacement(p: Photos, target: nat, published: Photos, j: nat)
    requires Consistent(published.decisions) && Shown(published.decisions, |p.images|)
    ensures Shown(Leading(p, target, published).decisions, j) <==> Shown(published.decisions, j)
    ensures Leads(Leading(p, target, published).decisions, j) <==>
      if IsPublicPrimary(p, target) then j == |p.images| else Leads(published.decisions, j)
  {
    ShownIsPublic(published, |p.images|);
    MadePrimaryLeads(published.decisions, DecisionOn(published.decisions, |p.images|).value, j);
  }

  /** A replacement shows the new photo for its target; it leads if its target did or nobody was shown. */
  lemma ReplacementShows(p: Photos, target: nat, upload: Upload, j: nat)
    requires Sound(p) && Replace(p, target, upload).Ok?
    ensures var after := Replace(p, target, upload).value.decisions;
      && (Shown(after, j) <==> j == |p.images| || (j != target && Shown(p.decisions, j)))
      && (Leads(after, j) <==>
            if Leads(p.decisions, target) || NobodyShown(p.decisions) then j == |p.images| else Leads(p.decisions, j))
  {
    TargetIsAtItsSlot(p, target, upload);
    PublishStage(p, target, upload);
    var published := Publish(Prepared(p, target, Slot(p, target), upload.at), |p.images|, upload.readable).value;
    PublishedReplacement(p, target, upload, published, j);
    PublishedReplacement(p, target, upload, published, target);
    PublishedReplacement(p, target, upload, published, |p.images|);
    LedReplacement(p, target, published, j);
    LedReplacement(p, target, published, target);
    ShownIsPublic(p, target);
    FreshImageIsNotShown(p);
    if IsPublic(p, target) {
      LeadingKeepsSound(p, target, published);
      RejectionHides(Leading(p, target, published), target, j);
    }
  }

  lemma LeadingKeepsSound(p: Photos, target: nat, published: Photos)
    requires Sound(published) && IsPublic(published, |p.images|)
    ensures Sound(Leading(p, target, published))
  {
    if IsPublicPrimary(p, target) {
      TakingOverKeepsSound(published, |p.images|, target);
    }
  }

  // ---------------------------------------------------------------- the main image of the card

  /** The active image that stands before every other on the card. */
  ghost predicate StandsFirst(images: seq<Image>, k: nat) {
    && k < |images| && images[k].active
    && forall m: nat :: m < |images| && m != k && images[m].active ==> Before(DisplayKey(images[k]), DisplayKey(images[m]))
  }

  lemma FirstActiveStandsFirst(images: seq<Image>, k: nat)
    requires forall m: nat :: m < |images| ==> images[m].pk == m
    ensures FirstActive(images) == Some(k) <==> StandsFirst(images, k)
  {
  }

  lemma NoOtherMain(images: seq<Image>, main: nat, k: nat)
    requires ImagesSound(images) && main < |images| && k < |images| && images[main].primary && k != main
    ensures !images[k].primary
  {
    assert k < main ==> !BothPrimary(images, k, main);
    assert main < k ==> !BothPrimary(images, main, k);
  }

  /** Taken off the card, the main image hands the flag to the first of the others. */
  lemma FlagIsHandedOn(images: seq<Image>, image: nat, k: nat)
    requires ImagesSound(images) && image < |images| && k < |images|
    ensures Deactivated(images, image)[k] == images[k].(active := k != image && images[k].active, primary := Deactivated(images, image)[k].primary)
    ensures Deactivated(images, image)[k].primary <==>
      if images[image].primary then StandsFirst(Deactivated(images, image), k) else images[k].primary
  {
    var removed, after := images[image := images[image].(active := false, primary := false)], Deactivated(images, image);
    forall m: nat | m < |removed| ensures removed[m].pk == m {
      assert ImageAt(images, m);
    }
    FirstActiveStandsFirst(removed, k);
    assert forall m: nat :: m < |after| ==> after[m].active == removed[m].active && DisplayKey(after[m]) == DisplayKey(removed[m]);
    assert StandsFirst(after, k) <==> StandsFirst(removed, k);
    if images[image].primary && k != image {
      NoOtherMain(images, image, k);
    }
  }

  /** A deleted photo is off the card and the page; if it was the main one, the first of the others is now. */
  lemma DeletionTakesOff(p: Photos, image: nat, k: nat, j: nat)
    requires Sound(p) && k < |p.images|
    ensures Delete(p, image).Ok? <==> image < |p.images|
    ensures Delete(p, image).Ok? ==>
      var after := Delete(p, image).value;
      && |after.images| == |p.images|
      && after.images[k] == p.images[k].(active := k != image && p.images[k].active, primary := after.images[k].primary)
      && (after.images[k].primary <==> if p.images[image].primary then StandsFirst(after.images, k) else p.images[k].primary)
      && (Shown(after.decisions, j) <==> j != image && Shown(p.decisions, j))
  {
    if image < |p.images| {
      FlagIsHandedOn(p.images, image, k);
      ShownIsPublic(p, image);
      if IsPublic(p, image) {
        RejectionHides(p.(images := Deactivated(p.images, image)), image, j);
      }
    }
  }

  /** The chosen image, if it is on the card, becomes the only main one. */
  lemma ChosenImageIsMain(p: Photos, image: nat, k: nat)
    requires k < |p.images|
    ensures SetPrimary(p, image).Ok? <==> image < |p.images|
    ensures SetPrimary(p, image).Ok? ==>
      && SetPrimary(p, image).value.decisions == p.decisions && |SetPrimary(p, image).value.images| == |p.images|
      && SetPrimary(p, image).value.images[k] ==
           p.images[k].(primary := if p.images[image].active then k == image else p.images[k].primary)
  {
  }

  /** An internal photo is added to the card, shown to nobody, and the main one if the card was empty. */
  lemma AddedImageIsOnTheCard(p: Photos, at: int)
    ensures var after := AddImage(p, at);
      && |after.images| == |p.images| + 1 && after.images[..|p.images|] == p.images && after.decisions == p.decisions
      && after.images[|p.images|].active && after.images[|p.images|].uploadedAt == at && after.images[|p.images|].sortOrder == 0
      && (after.images[|p.images|].primary <==> EmptyCard(p.images))
  {
    NothingActive(p.images);
  }

  /** A card with photos has a main one. */
  ghost predicate HasMain(images: seq<Image>) {
    EmptyCard(images) || exists k: nat :: k < |images| && images[k].primary
  }

  lemma AddedImageHasMain(images: seq<Image>, image: Image)
    requires HasMain(images) && (EmptyCard(images) ==> image.primary)
    ensures HasMain(images + [image])
  {
    var after := images + [image];
    assert after[|images|] == image;
    if k: nat :| k < |images| && images[k].primary {
      assert after[k].primary;
    }
  }

  lemma DeactivatedHasMain(images: seq<Image>, image: nat)
    requires ImagesSound(images) && HasMain(images) && image < |images|
    ensures HasMain(Deactivated(images, image))
  {
    var removed, after := images[image := images[image].(active := false, primary := false)], Deactivated(images, image);
    if !images[image].primary {
      if k: nat :| k < |images| && images[k].primary {
        assert after[k].primary;
      }
    } else if FirstActive(removed).Some? {
      assert after[FirstActive(removed).value].primary;
    }
  }

  lemma ReplacedHasMain(p: Photos, target: nat, upload: Upload)
    requires Sound(p) && HasMain(p.images) && Replace(p, target, upload).Ok?
    ensures HasMain(Replace(p, target, upload).value.images)
  {
    ReplaceKeepsTheMainImage(p, target, upload);
    var after := Replace(p, target, upload).value.images;
    var k: nat :| k < |p.images| && p.images[k].primary;
    assert after[if k == target then |p.images| else k].primary;
  }

  lemma StepKeepsMain(p: Photos, operation: Operation)
    requires Sound(p) && HasMain(p.images)
    ensures HasMain(Step(p, operation).images)
  {
    NothingActive(p.images);
    match operation
    case UploadFirst(upload) => AddedImageHasMain(p.images, Image(|p.images|, upload.at, 0, true, true));
    case UploadNext(upload) =>
      AddedImageHasMain(p.images, Image(|p.images|, upload.at, NextSortOrder(Active(p.images)), Active(p.images) == [], true));
    case ReplaceWith(target, upload) =>
      if Replace(p, target, upload).Ok? { ReplacedHasMain(p, target, upload); }
    case AddInternal(at) => AddedImageHasMain(p.images, Image(|p.images|, at, 0, Active(p.images) == [], true));
    case MakeMain(image) => if image < |p.images| && p.images[image].active { assert SetPrimary(p, image).value.images[image].primary; }
    case DeleteImage(image) => if image < |p.images| { DeactivatedHasMain(p.images, image); }
    case PublishImage(image, readable) =>
    case RejectImage(image) =>
    case MakePublicPrimary(decision) =>
  }

  /** After any run of operations a card that has photos has a main one. */
  lemma {:induction false} RunKeepsMain(operations: seq<Operation>)
    ensures HasMain(Run(Photos([], []), operations).images)
  {
    if operations != [] {
      RunKeepsMain(operations[..|operations| - 1]);
      RunKeepsSound(operations[..|operations| - 1]);
      StepKeepsMain(Run(Photos([], []), operations[..|operations| - 1]), operations[|operations| - 1]);
    }
  }
}

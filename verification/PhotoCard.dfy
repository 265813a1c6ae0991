/** The photo operations as they update the stored rows of a part. */
module PhotoCard {
  import opened Basics
  import opened PartPhotos
  import opened PartPhotosRuns
  import opened PartPhotosLaws

  /** A call either did what the operation says or reported why not and changed nothing. */
  ghost predicate Became(before: Photos, expected: Result<Photos, Refusal>, after: Photos, refusal: Option<Refusal>) {
    match expected
    case Ok(value) => refusal == None && after == value
    case Err(reason) => refusal == Some(reason) && after == before
  }

  lemma {:induction false} PlaceInAppend(order: seq<nat>, next: nat, pk: nat)
    ensures PlaceIn(order + [next], pk) == if pk == next then Some(|order|) else PlaceIn(order, pk)
  {
    assert (order + [next])[..|order|] == order;
  }

  class PartPhotoCard {
    var images: seq<Image>
    var decisions: seq<Decision>

    function Value(): Photos
      reads this
    {
      Photos(images, decisions)
    }

    constructor ()
      ensures Value() == Photos([], [])
    {
      images, decisions := [], [];
    }

    method PromoteNextPrimary()
      modifies this`decisions
      ensures decisions == PromoteNext(old(decisions))
    {
      if HasPrimary(decisions) {
        return;
      }
      var candidate := FirstPublished(decisions);
      if candidate.Some? {
        decisions := decisions[candidate.value := decisions[candidate.value].(primary := true)];
      }
    }

    method PublishPhoto(image: nat, readable: bool) returns (refusal: Option<Refusal>)
      modifies this
      ensures Became(old(Value()), Publish(old(Value()), image, readable), Value(), refusal)
    {
      if image >= |images| {
        return Some(NotFound);
      }
      if !images[image].active {
        return Some(Removed);
      }
      var known := DecisionOn(decisions, image);
      var alreadyPublic := known.Some? && decisions[known.value].published;
      if !alreadyPublic && |Published(decisions)| >= MAX_PUBLISHED {
        return Some(TooMany);
      }
      if !readable {
        return Some(Unreadable);
      }
      if known.None? {
        decisions := decisions + [Decision(|decisions|, image, true, false, images[image].sortOrder)];
      } else {
        var decision := decisions[known.value].(published := true);
        decision := decision.(sortOrder := images[image].sortOrder);
        decisions := decisions[known.value := decision];
      }
      PromoteNextPrimary();
      refusal := None;
    }

    method RejectPhoto(image: nat) returns (refusal: Option<Refusal>)
      modifies this
      ensures Became(old(Value()), Reject(old(Value()), image), Value(), refusal)
    {
      if image >= |images| {
        return Some(NotFound);
      }
      var known := DecisionOn(decisions, image);
      if known.None? {
        decisions := decisions + [Decision(|decisions|, image, false, false, 0)];
      } else {
        var decision := decisions[known.value].(published := false);
        decision := decision.(primary := false);
        decisions := decisions[known.value := decision];
      }
      PromoteNextPrimary();
      refusal := None;
    }

    method WithdrawForSource(image: nat)
      requires image < |images|
      modifies this
      ensures Value() == Withdraw(old(Value()), image)
    {
      var known := DecisionOn(decisions, image);
      if known.Some? && decisions[known.value].published {
        var refusal := RejectPhoto(image);
      }
    }

    method SetPublicPrimaryPhoto(at: nat) returns (refusal: Option<Refusal>)
      modifies this
      ensures Became(old(Value()), SetPublicPrimary(old(Value()), at), Value(), refusal)
    {
      if at >= |decisions| {
        return Some(NotFound);
      }
      if !decisions[at].published || decisions[at].primary {
        return None;
      }
      decisions := WithoutPrimary(decisions);
      decisions := decisions[at := decisions[at].(primary := true)];
      refusal := None;
    }

    /** A photo that stays internal; the first active one is the main one. */
    method AddPhoto(at: int)
      modifies this
      ensures Value() == AddImage(old(Value()), at)
    {
      images := images + [Image(|images|, at, 0, Active(images) == [], true)];
    }

    method SetMainPhoto(image: nat) returns (refusal: Option<Refusal>)
      modifies this
      ensures Became(old(Value()), SetPrimary(old(Value()), image), Value(), refusal)
    {
      if image >= |images| {
        return Some(NotFound);
      }
      if !images[image].active {
        return None;
      }
      var rows := images;
      images := seq(|rows|, k requires 0 <= k < |rows| => if k == image then rows[k] else rows[k].(primary := false));
      if !images[image].primary {
        images := images[image := images[image].(primary := true)];
      }
      refusal := None;
    }

    /** Soft deletion from the card; the public copy goes with it. */
    method DeletePhoto(image: nat) returns (refusal: Option<Refusal>)
      modifies this
      ensures Became(old(Value()), Delete(old(Value()), image), Value(), refusal)
    {
      if image >= |images| {
        return Some(NotFound);
      }
      var wasPrimary := images[image].primary;
      images := images[image := images[image].(active := false, primary := false)];
      if wasPrimary {
        var next := FirstActive(images);
        if next.Some? {
          images := images[next.value := images[next.value].(primary := true)];
        }
      }
      WithdrawForSource(image);
      refusal := None;
    }

    method UploadPrimaryPhoto(upload: Upload) returns (refusal: Option<Refusal>)
      modifies this
      ensures Became(old(Value()), UploadPrimary(old(Value()), upload), Value(), refusal)
    {
      if !upload.knownSource {
        return Some(UnknownSource);
      }
      if !upload.valid {
        return Some(InvalidUpload);
      }
      if Active(images) != [] || Published(decisions) != [] {
        return Some(AlreadyHasPhoto);
      }
      var before := images;
      images := images + [Image(|images|, upload.at, 0, true, true)];
      refusal := PublishPhoto(|before|, upload.readable);
      if refusal.Some? {
        images := before;
      }
    }

    method UploadAdditionalPhoto(upload: Upload) returns (refusal: Option<Refusal>)
      modifies this
      ensures Became(old(Value()), UploadAdditional(old(Value()), upload), Value(), refusal)
    {
      if !upload.knownSource {
        return Some(UnknownSource);
      }
      if !upload.valid {
        return Some(InvalidUpload);
      }
      var active := Active(images);
      var next := 0;
      for k := 0 to |active|
        invariant next == NextSortOrder(active[..k])
      {
        assert active[..k + 1][..k] == active[..k];
        next := Max(next, active[k].sortOrder + 1);
      }
      assert active[..|active|] == active;
      var before := images;
      images := images + [Image(|images|, upload.at, next, active == [], true)];
      refusal := PublishPhoto(|before|, upload.readable);
      if refusal.Some? {
        images := before;
      }
    }

    /** Gives one image and the decision on it their place. */
    method NumberOne(pk: nat, position: nat, ghost start: Photos, ghost order: seq<nat>)
      requires pk < |images| && |images| == |start.images| && ImagesNumbered(start.images)
      requires Value() == Renumbered(start, order) && position == |order|
      modifies this
      ensures Value() == Renumbered(start, order + [pk])
    {
      forall k ensures PlaceIn(order + [pk], k) == if k == pk then Some(|order|) else PlaceIn(order, k) {
        PlaceInAppend(order, pk, k);
      }
      images := images[pk := images[pk].(sortOrder := position)];
      var rows := decisions;
      decisions := seq(|rows|, k requires 0 <= k < |rows| =>
        if rows[k].image == pk then rows[k].(sortOrder := position) else rows[k]);
    }

    method NumberAnew(order: seq<nat>)
      requires ImagesNumbered(images) && forall k :: 0 <= k < |order| ==> order[k] < |images|
      modifies this
      ensures Value() == Renumbered(old(Value()), order)
    {
      ghost var start := Value();
      for k := 0 to |order|
        invariant |images| == |start.images|
        invariant Value() == Renumbered(start, order[..k])
      {
        assert order[..k + 1] == order[..k] + [order[k]];
        NumberOne(order[k], k, start, order[..k]);
      }
      assert order[..|order|] == order;
    }

    method ReplacePhoto(target: nat, upload: Upload) returns (refusal: Option<Refusal>)
      requires Sound(Value())
      modifies this
      ensures Became(old(Value()), Replace(old(Value()), target, upload), Value(), refusal)
    {
      if !upload.knownSource {
        return Some(UnknownSource);
      }
      if !upload.valid {
        return Some(InvalidUpload);
      }
      var active := Pks(Gallery(images));
      var slot := PlaceIn(active, target);
      GalleryPks(images);
      if slot.None? {
        return Some(NotFound);
      }
      assert active[slot.value] == target && target in active;
      var before, image := Photos(images, decisions), |images|;
      var wasPublic, wasPublicPrimary := IsPublic(before, target), IsPublicPrimary(before, target);
      var wasPrimary := images[target].primary;
      NewOrderMembers(before, target);

      images := images[target := images[target].(primary := false)];
      images := images + [Image(image, upload.at, images[target].sortOrder, wasPrimary, true)];
      AddedIsNumbered(before.images, target, images[image]);
      var order := active[slot.value := image];
      assert order == NewOrder(before, target);
      forall k: nat | k < |order| ensures order[k] < |images| {
        assert order[k] in order;
      }
      NumberAnew(order);
      assert Value() == Prepared(before, target, slot.value, upload.at);
      refusal := PublishPhoto(image, upload.readable);
      if refusal.Some? {
        images, decisions := before.images, before.decisions;
        return;
      }
      TakeOverAndRetire(before, target, wasPublic, wasPublicPrimary);
    }

    /** The last statements of a replacement: the public primary, the old decision, the old image. */
    method TakeOverAndRetire(before: Photos, target: nat, wasPublic: bool, wasPublicPrimary: bool)
      requires target < |images|
      requires wasPublic == IsPublic(before, target) && wasPublicPrimary == IsPublicPrimary(before, target)
      modifies this
      ensures Value() == Retired(Withdrawing(before, target, Leading(before, target, old(Value()))), target)
    {
      var published := DecisionOn(decisions, |before.images|);
      if wasPublicPrimary && published.Some? {
        decisions := WithoutPrimary(decisions);
        decisions := decisions[published.value := decisions[published.value].(primary := true)];
      }
      if wasPublic {
        var refusal := RejectPhoto(target);
      }
      images := images[target := images[target].(active := false, primary := false)];
    }
  }

  predicate ImagesNumbered(images: seq<Image>) {
    forall k :: 0 <= k < |images| ==> images[k].pk == k
  }

  lemma AddedIsNumbered(images: seq<Image>, target: nat, image: Image)
    requires ImagesSound(images) && target < |images| && image.pk == |images|
    ensures ImagesNumbered(images[target := images[target].(primary := false)] + [image])
  {
    forall k: nat | k < |images| ensures images[k].pk == k {
      assert ImageAt(images, k);
    }
  }
}

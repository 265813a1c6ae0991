/**
 The photos of one part: internal images, the public decision on each, and the upload pipeline.

 Rows are kept in the order of their primary keys, and a row's `pk` is its place in that order: within
 one part only the order of keys matters. Every operation runs in one transaction, so a refused one
 leaves everything as it was. Uploads, replacements and the public decisions lock the part row; adding an
 internal photo, choosing the main one and deleting one do not, and are steps of their own all the same.
 */
module PartPhotos {
  import opened Basics
  import opened Ordering

  const MAX_PUBLISHED := 8

  datatype Image = Image(pk: nat, uploadedAt: int, sortOrder: nat, primary: bool, active: bool)

  /** A decision on one image; what is not published is rejected. */
  datatype Decision = Decision(pk: nat, image: nat, published: bool, primary: bool, sortOrder: nat)

  datatype Photos = Photos(images: seq<Image>, decisions: seq<Decision>)

  datatype Refusal = UnknownSource | InvalidUpload | AlreadyHasPhoto | NotFound | Removed | TooMany | Unreadable

  /** A file as it arrives: is its origin known, does it pass the upload check, does it decode. */
  datatype Upload = Upload(knownSource: bool, valid: bool, readable: bool, at: int)

  // ---------------------------------------------------------------- orders of display

  function DisplayKey(image: Image): Key {
    Key(image.sortOrder, image.uploadedAt, image.pk)
  }

  function Active(images: seq<Image>): seq<Image> {
    if images == [] then []
    else Active(images[..|images| - 1]) + (if images[|images| - 1].active then [images[|images| - 1]] else [])
  }

  /** The photos on the part's card. */
  function Gallery(images: seq<Image>): seq<Image> {
    Sort(DisplayKey, Active(images))
  }

  function PublicKey(decision: Decision): Key {
    Key(if decision.primary then 0 else 1, decision.sortOrder, decision.pk)
  }

  function Published(decisions: seq<Decision>): seq<Decision> {
    if decisions == [] then []
    else
      var last := decisions[|decisions| - 1];
      Published(decisions[..|decisions| - 1]) + (if last.published then [last] else [])
  }

  /** The photos on the public page. */
  function PublicGallery(decisions: seq<Decision>): seq<Decision> {
    Sort(PublicKey, Published(decisions))
  }

  // ---------------------------------------------------------------- decisions

  function DecisionOn(decisions: seq<Decision>, image: nat): (at: Option<nat>)
    ensures at.Some? ==> at.value < |decisions| && decisions[at.value].image == image
    ensures at.None? ==> forall k :: 0 <= k < |decisions| ==> decisions[k].image != image
  {
    if decisions == [] then None
    else if decisions[|decisions| - 1].image == image then Some(|decisions| - 1)
    else DecisionOn(decisions[..|decisions| - 1], image)
  }

  predicate Precedes(a: Decision, b: Decision) {
    a.sortOrder < b.sortOrder || (a.sortOrder == b.sortOrder && a.pk < b.pk)
  }

  /** The published photo that comes first by sort order. */
  function FirstPublished(decisions: seq<Decision>): (at: Option<nat>)
    ensures at.Some? ==> at.value < |decisions| && decisions[at.value].published
    ensures at.Some? ==> forall k :: 0 <= k < |decisions| && decisions[k].published ==> !Precedes(decisions[k], decisions[at.value])
    ensures at.None? ==> forall k :: 0 <= k < |decisions| ==> !decisions[k].published
  {
    if decisions == [] then None
    else
      var before, last := FirstPublished(decisions[..|decisions| - 1]), decisions[|decisions| - 1];
      if last.published && (before.None? || Precedes(last, decisions[before.value])) then Some(|decisions| - 1) else before
  }

  predicate HasPrimary(decisions: seq<Decision>) {
    exists k :: 0 <= k < |decisions| && decisions[k].published && decisions[k].primary
  }

  function PromoteNext(decisions: seq<Decision>): seq<Decision> {
    var first := FirstPublished(decisions);
    if HasPrimary(decisions) || first.None? then decisions
    else decisions[first.value := decisions[first.value].(primary := true)]
  }

  function Publish(p: Photos, image: nat, readable: bool): (r: Result<Photos, Refusal>)
    ensures r.Ok? ==> image < |p.images| && r.value.images == p.images
  {
    if image >= |p.images| then Err(NotFound)
    else if !p.images[image].active then Err(Removed)
    else
      var at := DecisionOn(p.decisions, image);
      if !(at.Some? && p.decisions[at.value].published) && |Published(p.decisions)| >= MAX_PUBLISHED then Err(TooMany)
      else if !readable then Err(Unreadable)
      else Ok(p.(decisions := PromoteNext(Confirmed(p.decisions, at, image, p.images[image].sortOrder))))
  }

  function Confirmed(decisions: seq<Decision>, at: Option<nat>, image: nat, sortOrder: nat): seq<Decision>
    requires at.Some? ==> at.value < |decisions|
  {
    if at.None? then decisions + [Decision(|decisions|, image, true, false, sortOrder)]
    else decisions[at.value := decisions[at.value].(published := true, sortOrder := sortOrder)]
  }

  function Reject(p: Photos, image: nat): (r: Result<Photos, Refusal>)
    ensures r.Ok? <==> image < |p.images|
    ensures r.Ok? ==> r.value.images == p.images
  {
    if image >= |p.images| then Err(NotFound)
    else Ok(p.(decisions := PromoteNext(Withheld(p.decisions, DecisionOn(p.decisions, image), image))))
  }

  function Withheld(decisions: seq<Decision>, at: Option<nat>, image: nat): seq<Decision>
    requires at.Some? ==> at.value < |decisions|
  {
    if at.None? then decisions + [Decision(|decisions|, image, false, false, 0)]
    else decisions[at.value := decisions[at.value].(published := false, primary := false)]
  }

  /** Takes the public copy down with its source. */
  function Withdraw(p: Photos, image: nat): Photos {
    var at := DecisionOn(p.decisions, image);
    if at.Some? && p.decisions[at.value].published && image < |p.images| then Reject(p, image).value else p
  }

  function WithoutPrimary(decisions: seq<Decision>): (cleared: seq<Decision>)
    ensures |cleared| == |decisions|
  {
    seq(|decisions|, k requires 0 <= k < |decisions| => decisions[k].(primary := false))
  }

  function MadePrimary(decisions: seq<Decision>, at: nat): seq<Decision>
    requires at < |decisions|
  {
    var cleared := WithoutPrimary(decisions);
    cleared[at := cleared[at].(primary := true)]
  }

  function SetPublicPrimary(p: Photos, at: nat): Result<Photos, Refusal> {
    if at >= |p.decisions| then Err(NotFound)
    else if !p.decisions[at].published || p.decisions[at].primary then Ok(p)
    else Ok(p.(decisions := MadePrimary(p.decisions, at)))
  }

  // ---------------------------------------------------------------- internal images

  function AddImage(p: Photos, at: int): Photos {
    p.(images := p.images + [Image(|p.images|, at, 0, Active(p.images) == [], true)])
  }

  function SetPrimary(p: Photos, image: nat): Result<Photos, Refusal> {
    if image >= |p.images| then Err(NotFound)
    else if !p.images[image].active then Ok(p)
    else Ok(p.(images := seq(|p.images|, k requires 0 <= k < |p.images| => p.images[k].(primary := k == image))))
  }

  /** The active image that comes first on the card. */
  function FirstActive(images: seq<Image>): (at: Option<nat>)
    ensures at.Some? ==> at.value < |images| && images[at.value].active
    ensures at.Some? ==> forall k :: 0 <= k < |images| && images[k].active ==> !Before(DisplayKey(images[k]), DisplayKey(images[at.value]))
    ensures at.None? ==> forall k :: 0 <= k < |images| ==> !images[k].active
  {
    if images == [] then None
    else
      var before, last := FirstActive(images[..|images| - 1]), images[|images| - 1];
      if last.active && (before.None? || Before(DisplayKey(last), DisplayKey(images[before.value]))) then Some(|images| - 1)
      else before
  }

  function Deactivated(images: seq<Image>, image: nat): seq<Image>
    requires image < |images|
  {
    var removed := images[image := images[image].(active := false, primary := false)];
    var next := FirstActive(removed);
    if images[image].primary && next.Some? then removed[next.value := removed[next.value].(primary := true)] else removed
  }

  function Delete(p: Photos, image: nat): Result<Photos, Refusal> {
    if image >= |p.images| then Err(NotFound)
    else Ok(Withdraw(p.(images := Deactivated(p.images, image)), image))
  }

  // ---------------------------------------------------------------- the upload pipeline

  function UploadPrimary(p: Photos, upload: Upload): Result<Photos, Refusal> {
    if !upload.knownSource then Err(UnknownSource)
    else if !upload.valid then Err(InvalidUpload)
    else if Active(p.images) != [] || Published(p.decisions) != [] then Err(AlreadyHasPhoto)
    else Publish(p.(images := p.images + [Image(|p.images|, upload.at, 0, true, true)]), |p.images|, upload.readable)
  }

  /** One more than the largest sort order in use, starting from zero. */
  function NextSortOrder(active: seq<Image>): (next: nat)
    ensures forall k :: 0 <= k < |active| ==> active[k].sortOrder < next
    ensures active != [] ==> exists k :: 0 <= k < |active| && active[k].sortOrder == next - 1
    ensures active == [] ==> next == 0
  {
    if active == [] then 0 else Max(NextSortOrder(active[..|active| - 1]), active[|active| - 1].sortOrder + 1)
  }

  function Appended(p: Photos, at: int): Photos {
    var active := Active(p.images);
    p.(images := p.images + [Image(|p.images|, at, NextSortOrder(active), active == [], true)])
  }

  function UploadAdditional(p: Photos, upload: Upload): Result<Photos, Refusal> {
    if !upload.knownSource then Err(UnknownSource)
    else if !upload.valid then Err(InvalidUpload)
    else Publish(Appended(p, upload.at), |p.images|, upload.readable)
  }

  function PlaceIn(order: seq<nat>, pk: nat): (at: Option<nat>)
    ensures at.Some? ==> at.value < |order| && order[at.value] == pk
    ensures at.None? ==> pk !in order
  {
    if order == [] then None
    else if order[|order| - 1] == pk then Some(|order| - 1)
    else PlaceIn(order[..|order| - 1], pk)
  }

  function NumberedImage(image: Image, order: seq<nat>): Image {
    match PlaceIn(order, image.pk)
    case None => image
    case Some(position) => image.(sortOrder := position)
  }

  function NumberedDecision(decision: Decision, order: seq<nat>): Decision {
    match PlaceIn(order, decision.image)
    case None => decision
    case Some(position) => decision.(sortOrder := position)
  }

  /** Every image named in the order gets its place there as sort order, and so does the decision on it. */
  function Renumbered(p: Photos, order: seq<nat>): Photos {
    Photos(
      seq(|p.images|, k requires 0 <= k < |p.images| => NumberedImage(p.images[k], order)),
      seq(|p.decisions|, k requires 0 <= k < |p.decisions| => NumberedDecision(p.decisions[k], order)))
  }

  function Pks(images: seq<Image>): (pks: seq<nat>)
    ensures |pks| == |images| && forall k :: 0 <= k < |images| ==> pks[k] == images[k].pk
  {
    seq(|images|, k requires 0 <= k < |images| => images[k].pk)
  }

  /** The replacement stands beside its target, in the target's slot, and everything is numbered anew. */
  function Prepared(p: Photos, target: nat, position: nat, at: int): Photos
    requires target < |p.images| && position < |Gallery(p.images)|
  {
    var image := p.images[target];
    var added := p.images[target := image.(primary := false)] + [Image(|p.images|, at, image.sortOrder, image.primary, true)];
    Renumbered(p.(images := added), Pks(Gallery(p.images))[position := |p.images|])
  }

  predicate IsPublic(p: Photos, image: nat) {
    var at := DecisionOn(p.decisions, image);
    at.Some? && p.decisions[at.value].published
  }

  predicate IsPublicPrimary(p: Photos, image: nat) {
    var at := DecisionOn(p.decisions, image);
    at.Some? && p.decisions[at.value].published && p.decisions[at.value].primary
  }

  function TakeOverPrimary(p: Photos, image: nat): Photos {
    var at := DecisionOn(p.decisions, image);
    if at.None? then p else p.(decisions := MadePrimary(p.decisions, at.value))
  }

  function Retired(p: Photos, target: nat): Photos
    requires target < |p.images|
  {
    p.(images := p.images[target := p.images[target].(active := false, primary := false)])
  }

  function Replace(p: Photos, target: nat, upload: Upload): Result<Photos, Refusal> {
    if !upload.knownSource then Err(UnknownSource)
    else if !upload.valid then Err(InvalidUpload)
    else
      var position := PlaceIn(Pks(Gallery(p.images)), target);
      if target >= |p.images| || position.None? then Err(NotFound)
      else
        var published := Publish(Prepared(p, target, position.value, upload.at), |p.images|, upload.readable);
        if published.Err? then published
        else
          var led := if IsPublicPrimary(p, target) then TakeOverPrimary(published.value, |p.images|) else published.value;
          Ok(Retired(if IsPublic(p, target) then Reject(led, target).value else led, target))
  }
}

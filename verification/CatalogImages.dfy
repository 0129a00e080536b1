/** The image reconciler of catalog_services.py: the product's images are made to match a payload
    row by row, and each row's sync status says what the remote shop still has to be told. */
module CatalogImages {
  import opened Wrappers

  type Id = nat

  datatype Error = ForeignVariant | ExternalIdConflict

  datatype Sync = PendingAdd | PendingUpdate | PendingRemove | Synced | OtherStatus(name: string)

  datatype Image = Image(product: Id, variant: Option<Id>, externalId: Option<string>, url: string,
                         name: Option<string>, altText: Option<string>, sortOrder: nat, sync: Sync)

  datatype Gallery = Gallery(images: map<Id, Image>, nextId: Id)

  datatype Payload = Payload(id: Option<Id>, variant: Option<Id>, externalId: Option<string>, url: string,
                             name: Option<string>, altText: Option<string>, sortOrder: nat)

  function ImagesOf(g: Gallery, product: Id): set<Id> {
    set i | i in g.images && g.images[i].product == product
  }

  /** product_images: the rows that are not on their way out. */
  function Visible(g: Gallery, product: Id): set<Id> {
    set i | i in g.images && g.images[i].product == product && !g.images[i].sync.PendingRemove?
  }

  /** The four fields the remote shop stores. */
  predicate RemoteChanged(prior: Image, p: Payload) {
    prior.url != p.url || prior.name != p.name || prior.altText != p.altText || prior.sortOrder != p.sortOrder
  }

  /** The status after a row takes the payload; `prior` is None for a row just created. */
  function NextSync(prior: Option<Image>, p: Payload): Sync {
    if !Given(p.externalId) then PendingAdd
    else if prior.None? || RemoteChanged(prior.value, p) || !Given(prior.value.externalId) then PendingUpdate
    else if prior.value.sync.PendingRemove? then PendingUpdate
    else if prior.value.sync.PendingAdd? || prior.value.sync.PendingUpdate? then prior.value.sync
    else Synced
  }

  function Written(product: Id, prior: Option<Image>, p: Payload): Image {
    Image(product, p.variant, p.externalId, p.url, p.name, p.altText, p.sortOrder, NextSync(prior, p))
  }

  /** The table's unique constraint on (product, external id) fires when the row is flushed. */
  predicate Conflicts(g: Gallery, product: Id, row: Id, externalId: Option<string>) {
    externalId.Some? && exists i :: i in g.images && i != row && g.images[i].product == product && g.images[i].externalId == externalId
  }

  datatype Walk = Walk(gallery: Gallery, ids: seq<Id>)

  function Target(existing: set<Id>, p: Payload): Option<Id> {
    if p.id.Some? && p.id.value in existing then p.id else None
  }

  function WriteImage(w: Walk, product: Id, variants: set<Id>, existing: set<Id>, p: Payload): Result<Walk, Error>
    requires existing <= w.gallery.images.Keys
  {
    var g, target := w.gallery, Target(existing, p);
    var row := if target.Some? then target.value else g.nextId;
    var prior := if target.Some? then Some(g.images[row]) else None;
    if p.variant.Some? && p.variant.value !in variants then Failure(ForeignVariant)
    else if Conflicts(g, product, row, p.externalId) then Failure(ExternalIdConflict)
    else
      Success(Walk(Gallery(g.images[row := Written(product, prior, p)],
                           if target.Some? then g.nextId else g.nextId + 1),
                   w.ids + [row]))
  }

  function WriteImages(g: Gallery, product: Id, variants: set<Id>, existing: set<Id>, payload: seq<Payload>)
    : (r: Result<Walk, Error>)
    requires existing <= g.images.Keys
    ensures r.Success? ==> existing <= r.value.gallery.images.Keys
  {
    if payload == [] then Success(Walk(g, []))
    else
      var n := |payload| - 1;
      var w :- WriteImages(g, product, variants, existing, payload[..n]);
      WriteImage(w, product, variants, existing, payload[n])
  }

  /** Rows of the product that the payload did not keep: marked for removal when the remote shop
      knows them, otherwise deleted. */
  function DropRows(g: Gallery, dropped: set<Id>): Gallery {
    g.(images := map i | i in g.images && !(i in dropped && !Given(g.images[i].externalId)) ::
      if i in dropped then g.images[i].(sync := PendingRemove) else g.images[i])
  }

  /** replace_product_images. `variants` are the product's variants. */
  function ReplaceImages(g: Gallery, product: Id, variants: set<Id>, payload: seq<Payload>): Result<Walk, Error> {
    var existing := ImagesOf(g, product);
    var w :- WriteImages(g, product, variants, existing, payload);
    Success(w.(gallery := DropRows(w.gallery, existing - set i | i in w.ids)))
  }

  // ----- the table -----

  class ImageTable {
    var images: map<Id, Image>
    var nextId: Id

    function Contents(): Gallery
      reads this
    {
      Gallery(images, nextId)
    }

    /** The request; a refusal rolls the table back. */
    method ReplaceProductImages(product: Id, variants: set<Id>, payload: seq<Payload>) returns (outcome: Result<seq<Id>, Error>)
      modifies this
      ensures match ReplaceImages(old(Contents()), product, variants, payload)
              case Success(w) => outcome == Success(w.ids) && Contents() == w.gallery
              case Failure(e) => outcome == Failure(e) && Contents() == old(Contents())
    {
      var existing := ImagesOf(Contents(), product);
      var saved := Contents();
      var ids: seq<Id> := [];
      for i := 0 to |payload|
        invariant existing <= images.Keys
        invariant WriteImages(saved, product, variants, existing, payload[..i]) == Success(Walk(Contents(), ids))
      {
        var p := payload[i];
        assert payload[..i + 1][..i] == payload[..i];
        if p.variant.Some? && p.variant.value !in variants {
          WriteFailureSticks(saved, product, variants, existing, payload, i + 1);
          images, nextId := saved.images, saved.nextId;
          return Failure(ForeignVariant);
        }
        var target := Target(existing, p);
        var row := if target.Some? then target.value else nextId;
        if Conflicts(Contents(), product, row, p.externalId) {
          WriteFailureSticks(saved, product, variants, existing, payload, i + 1);
          images, nextId := saved.images, saved.nextId;
          return Failure(ExternalIdConflict);
        }
        if target.Some? {
          images := images[row := Written(product, Some(images[row]), p)];
        } else {
          images := images[row := Written(product, None, p)];
          nextId := nextId + 1;
        }
        ids := ids + [row];
      }
      assert payload[..|payload|] == payload;
      images := DropRows(Contents(), existing - set i | i in ids).images;
      outcome := Success(ids);
    }
  }

  lemma {:induction false} WriteFailureSticks(g: Gallery, product: Id, variants: set<Id>, existing: set<Id>, payload: seq<Payload>, n: nat)
    requires existing <= g.images.Keys && n <= |payload|
    requires WriteImages(g, product, variants, existing, payload[..n]).Failure?
    ensures WriteImages(g, product, variants, existing, payload) == WriteImages(g, product, variants, existing, payload[..n])
  {
    if n < |payload| {
      assert payload[..|payload| - 1][..n] == payload[..n];
      WriteFailureSticks(g, product, variants, existing, payload[..|payload| - 1], n);
    } else {
      assert payload[..n] == payload;
    }
  }

  // ----- what a replacement leaves -----

  predicate SameExternal(a: Image, b: Image) {
    a.product == b.product && a.externalId.Some? && a.externalId == b.externalId
  }

  /** The schema: row ids are older than the next one and external ids are unique per product. */
  ghost predicate Schema(g: Gallery) {
    && (forall i :: i in g.images ==> i < g.nextId)
    && forall i, j :: i in g.images && j in g.images && i != j ==> !SameExternal(g.images[i], g.images[j])
  }

  /** No two payload entries name the same existing row. */
  ghost predicate DistinctRows(existing: set<Id>, payload: seq<Payload>) {
    forall i, j :: 0 <= i < j < |payload| && Target(existing, payload[i]).Some? ==>
      Target(existing, payload[i]) != Target(existing, payload[j])
  }

  function PriorOf(g: Gallery, existing: set<Id>, p: Payload): Option<Image>
    requires existing <= g.images.Keys
  {
    if Target(existing, p).Some? then Some(g.images[p.id.value]) else None
  }

  /** Progress through the payload: each entry's row holds the entry, computed from the row as it
      was before the request; every other row is as it was. */
  ghost predicate Wrote(g: Gallery, w: Walk, product: Id, existing: set<Id>, payload: seq<Payload>)
    requires existing <= g.images.Keys
  {
    && |w.ids| == |payload|
    && g.nextId <= w.gallery.nextId && Schema(w.gallery)
    && (forall i, j :: 0 <= i < j < |w.ids| ==> w.ids[i] != w.ids[j])
    && (forall i :: 0 <= i < |payload| ==>
          if Target(existing, payload[i]).Some? then w.ids[i] == payload[i].id.value else w.ids[i] >= g.nextId)
    && (forall i :: 0 <= i < |payload| ==>
          w.ids[i] in w.gallery.images && w.gallery.images[w.ids[i]] == Written(product, PriorOf(g, existing, payload[i]), payload[i]))
    && (forall r :: r in w.gallery.images <==> r in g.images || r in w.ids)
    && (forall r :: r in g.images && r !in w.ids ==> w.gallery.images[r] == g.images[r])
  }

  lemma WroteOneMore(g: Gallery, w: Walk, product: Id, variants: set<Id>, existing: set<Id>, payload: seq<Payload>, p: Payload)
    requires Schema(g) && existing == ImagesOf(g, product)
    requires Wrote(g, w, product, existing, payload) && existing <= w.gallery.images.Keys
    requires DistinctRows(existing, payload + [p])
    requires WriteImage(w, product, variants, existing, p).Success?
    ensures Wrote(g, WriteImage(w, product, variants, existing, p).value, product, existing, payload + [p])
  {
    var n, more := |payload|, WriteImage(w, product, variants, existing, p).value;
    var all, row := payload + [p], more.ids[n];
    assert more.ids == w.ids + [row];
    assert all[n] == p && forall i :: 0 <= i < n ==> all[i] == payload[i];
    assert row !in w.ids;
    SchemaAfterWrite(w.gallery, product, row, more.gallery.images[row], more.gallery.nextId);
  }

  /** Writing a row whose external id conflicts with no other keeps the schema. */
  lemma SchemaAfterWrite(g: Gallery, product: Id, row: Id, image: Image, nextId: Id)
    requires Schema(g) && row < nextId && g.nextId <= nextId
    requires image.product == product && !Conflicts(g, product, row, image.externalId)
    ensures Schema(Gallery(g.images[row := image], nextId))
  {
  }

  lemma {:induction false} WriteImagesWrote(g: Gallery, product: Id, variants: set<Id>, existing: set<Id>, payload: seq<Payload>)
    requires Schema(g) && existing == ImagesOf(g, product) && DistinctRows(existing, payload)
    requires WriteImages(g, product, variants, existing, payload).Success?
    ensures Wrote(g, WriteImages(g, product, variants, existing, payload).value, product, existing, payload)
  {
    if payload != [] {
      var n := |payload| - 1;
      assert payload == payload[..n] + [payload[n]];
      WriteImagesWrote(g, product, variants, existing, payload[..n]);
      WroteOneMore(g, WriteImages(g, product, variants, existing, payload[..n]).value, product, variants, existing, payload[..n], payload[n]);
    }
  }

  predicate Carries(image: Image, p: Payload) {
    && image.variant == p.variant && image.externalId == p.externalId && image.url == p.url
    && image.name == p.name && image.altText == p.altText && image.sortOrder == p.sortOrder
  }

  /** A row is reported as synced exactly when the remote shop knew it and still does, nothing was
      waiting to be sent for it, and none of its four remote fields changed. */
  ghost predicate SyncedHonestly(g: Gallery, after: Image, product: Id, p: Payload) {
    after.sync.Synced? <==>
      var target := Target(ImagesOf(g, product), p);
      && Given(p.externalId) && target.Some?
      && var prior := g.images[target.value];
         && Given(prior.externalId) && !RemoteChanged(prior, p)
         && !prior.sync.PendingAdd? && !prior.sync.PendingUpdate? && !prior.sync.PendingRemove?
  }

  /** A written row waits to be added to the remote shop when the payload names no external id, and
      stays so while nothing else about it changed; otherwise it waits for an update unless synced. */
  ghost predicate PendingHonestly(g: Gallery, after: Image, product: Id, p: Payload) {
    var target := Target(ImagesOf(g, product), p);
    && (after.sync.PendingAdd? <==>
          !Given(p.externalId)
          || (&& target.Some? && Given(g.images[target.value].externalId) && !RemoteChanged(g.images[target.value], p)
              && g.images[target.value].sync.PendingAdd?))
    && (after.sync.PendingAdd? || after.sync.PendingUpdate? || after.sync.Synced?)
  }

  /** The rows the payload was written to: exactly the visible ones, each carrying its entry. */
  ghost predicate KeptCarryPayload(g: Gallery, w: Walk, product: Id, payload: seq<Payload>) {
    && |w.ids| == |payload|
    && Visible(w.gallery, product) == (set i | i in w.ids)
    && forall i :: 0 <= i < |payload| ==>
         && w.ids[i] in w.gallery.images && Carries(w.gallery.images[w.ids[i]], payload[i])
         && SyncedHonestly(g, w.gallery.images[w.ids[i]], product, payload[i])
         && PendingHonestly(g, w.gallery.images[w.ids[i]], product, payload[i])
  }

  /** Every other row: other products' rows as they were; a dropped row with an external id marked
      for removal, one without gone. */
  ghost predicate OthersDropped(g: Gallery, w: Walk, product: Id) {
    && (forall r :: r in g.images && r !in w.ids ==>
          if g.images[r].product != product then r in w.gallery.images && w.gallery.images[r] == g.images[r]
          else if Given(g.images[r].externalId) then
            r in w.gallery.images && w.gallery.images[r] == g.images[r].(sync := PendingRemove)
          else r !in w.gallery.images)
    && (forall r :: r in w.gallery.images ==> r in g.images || r in w.ids)
  }

  lemma WrittenCarries(g: Gallery, product: Id, p: Payload)
    ensures var image := Written(product, PriorOf(g, ImagesOf(g, product), p), p);
      && Carries(image, p) && image.product == product && !image.sync.PendingRemove?
      && SyncedHonestly(g, image, product, p) && PendingHonestly(g, image, product, p)
  {
  }

  lemma DropKeepsWritten(g: Gallery, w: Walk, product: Id, payload: seq<Payload>, existing: set<Id>)
    requires existing == ImagesOf(g, product) && Wrote(g, w, product, existing, payload)
    ensures var after := DropRows(w.gallery, existing - set i | i in w.ids);
      && KeptCarryPayload(g, Walk(after, w.ids), product, payload)
      && forall i :: 0 <= i < |payload| ==> after.images[w.ids[i]] == w.gallery.images[w.ids[i]]
  {
    var kept := set i | i in w.ids;
    var after := DropRows(w.gallery, existing - kept);
    forall i | 0 <= i < |payload|
      ensures w.ids[i] in after.images && after.images[w.ids[i]] == w.gallery.images[w.ids[i]]
      ensures Carries(after.images[w.ids[i]], payload[i]) && SyncedHonestly(g, after.images[w.ids[i]], product, payload[i])
      ensures PendingHonestly(g, after.images[w.ids[i]], product, payload[i])
      ensures w.ids[i] in Visible(after, product)
    {
      assert w.ids[i] in kept;
      WrittenCarries(g, product, payload[i]);
    }
    VisibleAreKept(g, w, product, payload, existing, after);
  }

  lemma VisibleAreKept(g: Gallery, w: Walk, product: Id, payload: seq<Payload>, existing: set<Id>, after: Gallery)
    requires existing == ImagesOf(g, product) && Wrote(g, w, product, existing, payload)
    requires after == DropRows(w.gallery, existing - set i | i in w.ids)
    requires forall i :: 0 <= i < |payload| ==> w.ids[i] in Visible(after, product)
    ensures Visible(after, product) == (set i | i in w.ids)
  {
    forall r ensures r in Visible(after, product) <==> r in w.ids {
      if r in w.ids {
        var i :| 0 <= i < |w.ids| && w.ids[i] == r;
      }
    }
  }

  lemma DropMarksOthers(g: Gallery, w: Walk, product: Id, payload: seq<Payload>, existing: set<Id>)
    requires existing == ImagesOf(g, product) && Wrote(g, w, product, existing, payload)
    ensures OthersDropped(g, Walk(DropRows(w.gallery, existing - set i | i in w.ids), w.ids), product)
    ensures Schema(DropRows(w.gallery, existing - set i | i in w.ids))
  {
  }

  /** With distinct row ids, the visible images afterwards are exactly the payload's; a dropped row
      with an external id survives as pending removal and one without is gone; other products keep
      their rows. */
  lemma ReplacementLeavesThePayload(g: Gallery, product: Id, variants: set<Id>, payload: seq<Payload>)
    requires Schema(g) && DistinctRows(ImagesOf(g, product), payload)
    requires ReplaceImages(g, product, variants, payload).Success?
    ensures var w := ReplaceImages(g, product, variants, payload).value;
      Schema(w.gallery) && KeptCarryPayload(g, w, product, payload) && OthersDropped(g, w, product)
  {
    var existing := ImagesOf(g, product);
    WriteImagesWrote(g, product, variants, existing, payload);
    var w := WriteImages(g, product, variants, existing, payload).value;
    DropKeepsWritten(g, w, product, payload, existing);
    DropMarksOthers(g, w, product, payload, existing);
  }

  // ----- which payloads are accepted -----

  /** Entry i can be written: its variant is the product's, and its external id is not that of an
      earlier entry, nor of a row that neither it nor an earlier entry rewrites. */
  ghost predicate EntryFits(g: Gallery, product: Id, variants: set<Id>, payload: seq<Payload>, i: nat)
    requires i < |payload|
  {
    var p, existing := payload[i], ImagesOf(g, product);
    && (p.variant.Some? ==> p.variant.value in variants)
    && (p.externalId.Some? ==>
          && (forall j :: 0 <= j < i ==> payload[j].externalId != p.externalId)
          && forall r :: r in existing && g.images[r].externalId == p.externalId ==>
               exists j :: 0 <= j <= i && Target(existing, payload[j]) == Some(r))
  }

  ghost predicate AllFit(g: Gallery, product: Id, variants: set<Id>, payload: seq<Payload>) {
    forall i :: 0 <= i < |payload| ==> EntryFits(g, product, variants, payload, i)
  }

  lemma RowsWritten(g: Gallery, w: Walk, product: Id, existing: set<Id>, payload: seq<Payload>, n: nat, r: Id)
    requires n < |payload| && Schema(g) && existing == ImagesOf(g, product) && Wrote(g, w, product, existing, payload[..n])
    requires r in existing
    ensures r in w.ids <==> exists j :: 0 <= j < n && Target(existing, payload[j]) == Some(r)
  {
    if r in w.ids {
      var j :| 0 <= j < n && w.ids[j] == r;
      assert Target(existing, payload[..n][j]).Some?;
    }
    if j :| 0 <= j < n && Target(existing, payload[j]) == Some(r) {
      assert Target(existing, payload[..n][j]) == Some(r) && w.ids[j] == r;
    }
  }

  lemma ConflictIff(g: Gallery, w: Walk, product: Id, existing: set<Id>, payload: seq<Payload>, n: nat)
    requires n < |payload| && Schema(g) && existing == ImagesOf(g, product) && DistinctRows(existing, payload)
    requires Wrote(g, w, product, existing, payload[..n]) && payload[n].externalId.Some?
    ensures var target, e := Target(existing, payload[n]), payload[n].externalId;
      Conflicts(w.gallery, product, if target.Some? then target.value else w.gallery.nextId, e)
      <==> (exists j :: 0 <= j < n && payload[j].externalId == e)
           || exists r :: r in existing && g.images[r].externalId == e && forall j :: 0 <= j <= n ==> Target(existing, payload[j]) != Some(r)
  {
    var target, e := Target(existing, payload[n]), payload[n].externalId;
    var row := if target.Some? then target.value else w.gallery.nextId;
    forall r | r in existing ensures r in w.ids <==> exists j :: 0 <= j < n && Target(existing, payload[j]) == Some(r) {
      RowsWritten(g, w, product, existing, payload, n, r);
    }
    if i :| i in w.gallery.images && i != row && w.gallery.images[i].product == product && w.gallery.images[i].externalId == e {
      if i in w.ids {
        var j :| 0 <= j < n && w.ids[j] == i;
        assert w.gallery.images[w.ids[j]] == Written(product, PriorOf(g, existing, payload[..n][j]), payload[..n][j]);
        assert payload[j].externalId == e;
      } else {
        assert i in existing && g.images[i].externalId == e;
      }
    }
    if j :| 0 <= j < n && payload[j].externalId == e {
      assert w.gallery.images[w.ids[j]] == Written(product, PriorOf(g, existing, payload[..n][j]), payload[..n][j]);
      WrittenElsewhere(g, w, product, existing, payload, n, j);
    }
    if r :| r in existing && g.images[r].externalId == e && forall j :: 0 <= j <= n ==> Target(existing, payload[j]) != Some(r) {
      assert r !in w.ids && r != row && w.gallery.images[r] == g.images[r];
    }
  }

  lemma WrittenElsewhere(g: Gallery, w: Walk, product: Id, existing: set<Id>, payload: seq<Payload>, n: nat, j: nat)
    requires j < n < |payload| && Schema(g) && existing == ImagesOf(g, product) && DistinctRows(existing, payload)
    requires Wrote(g, w, product, existing, payload[..n])
    ensures w.ids[j] in w.gallery.images && w.ids[j] < w.gallery.nextId
    ensures Some(w.ids[j]) != Target(existing, payload[n])
  {
    assert payload[..n][j] == payload[j];
    if Target(existing, payload[j]).Some? {
      assert Target(existing, payload[j]) != Target(existing, payload[n]);
    }
  }

  lemma FitsPrefix(g: Gallery, product: Id, variants: set<Id>, payload: seq<Payload>)
    requires payload != []
    ensures AllFit(g, product, variants, payload)
       <==> AllFit(g, product, variants, payload[..|payload| - 1]) && EntryFits(g, product, variants, payload, |payload| - 1)
  {
    var n := |payload| - 1;
    forall i | 0 <= i < n
      ensures EntryFits(g, product, variants, payload[..n], i) <==> EntryFits(g, product, variants, payload, i)
    {
      assert forall j :: 0 <= j <= i ==> payload[..n][j] == payload[j];
    }
  }

  lemma NextImageIff(g: Gallery, w: Walk, product: Id, variants: set<Id>, existing: set<Id>, payload: seq<Payload>, n: nat)
    requires n < |payload| && Schema(g) && existing == ImagesOf(g, product) && DistinctRows(existing, payload)
    requires Wrote(g, w, product, existing, payload[..n]) && existing <= w.gallery.images.Keys
    ensures WriteImage(w, product, variants, existing, payload[n]).Success? <==> EntryFits(g, product, variants, payload, n)
  {
    if payload[n].externalId.Some? {
      ConflictIff(g, w, product, existing, payload, n);
    }
  }

  /** With distinct row ids, a payload is accepted if and only if every entry fits. */
  lemma {:induction false} ReplacementIff(g: Gallery, product: Id, variants: set<Id>, payload: seq<Payload>)
    requires Schema(g) && DistinctRows(ImagesOf(g, product), payload)
    ensures ReplaceImages(g, product, variants, payload).Success? <==> AllFit(g, product, variants, payload)
  {
    if payload != [] {
      var n, existing := |payload| - 1, ImagesOf(g, product);
      ReplacementIff(g, product, variants, payload[..n]);
      FitsPrefix(g, product, variants, payload);
      if WriteImages(g, product, variants, existing, payload[..n]).Success? {
        WriteImagesWrote(g, product, variants, existing, payload[..n]);
        NextImageIff(g, WriteImages(g, product, variants, existing, payload[..n]).value, product, variants, existing, payload, n);
      }
    }
  }

  // ----- reapplying -----

  /** The same payload, each entry naming the row it was written to. */
  function Renamed(payload: seq<Payload>, ids: seq<Id>): (r: seq<Payload>)
    requires |ids| == |payload|
    ensures |r| == |payload| && forall i :: 0 <= i < |r| ==> r[i] == payload[i].(id := Some(ids[i]))
  {
    seq(|payload|, i requires 0 <= i < |payload| => payload[i].(id := Some(ids[i])))
  }

  /** A written row is a fixed point: taking the same payload again does not change it. */
  lemma WrittenIsStable(product: Id, prior: Option<Image>, p: Payload, id: Option<Id>)
    ensures Written(product, Some(Written(product, prior, p)), p.(id := id)) == Written(product, prior, p)
  {
  }

  lemma {:induction false} VariantsWereValid(g: Gallery, product: Id, variants: set<Id>, existing: set<Id>, payload: seq<Payload>)
    requires existing <= g.images.Keys
    requires WriteImages(g, product, variants, existing, payload).Success?
    ensures forall i :: 0 <= i < |payload| && payload[i].variant.Some? ==> payload[i].variant.value in variants
  {
    if payload != [] {
      VariantsWereValid(g, product, variants, existing, payload[..|payload| - 1]);
    }
  }

  ghost predicate Settled(g: Gallery, product: Id, variants: set<Id>, payload: seq<Payload>) {
    && (forall i :: 0 <= i < |payload| ==>
          && payload[i].id.Some? && payload[i].id.value in ImagesOf(g, product)
          && g.images[payload[i].id.value] == Written(product, Some(g.images[payload[i].id.value]), payload[i]))
    && (forall i :: 0 <= i < |payload| && payload[i].variant.Some? ==> payload[i].variant.value in variants)
  }

  lemma {:induction false} RewritingChangesNothing(g: Gallery, product: Id, variants: set<Id>, payload: seq<Payload>, ids: seq<Id>)
    requires Schema(g) && Settled(g, product, variants, payload)
    requires |ids| == |payload| && forall i :: 0 <= i < |ids| ==> payload[i].id == Some(ids[i])
    ensures WriteImages(g, product, variants, ImagesOf(g, product), payload) == Success(Walk(g, ids))
  {
    if payload != [] {
      var n := |payload| - 1;
      RewritingChangesNothing(g, product, variants, payload[..n], ids[..n]);
      assert g.images[ids[n] := g.images[ids[n]]] == g.images;
      assert ids == ids[..n] + [ids[n]];
    }
  }

  lemma DroppingAgainChangesNothing(g: Gallery, dropped: set<Id>)
    requires forall r :: r in dropped ==> r in g.images && Given(g.images[r].externalId) && g.images[r].sync.PendingRemove?
    ensures DropRows(g, dropped) == g
  {
    assert DropRows(g, dropped).images == g.images;
  }

  /** Reapplying the payload with the resulting ids changes nothing. */
  lemma ReapplyingChangesNothing(g: Gallery, product: Id, variants: set<Id>, payload: seq<Payload>)
    requires Schema(g) && DistinctRows(ImagesOf(g, product), payload)
    requires ReplaceImages(g, product, variants, payload).Success?
    ensures var w := ReplaceImages(g, product, variants, payload).value;
      |w.ids| == |payload| && ReplaceImages(w.gallery, product, variants, Renamed(payload, w.ids)) == Success(w)
  {
    var w := ReplaceImages(g, product, variants, payload).value;
    var existing := ImagesOf(g, product);
    ReplacementLeavesThePayload(g, product, variants, payload);
    WriteImagesWrote(g, product, variants, existing, payload);
    DropKeepsWritten(g, WriteImages(g, product, variants, existing, payload).value, product, payload, existing);
    VariantsWereValid(g, product, variants, existing, payload);
    var again := Renamed(payload, w.ids);
    forall i | 0 <= i < |payload|
      ensures w.ids[i] in ImagesOf(w.gallery, product)
      ensures w.gallery.images[w.ids[i]] == Written(product, Some(w.gallery.images[w.ids[i]]), again[i])
    {
      assert w.ids[i] in Visible(w.gallery, product);
      WrittenIsStable(product, PriorOf(g, existing, payload[i]), payload[i], Some(w.ids[i]));
    }
    RewritingChangesNothing(w.gallery, product, variants, again, w.ids);
    DroppingAgainChangesNothing(w.gallery, ImagesOf(w.gallery, product) - set i | i in w.ids);
  }
}

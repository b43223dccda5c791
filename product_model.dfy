/** The product entity (products_model.go): its record, the soft-delete state
    machine, the constructor from a request and the response projection; and
    the image record that belongs to a product. */
module ProductModel {
  import opened Common

  /** The fields of a product, as a value. */
  datatype ProductRecord = ProductRecord(
    productId: Uuid,
    productName: string,
    variantId: Uuid,
    brandId: Uuid,
    price: Float64,
    stock: int,
    status: string,
    imageUrl: string,
    createdAt: Time,
    createdBy: Uuid,
    updatedAt: NullTime,
    updatedBy: NullUuid,
    deleted: NullTime,
    deletedBy: NullUuid)
  {
    /** Product.IsDeleted: a product is deleted when both deletion fields
        are set. */
    predicate IsDeleted()
    {
      deleted.Some? && deletedBy.Some?
    }

    /** Product.ToResponseFormat: seven fields copied; `updatedBy` and
        `deletedBy` are never filled in, whatever the product holds. */
    function ToResponseFormat(): (r: ProductResponseFormat)
      ensures r.id == productId && r.variantId == variantId && r.productName == productName
      ensures r.created == createdAt && r.createdBy == createdBy
      ensures r.updated == updatedAt && r.deleted == deleted
      ensures r.updatedBy.None? && r.deletedBy.None?
    {
      ProductResponseFormat(productId, variantId, productName, createdAt, createdBy,
                            updatedAt, None, deleted, None)
    }
  }

  /** The zero Product value. */
  const ZeroProduct := ProductRecord(NilUuid, "", NilUuid, NilUuid, Float64(0), 0, "", "", ZeroTime, NilUuid,
                                     None, None, None, None)

  const AlreadyDeleted := Conflict("softDelete", "foo", "already marked as deleted")

  /** What SoftDelete does to a product's fields: refuse a deleted product,
      otherwise stamp both deletion fields. */
  function SoftDeleted(p: ProductRecord, id: Uuid, now: Time): (Outcome, ProductRecord)
  {
    if p.IsDeleted() then (Err(AlreadyDeleted), p)
    else (Nil, p.(deleted := Some(now), deletedBy := Some(id)))
  }

  /** The state machine in one statement: SoftDelete succeeds exactly on a
      live product; success sets `deleted` to the clock reading and
      `deletedBy` to the caller and touches no other field; refusal is
      Conflict and changes nothing. */
  lemma SoftDeleteSpec(p: ProductRecord, id: Uuid, now: Time)
    ensures var (err, q) := SoftDeleted(p, id, now);
            && (err == Nil <==> !p.IsDeleted())
            && (err != Nil ==> err == Err(AlreadyDeleted) && q == p)
            && (err == Nil ==> q.IsDeleted() && q.deleted == Some(now) && q.deletedBy == Some(id)
                               && q.(deleted := p.deleted, deletedBy := p.deletedBy) == p)
  {
  }

  /** A soft-deleted product cannot be soft-deleted again: the second call is
      refused and leaves the first call's stamps in place. */
  lemma SoftDeleteOnce(p: ProductRecord, id1: Uuid, now1: Time, id2: Uuid, now2: Time)
    requires SoftDeleted(p, id1, now1).0 == Nil
    ensures var q := SoftDeleted(p, id1, now1).1;
            SoftDeleted(q, id2, now2) == (Err(AlreadyDeleted), q)
  {
  }

  /** The deleted products are exactly the results of a successful
      SoftDelete: each of them is what stamping its own deletion fields onto
      a live product gives. */
  lemma DeletedExactlyWhenSoftDeleted(q: ProductRecord)
    ensures q.IsDeleted() <==> exists p, id, now :: SoftDeleted(p, id, now) == (Nil, q)
  {
    if q.IsDeleted() {
      var p := q.(deleted := None, deletedBy := None);
      assert SoftDeleted(p, q.deletedBy.value, q.deleted.value) == (Nil, q);
    }
  }

  /** A product with only one of the two deletion fields set counts as live,
      and SoftDelete overwrites both. */
  lemma HalfDeletedIsLive(p: ProductRecord, id: Uuid, now: Time)
    requires p.deleted.Some? != p.deletedBy.Some?
    ensures !p.IsDeleted()
    ensures SoftDeleted(p, id, now).1.deleted == Some(now)
    ensures SoftDeleted(p, id, now).1.deletedBy == Some(id)
  {
  }

  /** products.ProductRequestFormat. */
  datatype ProductRequestFormat = ProductRequestFormat(productName: string, variantId: Uuid)

  /** Product.NewFromRequestFormat. The `productID` argument is overwritten
      with `freshId` (uuid.NewV4) before use; `now` is time.Now. */
  function NewFromRequestFormat(req: ProductRequestFormat, productID: Uuid, freshId: Uuid, now: Time): (r: (ProductRecord, Outcome))
    ensures r.1 == Nil
    ensures r.0.productId == freshId && r.0.createdBy == r.0.productId
    ensures r.0.productName == req.productName && r.0.variantId == req.variantId
    ensures r.0.createdAt == now
    ensures r.0.(productId := NilUuid, productName := "", variantId := NilUuid, createdAt := ZeroTime, createdBy := NilUuid)
            == ZeroProduct
  {
    (ZeroProduct.(productId := freshId, productName := req.productName, variantId := req.variantId,
                  createdAt := now, createdBy := freshId), Nil)
  }

  /** The identity passed in has no effect on the new product. */
  lemma NewProductIgnoresIdArgument(req: ProductRequestFormat, id1: Uuid, id2: Uuid, freshId: Uuid, now: Time)
    ensures NewFromRequestFormat(req, id1, freshId, now) == NewFromRequestFormat(req, id2, freshId, now)
  {
  }

  /** A new product is live, so the first SoftDelete on it succeeds. */
  lemma NewProductIsLive(req: ProductRequestFormat, productID: Uuid, freshId: Uuid, now: Time, id: Uuid, later: Time)
    ensures var p := NewFromRequestFormat(req, productID, freshId, now).0;
            !p.IsDeleted() && SoftDeleted(p, id, later).0 == Nil
  {
  }

  /** products.ProductResponseFormat; the two pointer fields are None when nil. */
  datatype ProductResponseFormat = ProductResponseFormat(
    id: Uuid,
    variantId: Uuid,
    productName: string,
    created: Time,
    createdBy: Uuid,
    updated: NullTime,
    updatedBy: Option<Uuid>,
    deleted: NullTime,
    deletedBy: Option<Uuid>)

  /** The response shows a soft delete only through `deleted`: the caller's
      identity is dropped. */
  lemma ResponseAfterSoftDelete(p: ProductRecord, id: Uuid, now: Time)
    requires !p.IsDeleted()
    ensures SoftDeleted(p, id, now).1.ToResponseFormat() == p.ToResponseFormat().(deleted := Some(now))
  {
  }

  /** The product as the object SoftDelete mutates through its pointer
      receiver. */
  class Product {
    var productId: Uuid
    var productName: string
    var variantId: Uuid
    var brandId: Uuid
    var price: Float64
    var stock: int
    var status: string
    var imageUrl: string
    var createdAt: Time
    var createdBy: Uuid
    var updatedAt: NullTime
    var updatedBy: NullUuid
    var deleted: NullTime
    var deletedBy: NullUuid

    /** The object's fields as a value. */
    function Record(): ProductRecord
      reads this
    {
      ProductRecord(productId, productName, variantId, brandId, price, stock, status, imageUrl,
                    createdAt, createdBy, updatedAt, updatedBy, deleted, deletedBy)
    }

    constructor FromRecord(r: ProductRecord)
      ensures Record() == r
    {
      productId, productName, variantId, brandId := r.productId, r.productName, r.variantId, r.brandId;
      price, stock, status, imageUrl := r.price, r.stock, r.status, r.imageUrl;
      createdAt, createdBy, updatedAt, updatedBy := r.createdAt, r.createdBy, r.updatedAt, r.updatedBy;
      deleted, deletedBy := r.deleted, r.deletedBy;
    }

    /** Product.SoftDelete: the new fields and the result are those of
      SoftDeleted. */
    method SoftDelete(id: Uuid, now: Time) returns (err: Outcome)
      modifies this
      ensures (err, Record()) == SoftDeleted(old(Record()), id, now)
    {
      if Record().IsDeleted() {
        return Err(AlreadyDeleted);
      }
      deleted := Some(now);
      deletedBy := Some(id);
      err := Nil;
    }

    /** Product.Update only prints its argument: it changes nothing and
      always returns nil. */
    method Update(id: Uuid) returns (err: Outcome)
      ensures err == Nil
    {
      err := Nil;
    }
  }

  /** products.Image. */
  datatype Image = Image(imageId: Uuid, productId: Uuid, imageUrl: string, createdAt: Time, createdBy: Uuid)

  /** products.ImageRequestFormat. */
  datatype ImageRequestFormat = ImageRequestFormat(imageUrl: string, createdAt: Time)

  /** Image.NewFromRequestFormat: a fresh image id, which is also the creator;
      the product id from the argument; the URL from the request; the clock
      reading `now`, not the request's `createdAt`. */
  function NewImageFromRequestFormat(format: ImageRequestFormat, productId: Uuid, freshId: Uuid, now: Time): (r: Image)
    ensures r.imageId == freshId && r.createdBy == r.imageId
    ensures r.productId == productId && r.imageUrl == format.imageUrl
    ensures r.createdAt == now
  {
    Image(freshId, productId, format.imageUrl, now, freshId)
  }

  /** The request's own timestamp has no effect on the new image. */
  lemma NewImageIgnoresRequestTime(url: string, t1: Time, t2: Time, productId: Uuid, freshId: Uuid, now: Time)
    ensures NewImageFromRequestFormat(ImageRequestFormat(url, t1), productId, freshId, now)
         == NewImageFromRequestFormat(ImageRequestFormat(url, t2), productId, freshId, now)
  {
  }

  /** products.ImageResponseFormat. */
  datatype ImageResponseFormat = ImageResponseFormat(imageId: Uuid, productId: Uuid, imageUrl: string)

  /** Image.ToResponseFormat: the three identifying fields, no audit fields. */
  function ImageToResponseFormat(i: Image): (r: ImageResponseFormat)
    ensures r.imageId == i.imageId && r.productId == i.productId && r.imageUrl == i.imageUrl
  {
    ImageResponseFormat(i.imageId, i.productId, i.imageUrl)
  }

  /** A new image's response carries the product and URL it was made from. */
  lemma NewImageResponse(format: ImageRequestFormat, productId: Uuid, freshId: Uuid, now: Time)
    ensures ImageToResponseFormat(NewImageFromRequestFormat(format, productId, freshId, now))
         == ImageResponseFormat(freshId, productId, format.imageUrl)
  {
  }
}

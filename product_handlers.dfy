/**
 * The single-product handlers: reading one product, and the checks that guard
 * creating, updating and deleting one. The store is a parameter; what it found
 * is an input.
 */
module ProductHandlers {
  import opened Wrappers

  /** The signed-in user. */
  datatype User = User(id: string, role: string)

  /** A stored product, reduced to what the handlers look at; `maker` is the owner's id as text, None when unset. */
  datatype Product = Product(id: string, maker: Option<string>)

  /** What `Product.findById` produced: a product, `null`, or an exception with its `kind`. */
  datatype FindResult = Found(product: Product) | NotFound | Threw(kind: Option<string>)

  /** The `data` of a successful reply. */
  datatype Payload = ProductData(product: Product) | NullData | EmptyObject

  /** A JSON reply: `{success: true, data}` or `{success: false, message}`, with its HTTP status. */
  datatype Response = Success(status: nat, data: Payload) | Failure(status: nat, message: string)

  const NotFoundMessage := "Product not found"
  const ServerErrorMessage := "Server error"

  /** `GET /api/products/:id`. */
  function GetProduct(found: FindResult): (r: Response)
    ensures r.Success? <==> found.Found?
    ensures found.Found? ==> r == Success(200, ProductData(found.product))
    ensures r.Failure? && r.status == 404 <==> found.NotFound? || found == Threw(Some("ObjectId"))
    ensures r.Failure? && r.status == 500 <==> found.Threw? && found.kind != Some("ObjectId")
    ensures r.Failure? ==> (r.status == 404 <==> r.message == NotFoundMessage)
  {
    match found
    case Found(p) => Success(200, ProductData(p))
    case NotFound => Failure(404, NotFoundMessage)
    case Threw(kind) =>
      if kind == Some("ObjectId") then Failure(404, NotFoundMessage) else Failure(500, ServerErrorMessage)
  }

  /** A malformed id reads exactly like a missing product. */
  lemma MalformedIdIsNotFound()
    ensures GetProduct(Threw(Some("ObjectId"))) == GetProduct(NotFound)
  {
  }

  /**
   * The ownership test `product.maker.toString() !== req.user.id && req.user.role !== "admin"`,
   * negated; None when the product has no maker and `toString` throws.
   */
  function MayWrite(p: Product, u: User): Option<bool> {
    match p.maker
    case None => None
    case Some(m) => Some(m == u.id || u.role == "admin")
  }

  /** The outcome of the lookup and ownership checks of a write. */
  datatype Access = Granted(product: Product) | Refused(response: Response)

  /**
   * The checks shared by update and delete, in order: the lookup throwing is a
   * server error (no special case for a malformed id here), a missing product
   * is 404, a product of another maker is 403 for a non-admin.
   */
  function CheckAccess(found: FindResult, user: User, verb: string): (a: Access)
    ensures a.Granted? <==> found.Found? && MayWrite(found.product, user) == Some(true)
    ensures a.Granted? ==> a.product == found.product
    ensures found.NotFound? ==> a == Refused(Failure(404, NotFoundMessage))
    ensures found.Threw? ==> a == Refused(Failure(500, ServerErrorMessage))
    ensures found.Found? && MayWrite(found.product, user) == None ==> a == Refused(Failure(500, ServerErrorMessage))
    ensures found.Found? && MayWrite(found.product, user) == Some(false)
        ==> a == Refused(Failure(403, "Not authorized to " + verb + " this product"))
  {
    match found
    case Threw(_) => Refused(Failure(500, ServerErrorMessage))
    case NotFound => Refused(Failure(404, NotFoundMessage))
    case Found(p) =>
      match MayWrite(p, user)
      case None => Refused(Failure(500, ServerErrorMessage))
      case Some(ok) =>
        if ok then Granted(p) else Refused(Failure(403, "Not authorized to " + verb + " this product"))
  }

  /** An admin may write any product that has a maker; anyone else only their own. */
  lemma WriteAccessRule(p: Product, u: User, verb: string)
    requires p.maker.Some?
    ensures CheckAccess(Found(p), u, verb).Granted? <==> u.role == "admin" || p.maker.value == u.id
  {
  }

  // ---------------------------------------------------------------------------
  // The request body

  /** A JSON value of the request body; numbers are taken as integers. */
  datatype JsonValue = JNull | JBool(b: bool) | JNumber(n: int) | JString(s: string) | JComposite

  /** `if (body.manageInventory === false) body.inventory = null`. */
  function Normalised(fields: map<string, JsonValue>): (r: map<string, JsonValue>)
    ensures "manageInventory" in fields && fields["manageInventory"] == JBool(false)
        ==> "inventory" in r && r["inventory"] == JNull
    ensures !("manageInventory" in fields && fields["manageInventory"] == JBool(false)) ==> r == fields
    ensures forall k :: k in fields ==> k in r
    ensures forall k :: k in r && k != "inventory" ==> k in fields && r[k] == fields[k]
  {
    if "manageInventory" in fields && fields["manageInventory"] == JBool(false)
    then fields["inventory" := JNull]
    else fields
  }

  /** Normalising twice is normalising once, so a normalised body stays as it is. */
  lemma NormalisedIdempotent(fields: map<string, JsonValue>)
    ensures Normalised(Normalised(fields)) == Normalised(fields)
  {
  }

  /** Only the strict boolean `false` switches the inventory off: the text "false" does not. */
  lemma OnlyStrictFalse(fields: map<string, JsonValue>)
    requires "manageInventory" in fields && fields["manageInventory"] == JString("false")
    ensures Normalised(fields) == fields
  {
  }

  /** `req.body`, which the handlers change in place before handing it to the store. */
  class RequestBody {
    var fields: map<string, JsonValue>

    constructor(fields: map<string, JsonValue>)
      ensures this.fields == fields
    {
      this.fields := fields;
    }

    method NormaliseInventory()
      modifies this
      ensures fields == Normalised(old(fields))
    {
      if "manageInventory" in fields && fields["manageInventory"] == JBool(false) {
        fields := fields["inventory" := JNull];
      }
    }

    method SetMaker(id: string)
      modifies this
      ensures fields == old(fields)["maker" := JString(id)]
    {
      fields := fields["maker" := JString(id)];
    }
  }

  /** `POST /api/products`: the body is normalised and stamped with the caller as maker whatever it said. */
  method CreateProduct(body: RequestBody, user: User, create: map<string, JsonValue> -> Option<Product>)
    returns (r: Response)
    modifies body
    ensures body.fields == Normalised(old(body.fields))["maker" := JString(user.id)]
    ensures "maker" in body.fields && body.fields["maker"] == JString(user.id)
    ensures r == match create(body.fields)
                 case Some(p) => Success(201, ProductData(p))
                 case None => Failure(500, ServerErrorMessage)
  {
    body.NormaliseInventory();
    body.SetMaker(user.id);
    var created := create(body.fields);
    if created.None? {
      return Failure(500, ServerErrorMessage);
    }
    r := Success(201, ProductData(created.value));
  }

  /**
   * `PUT /api/products/:id`. The store's update returns the updated product,
   * `null` when it is gone by then, or None when it fails.
   */
  method UpdateProduct(body: RequestBody, user: User, found: FindResult,
                       update: (string, map<string, JsonValue>) -> Option<Option<Product>>)
    returns (r: Response)
    modifies body
    ensures CheckAccess(found, user, "update").Refused? ==>
      r == CheckAccess(found, user, "update").response && body.fields == old(body.fields)
    ensures CheckAccess(found, user, "update").Granted? ==>
      && body.fields == Normalised(old(body.fields))
      && r == match update(found.product.id, body.fields)
              case None => Failure(500, ServerErrorMessage)
              case Some(None) => Success(200, NullData)
              case Some(Some(p)) => Success(200, ProductData(p))
    ensures r.Success? ==> found.Found? && MayWrite(found.product, user) == Some(true)
  {
    var access := CheckAccess(found, user, "update");
    if access.Refused? {
      return access.response;
    }
    body.NormaliseInventory();
    var updated := update(access.product.id, body.fields);
    match updated
    case None => r := Failure(500, ServerErrorMessage);
    case Some(None) => r := Success(200, NullData);
    case Some(Some(p)) => r := Success(200, ProductData(p));
  }

  /** `DELETE /api/products/:id`. The store's removal reports whether it succeeded. */
  function DeleteProduct(found: FindResult, user: User, remove: Product -> bool): (r: Response)
    ensures r.Success? <==> found.Found? && MayWrite(found.product, user) == Some(true) && remove(found.product)
    ensures r.Success? ==> r == Success(200, EmptyObject)
    ensures CheckAccess(found, user, "delete").Refused? ==> r == CheckAccess(found, user, "delete").response
    ensures CheckAccess(found, user, "delete").Granted? && !remove(found.product) ==> r == Failure(500, ServerErrorMessage)
  {
    match CheckAccess(found, user, "delete")
    case Refused(response) => response
    case Granted(p) => if remove(p) then Success(200, EmptyObject) else Failure(500, ServerErrorMessage)
  }

  /** A missing product is reported as missing before anyone's rights are looked at. */
  lemma MissingBeforeForbidden(user: User, verb: string)
    ensures CheckAccess(NotFound, user, verb) == Refused(Failure(404, NotFoundMessage))
  {
  }
}

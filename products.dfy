/** The product controllers: the listing's pagination arithmetic, filter and sort, and the
    create / lookup / update / delete handlers with their validation order. */
module Products {
  import opened Wrappers
  import opened Arith

  // ---------------------------------------------------------------- pagination

  /** `Number(req.query.page) || 1`: a missing, non-numeric or zero page is page 1; any
      other number, negative ones included, is taken as it is.  `None` stands for a
      missing or non-numeric value. */
  function PageNumber(raw: Option<int>): (page: int)
    ensures page != 0
    ensures !TruthyNumber(raw) ==> page == 1
    ensures TruthyNumber(raw) ==> page == raw.value
  {
    if TruthyNumber(raw) then raw.value else 1
  }

  const DefaultPageSize := 8

  /** `Number(process.env.PRODUCT_PER_PAGE) || 8` */
  function PageSize(env: Option<int>): (limit: int)
    ensures limit != 0
    ensures !TruthyNumber(env) ==> limit == DefaultPageSize
    ensures TruthyNumber(env) ==> limit == env.value
  {
    if TruthyNumber(env) then env.value else DefaultPageSize
  }

  /** `(page - 1) * limit` */
  function Skip(page: int, limit: int): int
  {
    (page - 1) * limit
  }

  /** Page 1 skips nothing and each further page skips one page's worth more. */
  lemma SkipSteps(page: int, limit: int)
    ensures Skip(1, limit) == 0
    ensures Skip(page + 1, limit) == Skip(page, limit) + limit
  {
  }

  /** `Math.ceil(n / d)` for a count `n` and a non-zero page size. */
  function CeilDiv(n: nat, d: int): (r: int)
    requires d != 0
    ensures d > 0 ==> d * (r - 1) < n <= d * r
    ensures d < 0 ==> d * r <= n < d * (r - 1)
  {
    if d > 0 then
      DivBounds(n + d - 1, d);
      (n + d - 1) / d
    else
      DivBounds(n, -d);
      -(n / -d)
  }

  /** `Math.ceil(filteredOnlyProduct.length / limit)` */
  function TotalPage(matching: nat, limit: int): int
    requires limit != 0
  {
    CeilDiv(matching, limit)
  }

  /** With a positive page size the pages just cover the matches: nothing matching means
      no pages, and otherwise the last page starts before the last match. */
  lemma TotalPageBounds(matching: nat, limit: int)
    requires limit > 0
    ensures TotalPage(matching, limit) * limit >= matching
    ensures matching > 0 ==> (TotalPage(matching, limit) - 1) * limit < matching
    ensures matching == 0 <==> TotalPage(matching, limit) == 0
    ensures TotalPage(matching, limit) >= 0
  {
    var t := TotalPage(matching, limit);
    assert limit * (t - 1) < matching <= limit * t;
  }

  /** The match at (zero-based) position `i` is shown on page `i / limit + 1`, which is a
      page from 1 to the last one, and whose skip is the largest one not past `i`. */
  lemma EveryMatchHasAPage(matching: nat, limit: int, i: nat)
    requires limit > 0 && i < matching
    ensures var page := i / limit + 1;
      && 1 <= page <= TotalPage(matching, limit)
      && Skip(page, limit) <= i < Skip(page, limit) + limit
  {
    var q := i / limit;
    DivBounds(i, limit);
    var t := TotalPage(matching, limit);
    assert limit * (t - 1) < matching <= limit * t;
    if q >= t {
      MulMonotone(limit, t, q);
      assert false;
    }
    if q < 0 {
      MulMonotone(limit, q, -1);
      assert false;
    }
  }

  // ---------------------------------------------------------------- filter and sort

  /** The filter `baseQuery`: a case-insensitive name pattern, an upper price bound (the
      `Number` of the submitted text) and an exact category, each only when given. */
  datatype BaseQuery = BaseQuery(
    nameMatches: Option<string>, priceAtMost: Option<string>, category: Option<string>)

  /** The `baseQuery` built for `search`, `price` and `category`: each condition is present
      exactly when its parameter is a non-empty string, and carries that parameter. */
  function ListingFilter(search: Option<string>, price: Option<string>, category: Option<string>): (q: BaseQuery)
    ensures q.nameMatches.Some? <==> TruthyString(search)
    ensures q.priceAtMost.Some? <==> TruthyString(price)
    ensures q.category.Some? <==> TruthyString(category)
    ensures q.nameMatches.Some? ==> q.nameMatches == search
    ensures q.priceAtMost.Some? ==> q.priceAtMost == price
    ensures q.category.Some? ==> q.category == category
  {
    BaseQuery(
      if TruthyString(search) then search else None,
      if TruthyString(price) then price else None,
      if TruthyString(category) then category else None)
  }

  /** The filter as the handler builds it: an empty object that gains a field per given
      parameter. */
  method BuildBaseQuery(search: Option<string>, price: Option<string>, category: Option<string>)
    returns (baseQuery: BaseQuery)
    ensures baseQuery == ListingFilter(search, price, category)
  {
    baseQuery := BaseQuery(None, None, None);
    if TruthyString(search) {
      baseQuery := baseQuery.(nameMatches := search);
    }
    if TruthyString(price) {
      baseQuery := baseQuery.(priceAtMost := price);
    }
    if TruthyString(category) {
      baseQuery := baseQuery.(category := category);
    }
  }

  datatype SortOrder = AscendingPrice | DescendingPrice

  /** `sort && { price: sort === 'asc' ? 1 : -1 }`: no sort for a missing or empty `sort`,
      ascending price for `asc`, descending for any other value. */
  function PriceSort(sort: Option<string>): (order: Option<SortOrder>)
    ensures order.None? <==> !TruthyString(sort)
    ensures order == Some(AscendingPrice) <==> sort == Some("asc")
  {
    if !TruthyString(sort) then None
    else if sort.value == "asc" then Some(AscendingPrice)
    else Some(DescendingPrice)
  }

  /** The query parameters of the listing. */
  datatype SearchQuery = SearchQuery(
    search: Option<string>, price: Option<string>, category: Option<string>,
    sort: Option<string>, page: Option<int>)

  /** What the listing asks of the collection: the filter, the sort, and the window of
      one page. */
  datatype ListingPlan = ListingPlan(filter: BaseQuery, sort: Option<SortOrder>, skip: int, limit: int)

  /** `getAllProducts`: the plan of its paged query and, given how many products match
      the filter, the `totalPage` it answers with. */
  function GetAllProducts(q: SearchQuery, perPage: Option<int>, matching: nat): (ListingPlan, int)
  {
    var page := PageNumber(q.page);
    var limit := PageSize(perPage);
    (ListingPlan(ListingFilter(q.search, q.price, q.category), PriceSort(q.sort), Skip(page, limit), limit),
     TotalPage(matching, limit))
  }

  /** Without a page parameter the listing shows the first page of 8 products (unless the
      environment sets a page size). */
  lemma DefaultListing(q: SearchQuery, matching: nat)
    requires q.page.None?
    ensures GetAllProducts(q, None, matching).0.skip == 0
    ensures GetAllProducts(q, None, matching).0.limit == 8
    ensures GetAllProducts(q, None, matching).1 == (matching + 7) / 8
  {
  }

  // ---------------------------------------------------------------- products

  datatype Product = Product(id: string, name: string, photo: string, price: int, stock: int, category: string)

  /** A numeric body field as the request carries it: text from a multipart form (every
      request that uploads a photo), or a number from a JSON body. */
  datatype BodyValue = Text(text: string) | Number(number: int)

  /** JavaScript truthiness of an optional body field: present, and a non-empty text or a
      non-zero number.  The text `"0"` is truthy. */
  predicate TruthyValue(v: Option<BodyValue>)
  {
    v.Some? && match v.value
      case Text(t) => t != ""
      case Number(n) => n != 0
  }

  /** The number Mongoose stores for a body field: a number as it is, a text through its
      `Number` cast `castText`. */
  function StoredNumber(v: BodyValue, castText: string -> int): int
  {
    match v
    case Text(t) => castText(t)
    case Number(n) => n
  }

  /** The fields of a create or update request; every one may be missing. */
  datatype ProductBody = ProductBody(
    name: Option<string>, price: Option<BodyValue>, stock: Option<BodyValue>, category: Option<string>)

  /** `toLowerCase` on the ASCII letters. */
  function LowerChar(c: char): char
  {
    if 'A' <= c <= 'Z' then (c as int + 32) as char else c
  }

  function Lower(s: string): (r: string)
    ensures |r| == |s|
    ensures forall i :: 0 <= i < |s| ==> r[i] == LowerChar(s[i])
  {
    seq(|s|, i requires 0 <= i < |s| => LowerChar(s[i]))
  }

  predicate IsLower(s: string)
  {
    forall i :: 0 <= i < |s| ==> !('A' <= s[i] <= 'Z')
  }

  /** Lower-casing leaves no upper-case letter, and doing it twice is doing it once. */
  lemma LowerIsLower(s: string)
    ensures IsLower(Lower(s))
    ensures Lower(Lower(s)) == Lower(s)
    ensures IsLower(s) ==> Lower(s) == s
  {
  }

  const PhotoRequired := ApiError("Photo is required", 400)
  const AllFieldsRequired := ApiError("All fields are required", 400)
  const InvalidProductId := ApiError("Invalid Product ID", 404)

  /** The check of a create request: `!name || !price || !stock || !category` fails. */
  predicate HasProductFields(b: ProductBody)
  {
    TruthyString(b.name) && TruthyValue(b.price) && TruthyValue(b.stock) && TruthyString(b.category)
  }

  /** A form field `"0"` passes the check of a create request, and a JSON 0 does not. */
  lemma FormZeroIsTruthy(name: string, category: string)
    requires name != "" && category != ""
    ensures HasProductFields(ProductBody(Some(name), Some(Text("0")), Some(Text("0")), Some(category)))
    ensures !HasProductFields(ProductBody(Some(name), Some(Number(0)), Some(Text("0")), Some(category)))
  {
  }

  /** The product `Product.create` stores for an accepted body: the category lower-cased,
      the photo the uploaded file's path. */
  function CreatedProduct(id: string, b: ProductBody, photo: string, castText: string -> int): (p: Product)
    requires HasProductFields(b)
    ensures p.id == id && p.photo == photo && IsLower(p.category)
    ensures p.name == b.name.value && p.category == Lower(b.category.value)
    ensures p.price == StoredNumber(b.price.value, castText) && p.stock == StoredNumber(b.stock.value, castText)
  {
    LowerIsLower(b.category.value);
    Product(id, b.name.value, photo, StoredNumber(b.price.value, castText),
            StoredNumber(b.stock.value, castText), Lower(b.category.value))
  }

  /** The product after `updateProduct`: a new photo replaces the old one, and each field
      supplied with a truthy value replaces the stored one (the category lower-cased). */
  function ApplyUpdate(p: Product, b: ProductBody, photo: Option<string>, castText: string -> int): Product
  {
    Product(
      p.id,
      if TruthyString(b.name) then b.name.value else p.name,
      if photo.Some? then photo.value else p.photo,
      if TruthyValue(b.price) then StoredNumber(b.price.value, castText) else p.price,
      if TruthyValue(b.stock) then StoredNumber(b.stock.value, castText) else p.stock,
      if TruthyString(b.category) then Lower(b.category.value) else p.category)
  }

  /** An update takes exactly what it is given: a field supplied truthy gets the supplied
      value (the category lower-cased, a form text cast to a number), any other field and
      the id keep the stored value.  So a JSON price or stock of 0 keeps the old value,
      while a form `"0"` stores the cast of `"0"`. */
  lemma UpdateChangesOnlySupplied(p: Product, b: ProductBody, photo: Option<string>, castText: string -> int)
    ensures var q := ApplyUpdate(p, b, photo, castText);
      && q.id == p.id
      && (TruthyString(b.name) ==> q.name == b.name.value)
      && (!TruthyString(b.name) ==> q.name == p.name)
      && (photo.Some? ==> q.photo == photo.value)
      && (photo.None? ==> q.photo == p.photo)
      && (TruthyValue(b.price) ==> q.price == StoredNumber(b.price.value, castText))
      && (!TruthyValue(b.price) ==> q.price == p.price)
      && (TruthyValue(b.stock) ==> q.stock == StoredNumber(b.stock.value, castText))
      && (!TruthyValue(b.stock) ==> q.stock == p.stock)
      && (TruthyString(b.category) ==> q.category == Lower(b.category.value) && IsLower(q.category))
      && (!TruthyString(b.category) ==> q.category == p.category)
    ensures ApplyUpdate(p, ProductBody(None, Some(Number(0)), Some(Number(0)), None), None, castText) == p
    ensures ApplyUpdate(p, ProductBody(None, Some(Text("0")), None, None), None, castText).price == castText("0")
  {
    if TruthyString(b.category) {
      LowerIsLower(b.category.value);
    }
  }

  /** Repeating an update changes nothing more. */
  lemma UpdateIdempotent(p: Product, b: ProductBody, photo: Option<string>, castText: string -> int)
    ensures ApplyUpdate(ApplyUpdate(p, b, photo, castText), b, photo, castText) == ApplyUpdate(p, b, photo, castText)
  {
  }

  /** The product collection keyed by id, and the log of files handed to `rm`. */
  class ProductStore {
    var products: map<string, Product>
    var removedFiles: seq<string>

    ghost predicate Valid()
      reads this
    {
      forall id :: id in products ==> products[id].id == id && IsLower(products[id].category)
    }

    constructor ()
      ensures Valid() && products == map[] && removedFiles == []
    {
      products := map[];
      removedFiles := [];
    }

    /** The lookup shared by get, update and delete: an id that is not an ObjectId is a
        404 before the store is consulted, and an id with no product a 404 with
        `notFound`.  `isValid` is `mongoose.Types.ObjectId.isValid`.  Ids are compared as
        texts: an id is taken to be the canonical lower-case hex text of a stored ObjectId. */
    function Lookup(id: string, isValid: string -> bool, notFound: string): (r: Result<Product>)
      reads this
      ensures !isValid(id) ==> r == Err(InvalidProductId)
      ensures isValid(id) && id !in products ==> r == Err(ApiError(notFound, 404))
      ensures r.Ok? <==> isValid(id) && id in products
      ensures r.Ok? ==> r.value == products[id]
    {
      if !isValid(id) then Err(InvalidProductId)
      else if id !in products then Err(ApiError(notFound, 404))
      else Ok(products[id])
    }

    /** `getSingleProduct` */
    function GetSingleProduct(id: string, isValid: string -> bool): (r: Result<Product>)
      reads this
      ensures r.Err? ==> r.error.statusCode == 404
      ensures r.Err? ==> r.error.message in {"Invalid Product ID", "Product not Found"}
      ensures r.Ok? <==> isValid(id) && id in products
      ensures r.Ok? ==> r.value == products[id]
    {
      Lookup(id, isValid, "Product not Found")
    }

    /** `newProduct`: without a photo a 400 before anything else; with a photo but a
        missing field a 400 that removes the uploaded photo; otherwise the product is
        stored under the id the store assigns.  A request with a photo is a multipart
        form, so its numeric fields are texts and `"0"` passes the check. */
    method NewProduct(body: ProductBody, photo: Option<string>, newId: string, castText: string -> int)
      returns (result: Result<Product>)
      requires Valid() && newId !in products
      modifies this
      ensures Valid()
      ensures photo.None? ==>
                result == Err(PhotoRequired) && products == old(products) && removedFiles == old(removedFiles)
      ensures photo.Some? && !HasProductFields(body) ==>
                && result == Err(AllFieldsRequired) && products == old(products)
                && removedFiles == old(removedFiles) + [photo.value]
      ensures photo.Some? && HasProductFields(body) ==>
                && result == Ok(CreatedProduct(newId, body, photo.value, castText))
                && products == old(products)[newId := CreatedProduct(newId, body, photo.value, castText)]
                && removedFiles == old(removedFiles)
    {
      if photo.None? {
        return Err(PhotoRequired);
      }
      if !HasProductFields(body) {
        removedFiles := removedFiles + [photo.value];
        return Err(AllFieldsRequired);
      }
      var p := CreatedProduct(newId, body, photo.value, castText);
      products := products[newId := p];
      result := Ok(p);
    }

    /** `updateProduct`: an invalid or unknown id is a 404 that changes nothing;
        otherwise the old photo is removed when a new one came, and the product's fields
        are overwritten one by one. */
    method UpdateProduct(id: string, body: ProductBody, photo: Option<string>, isValid: string -> bool,
                         castText: string -> int)
      returns (result: Result<Product>)
      requires Valid()
      modifies this
      ensures Valid()
      ensures old(Lookup(id, isValid, "Product not Found")).Err? ==>
                && result == old(Lookup(id, isValid, "Product not Found"))
                && products == old(products) && removedFiles == old(removedFiles)
      ensures old(Lookup(id, isValid, "Product not Found")).Ok? ==>
                var before := old(products[id]);
                && result == Ok(ApplyUpdate(before, body, photo, castText))
                && products == old(products)[id := ApplyUpdate(before, body, photo, castText)]
                && removedFiles == old(removedFiles) + (if photo.Some? then [before.photo] else [])
    {
      var found := Lookup(id, isValid, "Product not Found");
      if found.Err? {
        return found;
      }
      var product := found.value;
      if photo.Some? {
        removedFiles := removedFiles + [product.photo];
        product := product.(photo := photo.value);
      }
      if TruthyString(body.name) {
        product := product.(name := body.name.value);
      }
      if TruthyValue(body.price) {
        product := product.(price := StoredNumber(body.price.value, castText));
      }
      if TruthyValue(body.stock) {
        product := product.(stock := StoredNumber(body.stock.value, castText));
      }
      if TruthyString(body.category) {
        product := product.(category := Lower(body.category.value));
      }
      UpdateChangesOnlySupplied(found.value, body, photo, castText);
      products := products[id := product];
      result := Ok(product);
    }

    /** `deleteProduct`: an invalid or unknown id is a 404 that changes nothing; otherwise
        the product's photo is removed and the product leaves the collection. */
    method DeleteProduct(id: string, isValid: string -> bool) returns (result: Result<Product>)
      requires Valid()
      modifies this
      ensures Valid()
      ensures old(Lookup(id, isValid, "Product Not Found")).Err? ==>
                && result == old(Lookup(id, isValid, "Product Not Found"))
                && products == old(products) && removedFiles == old(removedFiles)
      ensures old(Lookup(id, isValid, "Product Not Found")).Ok? ==>
                && result == Ok(old(products[id]))
                && products == old(products) - {id}
                && removedFiles == old(removedFiles) + [old(products[id]).photo]
    {
      var found := Lookup(id, isValid, "Product Not Found");
      if found.Err? {
        return found;
      }
      removedFiles := removedFiles + [found.value.photo];
      products := products - {id};
      result := found;
    }
  }
}

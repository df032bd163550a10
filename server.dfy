/** The server's state and its handlers: the module-level `products` array, which /add-product
    appends to and DELETE /products/:id splices, and the uploads directory, seen as the set of
    file names in it. */
module Server {
  import opened Outcomes
  import opened Js
  import opened Products
  import opened Upload

  /** An img that path.join(__dirname, 'uploads', img) resolves to a directory without any
      '/' in it: the uploads directory itself and its parent. */
  predicate NamesDirectory(img: string)
  {
    img == "." || img == ".."
  }

  /** The answer of a successful /upload-image. */
  datatype StoredFile = StoredFile(filename: string, url: string)

  class Catalog {
    var products: seq<Product>
    var uploads: set<string>

    /** Every stored record passed the img guard of /add-product: its img is truthy. */
    ghost predicate Valid()
      reads this`products
    {
      AllAccepted(products)
    }

    /** Server start: no products yet; the uploads directory is created when missing, so it
        holds whatever files it already held. */
    constructor (existingUploads: set<string>)
      ensures Valid()
      ensures products == [] && uploads == existingUploads
    {
      products := [];
      uploads := existingUploads;
    }

    /** POST /upload-image. multer runs first: a file part is checked by the fileFilter and the
        size limit (either refusal reaches the error middleware), and an accepted one is written
        under its generated name, overwriting a file of the same name. The handler then answers
        400 when there was no file part. */
    method UploadImage(file: Option<File>, timestamp: nat, random: nat) returns (r: Result<StoredFile>)
      modifies this`uploads
      ensures file.None? ==> r == Err(NoFileUploaded) && uploads == old(uploads)
      ensures file.Some? && CheckFile(file.value).Some? ==>
        r == Err(CheckFile(file.value).value) && uploads == old(uploads)
      ensures file.Some? && CheckFile(file.value).None? ==>
        var name := StoredName(timestamp, random, file.value.originalName);
        && r == Ok(StoredFile(name, "/uploads/" + name))
        && uploads == old(uploads) + {name}
    {
      if file.None? {
        return Err(NoFileUploaded);
      }
      var refusal := CheckFile(file.value);
      if refusal.Some? {
        return Err(refusal.value);
      }
      var name := StoredName(timestamp, random, file.value.originalName);
      uploads := uploads + {name};
      r := Ok(StoredFile(name, "/uploads/" + name));
    }

    /** POST /add-product with the id (`Date.now().toString()`) and the creation time passed in.
        A refused or failing request leaves the table as it was; an accepted one appends exactly
        the new record, and the reply's total is the new length. */
    method AddProduct(req: AddRequest, id: string, createdAt: string) returns (r: Result<AddReply>)
      requires Valid()
      modifies this`products
      ensures Valid()
      ensures Validate(req).Some? ==> r == Err(Validate(req).value) && products == old(products)
      ensures Validate(req).None? && MakeRecord(req, id, createdAt).Err? ==>
        r == Err(MakeRecord(req, id, createdAt).failure) && products == old(products)
      ensures Validate(req).None? && MakeRecord(req, id, createdAt).Ok? ==>
        var p := MakeRecord(req, id, createdAt).value;
        && products == old(products) + [p]
        && r == Ok(AddReply(p, |products|))
    {
      var missing := Validate(req);
      if missing.Some? {
        return Err(missing.value);
      }
      var record := MakeRecord(req, id, createdAt);
      if record.Err? {
        return Err(record.failure);
      }
      AcceptedAfterAppend(products, record.value);
      products := products + [record.value];
      r := Ok(AddReply(record.value, |products|));
    }

    /** GET /products: the whole table, in insertion order, and its length. */
    method ListProducts() returns (all: seq<Product>, total: nat)
      ensures all == products && total == |products|
    {
      all := products;
      total := |products|;
    }

    /** `products.find(p => p.id === id)` answered as GET /products/:id: the first product with
        that id, or 404. It changes nothing. */
    method GetById(id: string) returns (r: Result<Product>)
      ensures var i := FirstIndexWithId(products, id);
        r == if i == -1 then Err(ProductNotFound) else Ok(products[i])
    {
      var k := 0;
      while k < |products|
        invariant 0 <= k <= |products|
        invariant forall j | 0 <= j < k :: products[j].id != id
      {
        if products[k].id == id {
          return Ok(products[k]);
        }
        k := k + 1;
      }
      r := Err(ProductNotFound);
    }

    /** `products.findIndex(p => p.id === id)`. */
    method FindIndex(id: string) returns (index: int)
      ensures index == FirstIndexWithId(products, id)
    {
      index := 0;
      while index < |products|
        invariant 0 <= index <= |products|
        invariant forall j | 0 <= j < index :: products[j].id != id
      {
        if products[index].id == id {
          return;
        }
        index := index + 1;
      }
      index := -1;
    }

    /** The image cleanup of DELETE /products/:id: nothing happens for a falsy img; any other
        non-string makes path.join throw; "." and ".." name the uploads directory and its
        parent, which exist, so unlinkSync throws; any other string names a file of the uploads
        directory that is removed if it exists. */
    method DeleteImageFile(img: Value) returns (failure: Option<Failure>)
      modifies this`uploads
      ensures !Truthy(img) ==> failure == None && uploads == old(uploads)
      ensures Truthy(img) && !img.Str? ==> failure == Some(NotAString("img")) && uploads == old(uploads)
      ensures Truthy(img) && img.Str? && NamesDirectory(img.s) ==>
        failure == Some(UnlinkDirectory) && uploads == old(uploads)
      ensures Truthy(img) && img.Str? && !NamesDirectory(img.s) ==>
        failure == None && uploads == old(uploads) - {img.s}
    {
      if !Truthy(img) {
        return None;
      }
      if !img.Str? {
        return Some(NotAString("img"));
      }
      if NamesDirectory(img.s) {
        return Some(UnlinkDirectory);
      }
      if img.s in uploads {
        uploads := uploads - {img.s};
      }
      failure := None;
    }

    /** DELETE /products/:id. No match: 404 and nothing changes. Otherwise the first match is
        spliced out and returned; then, when its img is truthy, the file of that name is removed
        from the uploads directory if it is there. An img that is not a string, or that names a
        directory, makes the cleanup throw after the splice: the product is gone and the answer
        is a 500. */
    method DeleteProduct(id: string) returns (r: Result<Product>)
      requires Valid()
      modifies this
      ensures Valid()
      ensures var i := FirstIndexWithId(old(products), id);
        i == -1 ==> r == Err(ProductNotFound) && products == old(products) && uploads == old(uploads)
      ensures var i := FirstIndexWithId(old(products), id);
        i != -1 ==> products == RemoveAt(old(products), i)
      ensures var i := FirstIndexWithId(old(products), id);
        i != -1 ==>
        var p := old(products)[i];
        && (!Truthy(p.img) ==> r == Ok(p) && uploads == old(uploads))
        && (Truthy(p.img) && !p.img.Str? ==> r == Err(NotAString("img")) && uploads == old(uploads))
        && (Truthy(p.img) && p.img.Str? && NamesDirectory(p.img.s) ==>
              r == Err(UnlinkDirectory) && uploads == old(uploads))
        && (Truthy(p.img) && p.img.Str? && !NamesDirectory(p.img.s) ==>
              r == Ok(p) && uploads == old(uploads) - {p.img.s})
    {
      var index := FindIndex(id);
      if index == -1 {
        return Err(ProductNotFound);
      }
      var deleted := products[index];
      AcceptedAfterRemove(products, index);
      products := RemoveAt(products, index);
      var failure := DeleteImageFile(deleted.img);
      r := if failure.Some? then Err(failure.value) else Ok(deleted);
    }
  }

  /** On a fresh server, a product created and then looked up by its id comes back as created;
      deleting it removes it and its image file, and the lookup then answers 404. */
  method CreateGetDelete(existing: set<string>, req: AddRequest, id: string, createdAt: string)
    requires Validate(req) == None && MakeRecord(req, id, createdAt).Ok?
  {
    var c := new Catalog(existing);
    var added := c.AddProduct(req, id, createdAt);
    assert added.Ok? && c.products == [added.value.product];
    var got := c.GetById(id);
    assert got == Ok(added.value.product);
    var gone := c.DeleteProduct(id);
    assert c.products == [];
    assert req.img.Str? && !NamesDirectory(req.img.s) ==>
      gone == Ok(added.value.product) && req.img.s !in c.uploads;
    var again := c.GetById(id);
    assert again == Err(ProductNotFound);
  }

  /** Deleting a product whose image file is not in the uploads directory still succeeds,
      unless its img names a directory. */
  method DeleteWithMissingImage(req: AddRequest, id: string, createdAt: string)
    requires Validate(req) == None && MakeRecord(req, id, createdAt).Ok? && req.img.Str?
  {
    var c := new Catalog({});
    var added := c.AddProduct(req, id, createdAt);
    var gone := c.DeleteProduct(id);
    assert !NamesDirectory(req.img.s) ==> gone == Ok(added.value.product);
    assert c.uploads == {};
  }
}

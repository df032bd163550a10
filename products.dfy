/** Product records and the pure parts of the product handlers: the required-field guards and
    the record literal of /add-product, the first-match search behind `find` and `findIndex`,
    and the removal `splice(index, 1)` performs. */
module Products {
  import opened Outcomes
  import opened Js

  /** A product as /add-product builds it. `price` keeps the submitted value (parseFloat is
      not modelled) and `img` keeps the submitted value unchanged, whatever its type. */
  datatype Product = Product(
    id: string,
    name: string,
    price: Value,
    img: Value,
    description: string,
    createdAt: string)

  /** The body fields /add-product reads. */
  datatype AddRequest = AddRequest(name: Value, price: Value, img: Value, description: Value)

  /** The successful answer of /add-product. */
  datatype AddReply = AddReply(product: Product, totalProducts: nat)

  /** The required-field guards of /add-product, run in the order name, price, img: the request
      is refused exactly when one of the three is falsy, with the failure of the first such
      field, and every refusal is a 400. */
  function Validate(req: AddRequest): (r: Option<Failure>)
    ensures r == None <==> Truthy(req.name) && Truthy(req.price) && Truthy(req.img)
    ensures r == Some(MissingName) <==> !Truthy(req.name)
    ensures r == Some(MissingPrice) <==> Truthy(req.name) && !Truthy(req.price)
    ensures r == Some(MissingImage) <==> Truthy(req.name) && Truthy(req.price) && !Truthy(req.img)
    ensures r.Some? ==> Status(r.value) == 400
  {
    if !Truthy(req.name) then Some(MissingName)
    else if !Truthy(req.price) then Some(MissingPrice)
    else if !Truthy(req.img) then Some(MissingImage)
    else None
  }

  /** The record literal of /add-product with the clock readings passed in. `name.trim()` throws
      a TypeError unless `name` is a string, and so does `description.trim()` for a truthy
      description that is not one; the route answers either with a 500. */
  function MakeRecord(req: AddRequest, id: string, createdAt: string): (r: Result<Product>)
    ensures r.Err? <==> !req.name.Str? || (Truthy(req.description) && !req.description.Str?)
    ensures r.Err? ==> Status(r.failure) == 500
    ensures r.Ok? ==> r.value.id == id && r.value.createdAt == createdAt
    ensures r.Ok? ==> r.value.price == req.price && r.value.img == req.img
  {
    if !req.name.Str? then Err(NotAString("name"))
    else if !Truthy(req.description) then
      Ok(Product(id, Trim(req.name.s), req.price, req.img, "", createdAt))
    else if !req.description.Str? then Err(NotAString("description"))
    else Ok(Product(id, Trim(req.name.s), req.price, req.img, Trim(req.description.s), createdAt))
  }

  /** What a stored record keeps of the request: the name and the description with the white
      space around them removed (an absent or falsy description becomes ""), and img as
      given, which is never falsy once the guards passed. */
  lemma {:induction false} RecordOfAcceptedRequest(req: AddRequest, id: string, createdAt: string)
    requires Validate(req) == None && MakeRecord(req, id, createdAt).Ok?
    ensures var p := MakeRecord(req, id, createdAt).value;
      && Truthy(p.img) && p.img == req.img
      && (p.name == [] || (!IsSpace(p.name[0]) && !IsSpace(p.name[|p.name| - 1])))
      && p.name == Trim(req.name.s)
      && (!Truthy(req.description) ==> p.description == "")
      && (Truthy(req.description) ==> p.description == Trim(req.description.s))
  {
  }

  /** The guards test the untrimmed name, so a name made only of white space is accepted and
      stored as the empty string. */
  lemma {:induction false} BlankNameStoredEmpty(req: AddRequest, id: string, createdAt: string)
    requires req.name.Str? && req.name.s != "" && AllSpace(req.name.s)
    requires Truthy(req.price) && Truthy(req.img)
    requires !Truthy(req.description) || req.description.Str?
    ensures Validate(req) == None
    ensures MakeRecord(req, id, createdAt).Ok? && MakeRecord(req, id, createdAt).value.name == ""
  {
    TrimOfBlank(req.name.s);
  }

  /** The index of the first product whose id is `id`, or -1: what `findIndex` returns and
      where `find` stops. */
  function FirstIndexWithId(ps: seq<Product>, id: string): (i: int)
    ensures -1 <= i < |ps|
    ensures i == -1 <==> forall k | 0 <= k < |ps| :: ps[k].id != id
    ensures 0 <= i ==> ps[i].id == id && forall k | 0 <= k < i :: ps[k].id != id
  {
    if ps == [] then -1
    else if ps[0].id == id then 0
    else
      var j := FirstIndexWithId(ps[1..], id);
      if j == -1 then -1 else j + 1
  }

  /** `splice(i, 1)`: the sequence without its i-th element, the others in their order. */
  function RemoveAt(ps: seq<Product>, i: nat): (r: seq<Product>)
    requires i < |ps|
    ensures |r| == |ps| - 1
  {
    seq(|ps| - 1, k requires 0 <= k < |ps| - 1 => if k < i then ps[k] else ps[k + 1])
  }

  /** The same removal as a concatenation of the slices around i. */
  lemma {:induction false} RemoveAtIsConcat(ps: seq<Product>, i: nat)
    requires i < |ps|
    ensures RemoveAt(ps, i) == ps[..i] + ps[i + 1..]
  {
    var r, c := RemoveAt(ps, i), ps[..i] + ps[i + 1..];
    assert |r| == |c|;
    forall k | 0 <= k < |r| ensures r[k] == c[k] {
      if k < i { assert c[k] == ps[k]; } else { assert c[k] == ps[k + 1]; }
    }
  }

  /** `splice(i, 1)` keeps every other product in its order: those before i stay where they
      were and those after it move down by one. */
  lemma {:induction false} RemoveAtKeepsOthers(ps: seq<Product>, i: nat)
    requires i < |ps|
    ensures forall k | 0 <= k < i :: RemoveAt(ps, i)[k] == ps[k]
    ensures forall k | i <= k < |ps| - 1 :: RemoveAt(ps, i)[k] == ps[k + 1]
  {
  }

  /** `splice(i, 1)` loses exactly one product, the i-th: the rest are kept with their
      multiplicities. */
  lemma {:induction false} RemoveAtPermutation(ps: seq<Product>, i: nat)
    requires i < |ps|
    ensures multiset(RemoveAt(ps, i)) + multiset{ps[i]} == multiset(ps)
  {
    assert ps == ps[..i] + [ps[i]] + ps[i + 1..];
    RemoveAtIsConcat(ps, i);
  }

  /** Every record passed the img guard of /add-product, which stores img unchanged: its img
      is truthy. (The stored price is parseFloat's result, which can be 0 or NaN.) */
  ghost predicate AllAccepted(ps: seq<Product>)
  {
    forall k | 0 <= k < |ps| :: Truthy(ps[k].img)
  }

  /** Appending an accepted record keeps every record accepted. */
  lemma {:induction false} AcceptedAfterAppend(ps: seq<Product>, p: Product)
    requires AllAccepted(ps) && Truthy(p.img)
    ensures AllAccepted(ps + [p])
  {
    var qs := ps + [p];
    forall k | 0 <= k < |qs| ensures Truthy(qs[k].img) {
      if k < |ps| { assert qs[k] == ps[k]; }
    }
  }

  /** Removing a record keeps every remaining record accepted. */
  lemma {:induction false} AcceptedAfterRemove(ps: seq<Product>, i: nat)
    requires i < |ps| && AllAccepted(ps)
    ensures AllAccepted(RemoveAt(ps, i))
  {
    var r := RemoveAt(ps, i);
    RemoveAtKeepsOthers(ps, i);
    forall k | 0 <= k < |r| ensures Truthy(r[k].img) {
      assert r[k] == ps[if k < i then k else k + 1];
    }
  }

  /** No two products share an id. Nothing in the server enforces it: ids are clock readings. */
  ghost predicate UniqueIds(ps: seq<Product>)
  {
    forall j, k | 0 <= j < k < |ps| :: ps[j].id != ps[k].id
  }

  /** The number of products whose id is `id`. */
  function CountWithId(ps: seq<Product>, id: string): nat
  {
    if ps == [] then 0 else (if ps[0].id == id then 1 else 0) + CountWithId(ps[1..], id)
  }

  /** Appending a product leaves every earlier match in place: a lookup finds the new product
      only when no older one has its id. */
  lemma {:induction false} FindAfterAppend(ps: seq<Product>, p: Product, id: string)
    ensures FirstIndexWithId(ps + [p], id) ==
      if FirstIndexWithId(ps, id) != -1 then FirstIndexWithId(ps, id)
      else if p.id == id then |ps|
      else -1
  {
    var qs := ps + [p];
    assert forall k | 0 <= k < |ps| :: qs[k] == ps[k];
    assert qs[|ps|] == p;
  }

  /** Products that do not match are skipped: a lookup past them finds what it finds in the
      rest, shifted by their number. */
  lemma {:induction false} FindPastPrefix(pre: seq<Product>, rest: seq<Product>, id: string)
    requires forall k | 0 <= k < |pre| :: pre[k].id != id
    ensures var j := FirstIndexWithId(rest, id);
      FirstIndexWithId(pre + rest, id) == if j == -1 then -1 else |pre| + j
  {
    var s := pre + rest;
    var j := FirstIndexWithId(rest, id);
    var bound := if j == -1 then |s| else |pre| + j;
    forall k | 0 <= k < bound ensures s[k].id != id {
      if k >= |pre| { assert s[k] == rest[k - |pre|]; }
    }
    if j != -1 {
      assert s[|pre| + j] == rest[j];
    }
  }

  /** After removing the first match, a lookup of the same id finds the next product with that
      id, if any. */
  lemma {:induction false} FindAfterRemove(ps: seq<Product>, id: string)
    requires FirstIndexWithId(ps, id) != -1
    ensures var i := FirstIndexWithId(ps, id);
      var j := FirstIndexWithId(ps[i + 1..], id);
      FirstIndexWithId(RemoveAt(ps, i), id) == if j == -1 then -1 else i + j
  {
    var i := FirstIndexWithId(ps, id);
    var pre := ps[..i];
    RemoveAtIsConcat(ps, i);
    assert forall k | 0 <= k < |pre| :: pre[k] == ps[k];
    FindPastPrefix(pre, ps[i + 1..], id);
  }

  /** With unique ids a deleted product can no longer be looked up. */
  lemma {:induction false} DeleteThenGetUnique(ps: seq<Product>, id: string)
    requires UniqueIds(ps) && FirstIndexWithId(ps, id) != -1
    ensures FirstIndexWithId(RemoveAt(ps, FirstIndexWithId(ps, id)), id) == -1
  {
    var i := FirstIndexWithId(ps, id);
    FindAfterRemove(ps, id);
    var tail := ps[i + 1..];
    forall k | 0 <= k < |tail| ensures tail[k].id != id {
      assert tail[k] == ps[i + 1 + k];
    }
  }

  /** Without unique ids it can: two products created in the same millisecond share an id, and
      deleting that id removes the first while a lookup then finds the second. */
  lemma {:induction false} DuplicateIdSurvivesDelete(a: Product, b: Product)
    requires a.id == b.id
    ensures FirstIndexWithId(RemoveAt([a, b], 0), a.id) == 0
    ensures RemoveAt([a, b], 0)[0] == b
  {
  }

  lemma {:induction false} CountConcat(xs: seq<Product>, ys: seq<Product>, id: string)
    ensures CountWithId(xs + ys, id) == CountWithId(xs, id) + CountWithId(ys, id)
  {
    if xs == [] {
      assert xs + ys == ys;
    } else {
      assert (xs + ys)[1..] == xs[1..] + ys;
      CountConcat(xs[1..], ys, id);
    }
  }

  /** Deleting removes exactly one product with the id: the count of products with that id
      drops by one, and the total length by one. */
  lemma {:induction false} CountAfterRemove(ps: seq<Product>, i: nat)
    requires i < |ps|
    ensures CountWithId(RemoveAt(ps, i), ps[i].id) == CountWithId(ps, ps[i].id) - 1
  {
    var id, before, after := ps[i].id, ps[..i], ps[i + 1..];
    var rest := [ps[i]] + after;
    assert rest[1..] == after;
    assert CountWithId(rest, id) == 1 + CountWithId(after, id);
    assert ps == before + rest;
    CountConcat(before, rest, id);
    RemoveAtIsConcat(ps, i);
    CountConcat(before, after, id);
  }

  /** Adding a product whose id no stored product has keeps ids unique. */
  lemma {:induction false} UniqueIdsAfterAppend(ps: seq<Product>, p: Product)
    requires UniqueIds(ps) && FirstIndexWithId(ps, p.id) == -1
    ensures UniqueIds(ps + [p])
  {
    var qs := ps + [p];
    forall j, k | 0 <= j < k < |qs| ensures qs[j].id != qs[k].id {
      assert qs[j] == ps[j];
      if k < |ps| { assert qs[k] == ps[k]; }
    }
  }

  /** Removing a product keeps ids unique. */
  lemma {:induction false} UniqueIdsAfterRemove(ps: seq<Product>, i: nat)
    requires i < |ps| && UniqueIds(ps)
    ensures UniqueIds(RemoveAt(ps, i))
  {
    var r := RemoveAt(ps, i);
    RemoveAtKeepsOthers(ps, i);
    forall j, k | 0 <= j < k < |r| ensures r[j].id != r[k].id {
      var j' := if j < i then j else j + 1;
      var k' := if k < i then k else k + 1;
      assert r[j] == ps[j'] && r[k] == ps[k'];
    }
  }
}

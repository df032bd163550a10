# Product catalogue server, modelled in Dafny

This project models the product API of the catalogue admin panel's Express server
(`server.js`). The server keeps the product table as a module-level array. `POST /add-product`
checks the required fields, builds a record and appends it. `GET /products` returns the whole
table. `GET /products/:id` returns the first product with that id. `DELETE /products/:id`
splices out the first match and removes its image file. `POST /upload-image` stores an image
under a generated name.

Layout:

- `outcomes.dfy` (`Outcomes`): `Option`, `Result`, the failures the server reports, and the
  status and message of each.
- `js.dfy` (`Js`): the JavaScript semantics the handlers rely on. It covers the values a parsed
  request body holds, truthiness (`!x`), `String.prototype.trim`, and `String(n)` for whole
  numbers, with its inverse.
- `node_path.dfy` (`NodePath`): Node's `path.extname`.
- `upload.dfy` (`Upload`): multer's fileFilter and size limit, and the stored-file name with a
  parser that reads it back.
- `products.dfy` (`Products`): the product record and the required-field guards. It also has
  the record literal of `/add-product`, the first-match search used by `find` and `findIndex`,
  `splice(i, 1)`, and lemmas about lookups after an append or a removal.
- `server.dfy` (`Server`): class `Catalog`, whose fields are the `products` table and the
  uploads directory (a set of file names). Its methods are the route handlers. The `find` and
  `findIndex` scans are loops. Two client methods at the end combine the handlers:
  create, get, delete, get; and deleting a product whose image file is missing.

Clock readings (`Date.now()`, `new Date().toISOString()`) and the random number of the upload
name (`Math.random()`) are parameters of the handlers.

Behaviour of the code worth knowing:

- Ids are `Date.now().toString()`, and nothing makes them unique. Lookup and delete act on the
  first match. "Delete then get answers 404" holds only when ids are unique
  (`DeleteThenGetUnique`). Two products created in the same millisecond share an id, and after
  deleting that id the second one is still found (`DuplicateIdSurvivesDelete`).
- A file refused by the fileFilter or by the size limit is answered with 500, not 400.
  multer passes both errors to the error middleware.
- `price` is required by the server, although the admin page never sends it.
- This server has no login, sessions or authorisation check on any route.

## Model

| member | source | states |
|---|---|---|
| `Outcomes.Status` | server.js:61-208 | a failure is answered 400, 404 or 500; 404 exactly for an unknown id; 500 exactly for the multer refusals, the TypeErrors and an unlink of a directory |
| `Outcomes.Message` | server.js:61-208 | every error message is non-empty, and it starts with the error middleware's or the add-product catch block's prefix exactly when the answer is a 500 |
| `Outcomes.RepliesTellFailuresApart` | server.js:93-208 | in the model, whose messages leave out the engine's text, two failures with the same status and message are the same failure, except among the `trim` TypeErrors and among the two image-cleanup errors |
| `Js.Truthy` | server.js:92-106 | `!v` is true exactly for undefined, null, false, 0 and "" |
| `Js.Trim` | server.js:116-119 | the trimmed text is no longer than the input and neither starts nor ends with white space |
| `Js.TrimIsSlice` | server.js:116-119 | trim removes white space from both ends only: the result is the contiguous slice of the input after its leading white space, and everything before and after it is white space |
| `Js.TrimOfPadded` | server.js:116-119 | trim has exactly one answer: a text whose ends are not white space, padded with white space on either side, trims to itself |
| `Js.TrimIdempotent` | server.js:116-119 | trimming a stored name or description again changes nothing |
| `Js.TrimOfBlank` | server.js:116 | a text of white space only trims to "" |
| `Js.DecimalString` | server.js:29 | `String(n)` of a whole number is a non-empty run of decimal digits without a leading zero |
| `Js.DecimalRoundTrip` | server.js:29 | reading back the digits of `String(n)` gives n |
| `NodePath.ExtName` | server.js:29 | `path.extname` is empty, or one '.' followed by characters that are neither '.' nor '/', taken from the end of the last path component |
| `NodePath.ExtNameOfFileName` | server.js:29 | a file name "base.e" with a non-empty base has the extension ".e" |
| `NodePath.ExtNameWithoutDot` | server.js:29 | a name without '.' has no extension |
| `Upload.AcceptsMimeType` | server.js:40-45 | a mimetype is accepted exactly when it is "image/" followed by anything |
| `Upload.StoredName` | server.js:28-31 | the stored name is a plain file name inside the uploads directory: non-empty, no '/', starting with a digit |
| `Upload.CheckFile` | server.js:34-46 | an upload is let through exactly when its mimetype starts with "image/" and it is at most 10 MB; the mimetype is checked first |
| `Upload.StoredNameRoundTrip` | server.js:28-31 | a stored name `ts + "-" + rnd + extname(original)` parses back into the clock reading, the random number and the extension |
| `Upload.StoredNameInjective` | server.js:29 | two uploads get the same stored name only with the same clock reading, the same random number and the same extension |
| `Upload.StoredNameKeepsExtension` | server.js:29 | the stored file has the extension of the uploaded file's original name |
| `Products.Validate` | server.js:89-111 | add-product is refused with 400 exactly when name, price or img is falsy; the failure names the first falsy field in the order name, price, img |
| `Products.MakeRecord` | server.js:113-121 | the record literal fails with a 500 exactly when name is not a string, or description is truthy and not a string; the record carries the given id, creation time and img unchanged, and the submitted price (parseFloat is not modelled) |
| `Products.RecordOfAcceptedRequest` | server.js:113-121 | an accepted record has a truthy img, img as submitted, the trimmed name, and the trimmed description or "" |
| `Products.BlankNameStoredEmpty` | server.js:92-116 | the guard tests the untrimmed name, so a white-space-only name is accepted and stored as "" |
| `Products.FirstIndexWithId` | server.js:158-176 | the index `find` and `findIndex` stop at: -1 exactly when no product has the id, otherwise a product with the id and none before it |
| `Products.RemoveAt` | server.js:185 | `splice(i, 1)` leaves one product fewer |
| `Products.RemoveAtKeepsOthers` | server.js:185 | `splice(i, 1)` keeps every other product in order: those before i stay in place and those after it move down by one |
| `Products.RemoveAtPermutation` | server.js:185 | the multiset of products after `splice(i, 1)` is the one before less just the i-th product |
| `Products.FindAfterAppend` | server.js:124-158 | after an append, a lookup finds the new product exactly when no older product has its id, and otherwise finds the same product as before |
| `Products.FindAfterRemove` | server.js:176-185 | after deleting the first match, a lookup of the same id finds the next product with that id, if any |
| `Products.DeleteThenGetUnique` | server.js:174-185 | with unique ids, a deleted id can no longer be found |
| `Products.DuplicateIdSurvivesDelete` | server.js:115 | with two products sharing an id, deleting that id leaves the second one to be found |
| `Products.AcceptedAfterAppend` | server.js:106-124 | appending a record whose img is truthy keeps every stored img truthy |
| `Products.AcceptedAfterRemove` | server.js:185 | removing a record keeps every remaining img truthy |
| `Products.CountAfterRemove` | server.js:185 | a delete removes exactly one product with the id |
| `Products.UniqueIdsAfterAppend` | server.js:115-124 | appending a product whose id is not yet stored keeps ids unique |
| `Products.UniqueIdsAfterRemove` | server.js:185 | deleting keeps ids unique |
| `Server.Catalog.constructor` | server.js:18-21 | the table starts empty; the uploads directory keeps the files it already has |
| `Server.Catalog.UploadImage` | server.js:58-82 | no file part gives 400; a refused file gives the filter's or the size limit's failure and stores nothing; an accepted file is added under `ts-rnd.ext` and its name and `/uploads/` URL are returned |
| `Server.Catalog.AddProduct` | server.js:85-143 | a refused or failing request leaves the table unchanged; an accepted one appends exactly the new record at the end and reports the new length as `totalProducts`; every stored img stays truthy |
| `Server.Catalog.ListProducts` | server.js:146-153 | returns the whole table in insertion order and its length |
| `Server.Catalog.GetById` | server.js:156-171 | returns the first product with the id, or 404 when none has it; the table is not modified |
| `Server.Catalog.FindIndex` | server.js:176 | returns the index of the first product with the id, or -1 |
| `Server.Catalog.DeleteImageFile` | server.js:187-193 | a falsy img leaves the uploads directory alone; a non-string truthy img makes `path.join` throw (500) and removes nothing; "." or ".." names a directory, so `unlinkSync` throws (500) and nothing is removed; any other string leaves the directory without that name, whether or not the file was there |
| `Server.Catalog.DeleteProduct` | server.js:174-200 | an unknown id gives 404 and changes nothing. Otherwise the first match is spliced out; its image name leaves the uploads set, whether or not the file was there, and the product is returned. A truthy non-string img, or an img naming a directory, makes the cleanup throw after the splice: 500, product already gone |

## Left out

- Express, multer and cors wiring is not modelled. Neither are static file serving, the `/` route, `app.listen`, the SIGINT handler and console logging.
- The filesystem is the set of file names in the uploads directory. `existsSync`, `unlinkSync`, `mkdirSync` and the multer disk writes are not modelled beyond that set.
- `Server.Catalog.DeleteProduct`: `path.join(__dirname, 'uploads', img)` normalises the path. A string img holding '/' can name a file outside the uploads directory, a different file inside it, or a directory (such as "a/.."), whose `unlinkSync` throws and is answered 500. The model handles only the slash-free directory names "." and ".."; for every other string it removes the name `img` itself from the set.
- `Server.Catalog.DeleteImageFile`: the same path normalisation is not modelled. An img holding '/' is treated as a plain name of the uploads directory, even when it resolves to a file elsewhere or to a directory, where the program's `unlinkSync` would throw.
- The working directory is assumed to be the server's own directory. multer and the start-up `mkdirSync` use the relative path `uploads/`, while DELETE looks in `path.join(__dirname, 'uploads')`. Started from elsewhere, these are two directories: DELETE never finds an uploaded file and leaves it in place, while the model removes it from the one set it keeps.
- `parseFloat(price)` is not modelled (floating point). A record keeps the submitted price value.
- `Server.Catalog.AddProduct`: the stored price is `parseFloat(price)`, which is 0 for "0" and NaN for "abc" or `true`, so a stored price can be falsy; the model keeps the submitted value and promises nothing about the stored price beyond that. A price object whose `toString` and `valueOf` are not callable makes `parseFloat` throw, which the route answers with 500 and no append; the model treats every object price as accepted and appends.
- `Products.RecordOfAcceptedRequest`: says nothing about the truthiness of the stored price, for the reason in the line above.
- `Date.now()`, `Math.random()` and `new Date().toISOString()` are parameters.
- `Server.Catalog.UploadImage`: the random part is not bounded to the range 0 to 10^9 that `Math.round(Math.random() * 1E9)` gives.
- `Js.DecimalString` covers whole numbers only. JavaScript prints numbers of 10^21 and above in exponent form.
- JavaScript strings are UTF-16 code units. The model's characters are Unicode scalar values.
- `Upload.CheckFile`: the 10 MB limit is a comparison of the file's size. Byte-stream enforcement and the removal of a partly written file are not modelled.
- Upload to a multipart field other than `image` (multer's unexpected-field error) is not modelled. Neither are several files in one request.
- The text that 500 answers append to their prefix comes from the JavaScript engine and is not modelled. Neither is the catch-all 404 middleware.
- A JSON or url-encoded array or object field is one value, `Compound`. It is truthy and has no `trim`.
- The admin page, the product detail page, the storefront script and the static product data are client-side rendering with no server logic. They are not part of this model.
- Concurrency is not modelled. Node runs these handlers one at a time and they share no awaited steps.
- The table's length over a run is not a separate lemma. It is the number of accepted creates minus the number of deletes that reached the splice, including those answered 500 because the image cleanup threw. This follows from the new state stated by `AddProduct` and `DeleteProduct` for each call and the length stated by `RemoveAt`.

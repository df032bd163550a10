/** What a route handler answers: a value, or a failure with its HTTP status and message. */
module Outcomes {

  datatype Option<T> = None | Some(value: T)

  /** The failures the server reports, each with the status it is answered with. */
  datatype Failure =
    | MissingName             // /add-product, `name` falsy
    | MissingPrice            // /add-product, `price` falsy
    | MissingImage            // /add-product, `img` falsy
    | NoFileUploaded          // /upload-image without a file part
    | ProductNotFound         // GET or DELETE /products/:id with no matching id
    | NotAnImage              // multer's fileFilter refused the mimetype
    | FileTooLarge            // multer's fileSize limit was exceeded
    | NotAString(field: string) // a string method or path.join was applied to a non-string field (TypeError)
    | UnlinkDirectory         // DELETE: the image path is a directory, so unlinkSync throws

  datatype Result<T> = Ok(value: T) | Err(failure: Failure)

  /** The prefix the error middleware puts before an error's message. */
  const ServerErrorPrefix: string := "伺服器內部錯誤: "

  /** The prefix the catch block of /add-product puts before an error's message. */
  const AddFailedPrefix: string := "新增產品失敗: "

  /** The HTTP status each failure is answered with. Multer errors and the TypeError thrown by
      path.join while deleting reach the error middleware, which answers 500; the TypeError of
      `trim` in /add-product is caught by that route and also answered 500. Everything the
      handlers check themselves is a 4xx. */
  function Status(f: Failure): (code: nat)
    ensures code == 400 || code == 404 || code == 500
    ensures code == 404 <==> f == ProductNotFound
    ensures code == 500 <==> f.NotAnImage? || f.FileTooLarge? || f.NotAString? || f.UnlinkDirectory?
  {
    match f
    case MissingName => 400
    case MissingPrice => 400
    case MissingImage => 400
    case NoFileUploaded => 400
    case ProductNotFound => 404
    case NotAnImage => 500
    case FileTooLarge => 500
    case NotAString(_) => 500
    case UnlinkDirectory => 500
  }

  /** The `message` of the error body. For a TypeError only the prefix is fixed; the rest is the
      JavaScript engine's text and is not modelled. A message starts with one of the two error
      prefixes exactly when the answer is a 500. */
  function Message(f: Failure): (m: string)
    ensures m != []
    ensures Status(f) == 500 <==> ServerErrorPrefix <= m || AddFailedPrefix <= m
  {
    match f
    case MissingName => "產品名稱為必填"
    case MissingPrice => "產品價格為必填"
    case MissingImage => "產品圖片為必填"
    case NoFileUploaded => "沒有上傳檔案"
    case ProductNotFound => "找不到該產品"
    case NotAnImage => ServerErrorPrefix + "只允許上傳圖片檔案!"
    case FileTooLarge => ServerErrorPrefix + "File too large"
    case NotAString(field) => if field == "img" then ServerErrorPrefix else AddFailedPrefix
    case UnlinkDirectory => ServerErrorPrefix
  }

  /** The errors of /add-product's record literal: `trim` applied to a non-string. */
  predicate IsTrimError(f: Failure)
  {
    f.NotAString? && f.field != "img"
  }

  /** The errors thrown while DELETE removes the image file: path.join on a non-string, and
      unlinkSync on a directory. */
  predicate IsImageCleanupError(f: Failure)
  {
    f == NotAString("img") || f == UnlinkDirectory
  }

  /** The model's replies tell every failure apart by status and message, except within the
      two groups whose replies differ only in the engine's text, which the model leaves out. */
  lemma {:induction false} RepliesTellFailuresApart(f: Failure, g: Failure)
    requires Status(f) == Status(g) && Message(f) == Message(g)
    ensures f == g || (IsTrimError(f) && IsTrimError(g)) || (IsImageCleanupError(f) && IsImageCleanupError(g))
  {
  }
}

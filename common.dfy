/** Values shared by every provider module: the uniform resource handle that
    listing produces and the error-carrying results of provider calls. */
module Common {

  /** Go's `error`: `None` stands for a nil error. */
  datatype Option<+T> = None | Some(value: T)

  /** A value together with a nil error, or a non-nil error. */
  datatype Result<+T> = Success(value: T) | Failure(error: string)

  /** `common.Deletable` as far as selection sees it: the category tag that
      `Type()` returns and the identifier that `Name()` returns. The deletion
      call itself belongs to the deleter and is not part of this model. */
  datatype Deletable = Deletable(kind: string, name: string)
}

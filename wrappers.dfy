/** Option and Result, the two failure-carrying wrappers used across the model,
    and the exceptions the adapter raises. */
module Wrappers {

  datatype Option<+T> = None | Some(value: T) {
    function GetOr(default: T): T {
      match this
      case Some(v) => v
      case None => default
    }
  }

  /** Everything the adapter throws, by the place that throws it. */
  datatype Error =
    | NotAModel
      // RecordExtractor::forModel: the class is not an FMLaravel model
    | StoreError(code: int, message: string)
      // FileMakerException::newFromError: an error-shaped vendor result, code and message kept
    | UnsupportedDelete
      // QueryBuilder::delete called with an id
    | UnsupportedContainerValue
      // Model::setAttribute: a container field set to a value no ContainerField can be made from
    | NoRecordReturned
      // a successful write whose result holds no record (PHP then calls a method on `false`)
    | MissingRelatedRecords(relation: string)
      // RecordRelation::match on a model whose metadata holds no array for the
      // relation: array_map gives null, which hydrate's array parameter refuses
    | NotAString
      // a find criterion whose value is an object, which PHP cannot turn into a string
    | ObjectAsArray
      // an offset read `$v[$k]` on an object that does not implement ArrayAccess
    | ClassNotFound(name: string)
      // `new` of a class that is neither declared nor imported

  datatype Result<+T> = Success(value: T) | Failure(error: Error) {
    predicate IsFailure() {
      Failure?
    }

    function PropagateFailure<U>(): Result<U>
      requires Failure?
    {
      Failure(error)
    }

    function Extract(): T
      requires Success?
    {
      value
    }
  }
}

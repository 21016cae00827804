/** The part of Arrow's `Either` that the gateway uses: a value that is either
    a failure (`Left`) or a success (`Right`), and `map`, which rewrites a
    success and passes a failure through unchanged. */
module ArrowCore {

  datatype Either<+A, +B> = Left(left: A) | Right(right: B) {

    /** Arrow's `map`: a `Left` comes back verbatim, a `Right` is transformed. */
    function Map<C>(f: B -> C): (r: Either<A, C>)
      ensures r.Left? <==> Left?
      ensures Left? ==> r.left == left
      ensures Right? ==> r.right == f(right)
    {
      match this
      case Left(a) => Left(a)
      case Right(b) => Right(f(b))
    }
  }
}

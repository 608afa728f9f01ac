/** Optional values: a JavaScript field that may be `undefined`/`null` is an `Option`. */
module Wrappers {

  datatype Option<+T> = None | Some(value: T) {

    /** The value, or `default` when absent (JavaScript's `x ?? default`). */
    function GetOr(default: T): T {
      match this
      case Some(v) => v
      case None => default
    }

    /** This value when present, else `other`: a field an update sets only when it is given. */
    function Or(other: Option<T>): (r: Option<T>)
      ensures r.Some? <==> this.Some? || other.Some?
      ensures this.Some? ==> r == this
      ensures this.None? ==> r == other
    {
      if this.Some? then this else other
    }
  }
}

/** The `{ success, message, <payload> }` JSON reply every handler sends, with its HTTP status. */
module Http {
  import opened Wrappers

  datatype Response<T> = Response(status: nat, success: bool, message: string, data: Option<T>)

  /** A failure reply: `res.status(status).json({ success: false, message })`. */
  function Fail<T>(status: nat, message: string): Response<T>
  {
    Response(status, false, message, None)
  }

  /** A `200` reply that still says `success: false` (the doctor flows answer this way). */
  function Refuse<T>(message: string): Response<T>
  {
    Response(200, false, message, None)
  }

  /** A successful `200` reply carrying `data`. */
  function Ok<T>(message: string, data: Option<T>): Response<T>
  {
    Response(200, true, message, data)
  }

  /** The state a handler leaves behind, together with its reply. */
  datatype Outcome<T, S> = Outcome(response: Response<T>, after: S)
}

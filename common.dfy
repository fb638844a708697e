/** Values shared by every part of the model: optional values, results with
    an error side, the loosely typed values of JavaScript objects, and the
    video record that the upstream collection APIs return. */
module Common {

  datatype Option<T> = None | Some(value: T) {
    function GetOr(default: T): T {
      match this
      case Some(v) => v
      case None => default
    }
  }

  datatype Result<T, E> = Success(value: T) | Failure(error: E)

  /** A JSON-like value as stored in a history record or in the settings. */
  datatype Value = Undefined | Null | Bool(b: bool) | Num(n: real) | Str(s: string)

  /** One `name=value` pair of a URL's query, before percent-encoding. */
  datatype Pair = Pair(key: string, value: string)

  /** A video record as the collection API returns it; only the fields the
      core reads are kept. `playUrl` is `vod_play_url`, which may be absent. */
  datatype Vod = Vod(id: string, name: string, pic: string, typeName: string, playUrl: Option<string>)
}

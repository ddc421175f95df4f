/** Small shared vocabulary. */
module Base {

  datatype Option<+T> = None | Some(value: T)

  /** The larger of two integers. */
  function Max(a: int, b: int): int {
    if a < b then b else a
  }

  /** A user as the panel reports it. */
  datatype UserInfo = UserInfo(id: int, uuid: string, speedLimit: int, deviceLimit: int)
}

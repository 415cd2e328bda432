/** `shortenId` (utils/shortenId.ts): keep the last `lengthToKeep` characters of an id. */
module ShortenId {
  import Js

  const DEFAULT_LENGTH_TO_KEEP := 10

  /**
   * `shortenId(id, lengthToKeep)`: the id itself when it is no longer than
   * `lengthToKeep`, otherwise `id.slice(-lengthToKeep)`. Since `-0` is `0`, a
   * `lengthToKeep` of 0 keeps the whole id, and a negative one drops that many
   * characters from the front.
   */
  function Shorten(id: string, lengthToKeep: int): (r: string)
    ensures |id| <= lengthToKeep ==> r == id
    ensures |r| <= |id|
    ensures lengthToKeep > 0 ==> |r| == (if |id| < lengthToKeep then |id| else lengthToKeep)
    ensures lengthToKeep >= 0 ==> r == id[|id| - |r|..]
    ensures lengthToKeep == 0 ==> r == id
    ensures lengthToKeep < 0 ==> r == id[(if -lengthToKeep < |id| then -lengthToKeep else |id|)..]
  {
    if |id| <= lengthToKeep then id else Js.Slice(id, -lengthToKeep)
  }

  /** `shortenId(id)` with the default of ten characters. */
  function ShortenDefault(id: string): (r: string)
    ensures |r| == (if |id| < DEFAULT_LENGTH_TO_KEEP then |id| else DEFAULT_LENGTH_TO_KEEP)
    ensures r == id[|id| - |r|..]
  {
    Shorten(id, DEFAULT_LENGTH_TO_KEEP)
  }

  /** Shortening twice with the same positive length is shortening once. */
  lemma ShortenIdempotent(id: string, lengthToKeep: int)
    requires lengthToKeep > 0
    ensures Shorten(Shorten(id, lengthToKeep), lengthToKeep) == Shorten(id, lengthToKeep)
  {
  }
}

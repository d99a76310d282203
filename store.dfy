/**
 * Values shared by the document-store model: an optional field, and the
 * loosely typed values the UI session dictionary holds.
 *
 * A MongoDB collection is modelled as a sequence of documents in natural
 * order, so `find_one` and `update_one` act on the first document that matches
 * their filter.
 */
module Store {

  /** A document field that may be absent; `GetOr` is Python's `dict.get(key, default)`. */
  datatype Option<+T> = None | Some(value: T) {
    function GetOr(default: T): (r: T)
      ensures Some? ==> r == value
      ensures None? ==> r == default
    {
      match this
      case Some(v) => v
      case None => default
    }
  }

  /**
   * The index of the first element of `s` that satisfies `p`: the document a
   * `find_one` or `update_one` with filter `p` acts on.
   */
  function First<T>(s: seq<T>, p: T -> bool): (r: Option<nat>)
    ensures r.Some? ==> r.value < |s| && p(s[r.value])
    ensures r.Some? ==> forall j :: 0 <= j < r.value ==> !p(s[j])
    ensures r.None? <==> forall j :: 0 <= j < |s| ==> !p(s[j])
  {
    if |s| == 0 then None
    else if p(s[0]) then Some(0)
    else match First(s[1..], p)
      case None => None
      case Some(k) => Some(k + 1)
  }

  /** Document identifiers (`ObjectId`s), kept as their string form. */
  type Id = string

  /** A value stored in the per-browser session dictionary. */
  datatype Value = Text(text: string) | Number(number: real) | Flag(flag: bool)
}

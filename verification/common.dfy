/** Small shared vocabulary: optional values (a JSON field that may be absent,
    a lookup that may miss) and the first-match search that both the in-memory
    `Array.prototype.find` and the document store's `findOne` perform. */
module Common {

  datatype Option<+T> = None | Some(value: T) {
    /** The value, or a default when absent (JavaScript's `x ?? d` / default parameter). */
    function GetOr(default: T): T {
      match this
      case Some(v) => v
      case None => default
    }
  }

  function Min(a: int, b: int): (m: int)
    ensures m <= a && m <= b
    ensures m == a || m == b
  {
    if a <= b then a else b
  }

  /** Index of the first element satisfying `p`, if any. */
  function FindFirst<T>(s: seq<T>, p: T -> bool): (r: Option<nat>)
    ensures r.Some? ==> r.value < |s| && p(s[r.value])
    ensures r.Some? ==> forall j :: 0 <= j < r.value ==> !p(s[j])
    ensures r.None? <==> forall j :: 0 <= j < |s| ==> !p(s[j])
  {
    if |s| == 0 then None
    else if p(s[0]) then Some(0)
    else
      match FindFirst(s[1..], p)
      case None => None
      case Some(k) => Some(k + 1)
  }

  /** The first match is the only index that is a match with no match before it. */
  lemma FindFirstIs<T>(s: seq<T>, p: T -> bool, k: nat)
    requires k < |s| && p(s[k])
    requires forall j :: 0 <= j < k ==> !p(s[j])
    ensures FindFirst(s, p) == Some(k)
  {
    assert FindFirst(s, p).Some?;
  }
}

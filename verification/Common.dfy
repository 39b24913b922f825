/** What several modules share: optional values, and the elements of a sequence. */
module Common {
  datatype Option<+T> = None | Some(value: T) {
    function GetOr(default: T): T {
      match this
      case Some(v) => v
      case None => default
    }
  }

  predicate Distinct<T(==)>(s: seq<T>) {
    forall i, j :: 0 <= i < j < |s| ==> s[i] != s[j]
  }

  function Range<T>(s: seq<T>): set<T> {
    set x | x in s
  }

  lemma RangeOneMore<T>(s: seq<T>, i: nat)
    requires i < |s|
    ensures Range(s[..i + 1]) == Range(s[..i]) + {s[i]}
  {
    assert s[..i + 1] == s[..i] + [s[i]];
  }

  function Last<T>(s: seq<T>): T
    requires s != []
  {
    s[|s| - 1]
  }
}

/** Small types shared by every component model. */
module Common {

  datatype Option<+T> = None | Some(value: T)

  datatype Result<+T, +E> = Ok(value: T) | Err(error: E)

  /** One octet. */
  type Byte = b: nat | b < 256

  type Bytes = seq<Byte>

  /** Some element of a non-empty finite set has the least measure. */
  lemma {:induction false} LeastExists<K>(s: set<K>, measure: map<K, nat>)
    requires s != {} && s <= measure.Keys
    ensures exists k :: k in s && forall j :: j in s ==> measure[k] <= measure[j]
    decreases |s|
  {
    var x :| x in s;
    if s == {x} {
      assert forall j :: j in s ==> measure[x] <= measure[j];
    } else {
      var rest := s - {x};
      LeastExists(rest, measure);
      var k :| k in rest && forall j :: j in rest ==> measure[k] <= measure[j];
      var least := if measure[x] <= measure[k] then x else k;
      forall j | j in s ensures measure[least] <= measure[j] {
        if j != x { assert j in rest; }
      }
    }
  }

  ghost predicate Distinct<T>(s: seq<T>) {
    forall i, j :: 0 <= i < j < |s| ==> s[i] != s[j]
  }

  lemma SubsetSize<T>(a: set<T>, b: set<T>)
    requires a <= b
    ensures |a| <= |b|
  {
    assert b == a + (b - a);
  }
}

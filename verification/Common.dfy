/** Values shared by every component. */
module Common {

  /** The conventional optional value: a nullable column or a query that may find nothing. */
  datatype Option<+T> = None | Some(value: T)

  function Max(a: int, b: int): (m: int)
    ensures m >= a && m >= b && (m == a || m == b)
  {
    if a < b then b else a
  }

  // ----- There is always another identifier -----

  lemma NewNumber(ids: set<nat>)
    ensures exists id: nat :: id !in ids
  {
    var bound := Bound(ids);
    assert bound !in ids;
  }

  lemma {:induction false} Bound(ids: set<nat>) returns (b: nat)
    ensures forall i :: i in ids ==> i < b
  {
    if ids == {} {
      b := 0;
    } else {
      var x :| x in ids;
      var rest := Bound(ids - {x});
      b := if rest > x then rest else x + 1;
      forall i | i in ids ensures i < b { assert i == x || i in ids - {x}; }
    }
  }

  lemma NewString(texts: set<string>)
    ensures exists text: string :: text !in texts
  {
    var lengths := set x | x in texts :: |x|;
    NewNumber(lengths);
    var n: nat :| n !in lengths;
    var text := seq(n, _ => 'x');
    assert |text| == n && (text in texts ==> |text| in lengths);
  }
}

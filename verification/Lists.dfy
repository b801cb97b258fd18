/** Small operations on lists that several modules share. */
module Lists {

  function Min(a: nat, b: nat): nat {
    if a <= b then a else b
  }

  /** No element occurs twice. */
  predicate Distinct<T(==)>(s: seq<T>) {
    forall i, j | 0 <= i < j < |s| :: s[i] != s[j]
  }

  /** `skip` and `take` on a whole result. */
  function Window<T>(rows: seq<T>, skip: nat, take: nat): seq<T> {
    rows[Min(skip, |rows|)..Min(skip + take, |rows|)]
  }
}

/** Small value types shared by the models. */
module Common {

  datatype Option<+T> = None | Some(value: T)

  /** SQL COALESCE(prior, now) on a nullable timestamp column. */
  function Coalesce(prior: Option<int>, now: int): (r: Option<int>)
    ensures r.Some?
    ensures prior.Some? ==> r == prior
  {
    if prior.Some? then prior else Some(now)
  }

  /** A non-empty set has a member. */
  lemma AnyMember<T>(members: set<T>) returns (x: T)
    requires members != {}
    ensures x in members
  {
    x :| x in members;
  }

  lemma {:induction false} SubsetSize<T>(a: set<T>, b: set<T>)
    requires a <= b
    ensures |a| <= |b|
    decreases |a|
  {
    if a != {} {
      var x := AnyMember(a);
      SubsetSize(a - {x}, b - {x});
    }
  }

  function Min(a: nat, b: nat): nat {
    if a < b then a else b
  }

  /** Two adjacent slices make up the slice of both. */
  lemma JoinSlices<T>(all: seq<T>, from: nat, middle: nat, to: nat)
    requires from <= middle <= to <= |all|
    ensures all[from..middle] + all[middle..to] == all[from..to] && all[from..to][..middle - from] == all[from..middle]
  {
  }

  lemma Associative<T>(a: seq<T>, b: seq<T>, c: seq<T>)
    ensures a + (b + c) == (a + b) + c
  {
  }
}

/** Lists picked from a list: at some of its places, or one of each kind. */
module Lists {
  predicate Same<T(==)>(a: T, b: T) {
    a == b
  }

  /** `at` are the places in `all` of the first ones, in order, that are unlike all before; `listed` holds exactly
      those. */
  ghost predicate Firsts<T>(all: seq<T>, listed: seq<T>, at: seq<nat>, like: (T, T) -> bool) {
    && Picked(all, listed, at)
    && (forall i, j :: 0 <= i < j < |listed| ==> !like(listed[i], listed[j]))
    && (forall p :: 0 <= p < |all| ==> Represented(all[p], p, listed, at, like))
  }

  ghost predicate Picked<T>(all: seq<T>, listed: seq<T>, at: seq<nat>) {
    && |at| == |listed|
    && (forall i :: 0 <= i < |at| ==> at[i] < |all| && listed[i] == all[at[i]])
    && (forall i, j :: 0 <= i < j < |at| ==> at[i] < at[j])
  }

  /** Something listed is like this and stands no later. */
  ghost predicate Represented<T>(s: T, p: nat, listed: seq<T>, at: seq<nat>, like: (T, T) -> bool)
    requires |at| == |listed|
  {
    exists i :: 0 <= i < |listed| && at[i] <= p && like(listed[i], s)
  }

  ghost predicate ListsFirsts<T>(all: seq<T>, listed: seq<T>, like: (T, T) -> bool) {
    exists at :: Firsts(all, listed, at, like)
  }

  /** Exactly the elements at these places, in order. */
  ghost predicate ListsPlaces<T>(all: seq<T>, listed: seq<T>, places: set<nat>) {
    exists at: seq<nat> :: Picked(all, listed, at) && AtPlaces(at, places)
  }

  ghost predicate AtPlaces(at: seq<nat>, places: set<nat>) {
    forall p :: p in at <==> p in places
  }

  // ---- One more ----

  lemma FirstsKnown<T>(all: seq<T>, listed: seq<T>, at: seq<nat>, like: (T, T) -> bool, s: T, i: nat)
    requires Firsts(all, listed, at, like) && i < |listed| && like(listed[i], s)
    ensures Firsts(all + [s], listed, at, like)
  {
    var all' := all + [s];
    forall p | 0 <= p < |all'| ensures Represented(all'[p], p, listed, at, like) {
      if p < |all| {
        assert Represented(all[p], p, listed, at, like);
      } else {
        assert at[i] < |all|;
      }
    }
  }

  lemma PickedMore<T>(all: seq<T>, listed: seq<T>, at: seq<nat>, s: T)
    requires Picked(all, listed, at)
    ensures Picked(all + [s], listed + [s], at + [|all|])
  {
  }

  lemma FirstsNew<T>(all: seq<T>, listed: seq<T>, at: seq<nat>, like: (T, T) -> bool, s: T)
    requires Firsts(all, listed, at, like) && like(s, s) && forall i :: 0 <= i < |listed| ==> !like(listed[i], s)
    ensures Firsts(all + [s], listed + [s], at + [|all|], like)
  {
    assert |at| == |listed|;
    hide Picked;
    PickedMore(all, listed, at, s);
    var (all', listed', n) := (all + [s], listed + [s], |listed|);
    forall p | 0 <= p < |all'| ensures Represented(all'[p], p, listed', at + [|all|], like) {
      if p < |all| {
        RepresentedMore(all[p], p, listed, at, like, s, |all|);
      } else {
        assert listed'[n] == s && (at + [|all|])[n] == |all|;
      }
    }
    hide Represented;
  }

  lemma RepresentedMore<T>(r: T, p: nat, listed: seq<T>, at: seq<nat>, like: (T, T) -> bool, s: T,
                        n: nat)
    requires |at| == |listed| && Represented(r, p, listed, at, like)
    ensures Represented(r, p, listed + [s], at + [n], like)
  {
    var i :| 0 <= i < |listed| && at[i] <= p && like(listed[i], r);
    assert (at + [n])[i] <= p && like((listed + [s])[i], r);
  }

  lemma FirstsMore<T>(all: seq<T>, listed: seq<T>, s: T, like: (T, T) -> bool)
    requires ListsFirsts(all, listed, like) && like(s, s)
    ensures var known := exists i :: 0 <= i < |listed| && like(listed[i], s);
            ListsFirsts(all + [s], if known then listed else listed + [s], like)
  {
    hide Firsts, Picked;
    var at :| Firsts(all, listed, at, like);
    if i :| 0 <= i < |listed| && like(listed[i], s) {
      FirstsKnown(all, listed, at, like, s, i);
    } else {
      FirstsNew(all, listed, at, like, s);
    }
  }

  lemma FirstsNone<T>(like: (T, T) -> bool)
    ensures ListsFirsts([], [], like)
  {
    var none: seq<nat> := [];
    assert Firsts([], [], none, like);
  }

  lemma PlacesMore<T>(all: seq<T>, listed: seq<T>, places: set<nat>, s: T, chosen: bool)
    requires ListsPlaces(all, listed, places)
    ensures ListsPlaces(all + [s], if chosen then listed + [s] else listed,
                        if chosen then places + {|all|} else places)
  {
    var at: seq<nat> :| Picked(all, listed, at) && AtPlaces(at, places);
    if chosen {
      PickedMore(all, listed, at, s);
      assert AtPlaces(at + [|all|], places + {|all|});
    } else {
      assert Picked(all + [s], listed, at);
    }
  }

  lemma PlacesNone<T>()
    ensures ListsPlaces<T>([], [], {})
  {
    var none: seq<nat> := [];
    assert Picked<T>([], [], none) && AtPlaces(none, {});
  }
}

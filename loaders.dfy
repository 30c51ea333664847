/**
 * Java class loaders as the engine sees them: an identity (what JNI's
 * IsSameObject compares) and the parent each loader reports through
 * ClassLoader.getParent(). The hierarchy carries a depth for every loader
 * that has a parent, strictly larger than its parent's, so that walking up
 * the chain ends.
 */
module Loaders {
  import opened Wrappers

  /** The identity of a class loader. */
  type LoaderId = nat

  datatype Hierarchy = Hierarchy(parentOf: map<LoaderId, LoaderId>, depth: map<LoaderId, nat>) {

    /** Every parent sits strictly lower than its child: the chain of parents is finite. */
    predicate Valid() {
      forall l :: l in parentOf ==> l in depth && parentOf[l] in depth && depth[parentOf[l]] < depth[l]
    }

    /** GetParentClassLoader: the loader's parent, or null at the top of the chain. */
    function GetParent(l: LoaderId): Option<LoaderId> {
      if l in parentOf then Some(parentOf[l]) else None
    }

    /** A bound on how many more steps the walk from `start` can take. */
    function Measure(start: Option<LoaderId>): nat {
      match start
      case None => 0
      case Some(l) => 1 + (if l in depth then depth[l] else 0)
    }

    /** `start` (if any) followed by its ancestors, nearest first. */
    function Chain(start: Option<LoaderId>): seq<LoaderId>
      requires Valid()
      decreases Measure(start)
    {
      match start
      case None => []
      case Some(l) => [l] + Chain(GetParent(l))
    }

    /** The strict ancestors of `l`, nearest first. */
    function Ancestors(l: LoaderId): seq<LoaderId>
      requires Valid()
    {
      Chain(GetParent(l))
    }

    /**
     * The chain follows the parent relation link by link and stops at a
     * loader with no parent.
     */
    lemma {:induction false} ChainFollowsParents(start: Option<LoaderId>)
      requires Valid()
      ensures var c := Chain(start);
        (c == [] <==> start.None?) &&
        (c != [] ==> c[0] == start.value && c[|c| - 1] !in parentOf) &&
        (forall i :: 0 <= i < |c| - 1 ==> c[i] in parentOf && parentOf[c[i]] == c[i + 1])
      decreases Measure(start)
    {
      if start.Some? {
        var l := start.value;
        var rest := Chain(GetParent(l));
        ChainFollowsParents(GetParent(l));
        var c := Chain(start);
        assert c == [l] + rest;
        forall i | 0 <= i < |c| - 1 ensures c[i] in parentOf && parentOf[c[i]] == c[i + 1] {
          if i > 0 {
            assert c[i] == rest[i - 1] && c[i + 1] == rest[i];
          }
        }
      }
    }

    /** Every loader on the chain above `start` is strictly lower than it: no loader is its own ancestor. */
    lemma {:induction false} ChainDescends(start: Option<LoaderId>)
      requires Valid() && start.Some? && start.value in parentOf
      ensures forall i :: 1 <= i < |Chain(start)| ==>
        Chain(start)[i] in depth && depth[Chain(start)[i]] < depth[start.value] && Chain(start)[i] != start.value
      decreases Measure(start)
    {
      var l := start.value;
      var p := parentOf[l];
      var rest := Chain(Some(p));
      assert Chain(start) == [l] + rest;
      assert rest[0] == p;
      if p in parentOf {
        ChainDescends(Some(p));
      } else {
        assert rest == [p] + Chain(None);
      }
    }

    /** A loader never appears among its own ancestors. */
    lemma NotOwnAncestor(l: LoaderId)
      requires Valid()
      ensures l !in Ancestors(l)
    {
      if l in parentOf {
        ChainDescends(Some(l));
        assert Chain(Some(l)) == [l] + Ancestors(l);
        forall i | 0 <= i < |Ancestors(l)| ensures Ancestors(l)[i] != l {
          assert Ancestors(l)[i] == Chain(Some(l))[i + 1];
        }
      }
    }
  }
}

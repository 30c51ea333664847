/**
 * The registry of LibraryNamespaces: the list of (class loader, namespace)
 * pairs. A pointer into it is modelled as the position of the entry; the
 * list is only ever appended to, so positions stay valid.
 */
module Registry {
  import opened Wrappers
  import opened Loaders
  import opened Linker

  datatype Entry = Entry(loader: LoaderId, ns: AppNamespace)

  /** The position of the first entry for `loader`, if there is one. */
  function Lookup(entries: seq<Entry>, loader: LoaderId): (r: Option<nat>)
    ensures r.Some? ==>
      r.value < |entries| && entries[r.value].loader == loader &&
      forall j :: 0 <= j < r.value ==> entries[j].loader != loader
    ensures r.None? ==> forall j :: 0 <= j < |entries| ==> entries[j].loader != loader
    decreases |entries|
  {
    if entries == [] then None
    else if entries[0].loader == loader then Some(0)
    else
      match Lookup(entries[1..], loader)
      case None => None
      case Some(k) => Some(k + 1)
  }

  predicate Registered(entries: seq<Entry>, loader: LoaderId) {
    Lookup(entries, loader).Some?
  }

  /** No class loader has two entries. */
  ghost predicate DistinctLoaders(entries: seq<Entry>) {
    forall i, j :: 0 <= i < j < |entries| ==> entries[i].loader != entries[j].loader
  }

  /** A namespace's parent was registered before it. */
  ghost predicate ParentsPrecede(entries: seq<Entry>) {
    forall i :: 0 <= i < |entries| && entries[i].ns.config.parent.Some? ==> entries[i].ns.config.parent.value < i
  }

  /** The first registered loader on the chain from `start` upwards. */
  function ScanFrom(h: Hierarchy, entries: seq<Entry>, start: Option<LoaderId>): (r: Option<nat>)
    requires h.Valid()
    ensures r.Some? ==> r.value < |entries|
    decreases h.Measure(start)
  {
    match start
    case None => None
    case Some(l) =>
      if Registered(entries, l) then Lookup(entries, l) else ScanFrom(h, entries, h.GetParent(l))
  }

  /** The namespace of the nearest registered ancestor of `loader`, starting at its parent. */
  function NearestRegistered(h: Hierarchy, entries: seq<Entry>, loader: LoaderId): (r: Option<nat>)
    requires h.Valid()
  {
    ScanFrom(h, entries, h.GetParent(loader))
  }

  /** The scan stops at the first chain member with an entry, and finds nothing when none has one. */
  lemma {:induction false} ScanFindsFirstRegistered(h: Hierarchy, entries: seq<Entry>, start: Option<LoaderId>)
    requires h.Valid()
    ensures ScanFrom(h, entries, start).None? <==>
      forall i :: 0 <= i < |h.Chain(start)| ==> !Registered(entries, h.Chain(start)[i])
    ensures ScanFrom(h, entries, start).Some? ==>
      exists i :: 0 <= i < |h.Chain(start)| && ScanFrom(h, entries, start) == Lookup(entries, h.Chain(start)[i]) &&
        forall j :: 0 <= j < i ==> !Registered(entries, h.Chain(start)[j])
    decreases h.Measure(start)
  {
    if start.Some? {
      var l := start.value;
      var c := h.Chain(start);
      var rest := h.Chain(h.GetParent(l));
      assert c == [l] + rest;
      if Registered(entries, l) {
        assert c[0] == l && Registered(entries, c[0]);
        assert ScanFrom(h, entries, start) == Lookup(entries, l);
        assert ScanFrom(h, entries, start) == Lookup(entries, c[0]);
      } else {
        ScanFindsFirstRegistered(h, entries, h.GetParent(l));
        ghost var pl := h.GetParent(l);
        assert ScanFrom(h, entries, pl).None? ==> forall i :: 0 <= i < |h.Chain(pl)| ==> !Registered(entries, h.Chain(pl)[i]);
        assert (forall i :: 0 <= i < |h.Chain(pl)| ==> !Registered(entries, h.Chain(pl)[i])) ==> ScanFrom(h, entries, pl).None?;
        assert forall i :: 1 <= i < |c| ==> c[i] == rest[i - 1];
        var r := ScanFrom(h, entries, start);
        if r.Some? {
          var k :| 0 <= k < |rest| && r == Lookup(entries, rest[k]) &&
            forall j :: 0 <= j < k ==> !Registered(entries, rest[j]);
          assert c[k + 1] == rest[k];
        }
      }
    }
  }

  /**
   * FindParentNamespaceByClassLoader's answer: the entry of the nearest
   * ancestor that has one, never the loader's own, or none when no ancestor
   * is registered.
   */
  lemma NearestRegisteredIsNearestAncestor(h: Hierarchy, entries: seq<Entry>, loader: LoaderId)
    requires h.Valid()
    ensures var a, r := h.Ancestors(loader), NearestRegistered(h, entries, loader);
      loader !in a &&
      (r.None? <==> forall i :: 0 <= i < |a| ==> !Registered(entries, a[i])) &&
      (r.Some? ==>
        exists i :: 0 <= i < |a| && r == Lookup(entries, a[i]) &&
          forall j :: 0 <= j < i ==> !Registered(entries, a[j]))
  {
    h.NotOwnAncestor(loader);
    ScanFindsFirstRegistered(h, entries, h.GetParent(loader));
    assert h.Ancestors(loader) == h.Chain(h.GetParent(loader));
    assert NearestRegistered(h, entries, loader) == ScanFrom(h, entries, h.GetParent(loader));
    ghost var pl := h.GetParent(loader);
    assert ScanFrom(h, entries, pl).None? ==> forall i :: 0 <= i < |h.Chain(pl)| ==> !Registered(entries, h.Chain(pl)[i]);
    assert (forall i :: 0 <= i < |h.Chain(pl)| ==> !Registered(entries, h.Chain(pl)[i])) ==> ScanFrom(h, entries, pl).None?;
  }

  /** Appending an entry for a new loader makes it findable at the end and changes no other lookup. */
  lemma {:induction false} LookupAppend(entries: seq<Entry>, e: Entry, loader: LoaderId)
    ensures Lookup(entries + [e], loader) ==
      if Registered(entries, loader) then Lookup(entries, loader)
      else if e.loader == loader then Some(|entries|)
      else None
    decreases |entries|
  {
    if entries != [] {
      assert (entries + [e])[1..] == entries[1..] + [e];
      LookupAppend(entries[1..], e, loader);
    }
  }

  /** Appending an entry for an unregistered loader whose parent is already present keeps both invariants. */
  lemma AppendKeepsInvariants(entries: seq<Entry>, e: Entry)
    requires DistinctLoaders(entries) && ParentsPrecede(entries)
    requires !Registered(entries, e.loader)
    requires e.ns.config.parent.Some? ==> e.ns.config.parent.value < |entries|
    ensures DistinctLoaders(entries + [e]) && ParentsPrecede(entries + [e])
  {
  }
}

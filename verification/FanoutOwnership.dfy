/** The ownership check: accepted ownership is an exact partition of everything in scope. */
module FanoutOwnership {
  import opened JsStrings
  import opened FanoutPaths

  datatype Owner = Owner(childKey: JsString, path: JsString)

  /** A child and the canonical paths it owns. */
  datatype Claim = Claim(key: JsString, ownership: seq<JsString>)

  /** The (child, path) pairs in claim order. */
  function Owners(claims: seq<Claim>): seq<Owner> {
    if claims == [] then []
    else Owners(claims[..|claims| - 1]) + OwnersOf(claims[|claims| - 1].key, claims[|claims| - 1].ownership)
  }

  function OwnersOf(key: JsString, paths: seq<JsString>): seq<Owner> {
    seq(|paths|, i requires 0 <= i < |paths| => Owner(key, paths[i]))
  }

  predicate Holds(claims: seq<Claim>, o: Owner) {
    exists c :: c in claims && c.key == o.childKey && o.path in c.ownership
  }

  lemma {:induction false} OwnersAreClaims(claims: seq<Claim>)
    ensures forall o :: o in Owners(claims) <==> Holds(claims, o)
    decreases |claims|
  {
    if claims != [] {
      var init, last := claims[..|claims| - 1], claims[|claims| - 1];
      OwnersAreClaims(init);
      assert claims == init + [last];
      forall o ensures o in OwnersOf(last.key, last.ownership) <==> last.key == o.childKey && o.path in last.ownership {
        if last.key == o.childKey && o.path in last.ownership {
          var i :| 0 <= i < |last.ownership| && last.ownership[i] == o.path;
          assert OwnersOf(last.key, last.ownership)[i] == o;
        }
      }
      forall o ensures o in Owners(claims) <==> Holds(claims, o) {
        if Holds(init, o) {
          var c :| c in init && c.key == o.childKey && o.path in c.ownership;
          assert c in claims;
        }
        if Holds(claims, o) {
          var c :| c in claims && c.key == o.childKey && o.path in c.ownership;
          if c in init { assert Holds(init, o); }
        }
      }
    }
  }

  // ---- the meaning of ownership ----

  predicate InScope(scopeRoots: seq<JsString>, path: JsString) {
    exists root :: root in scopeRoots && IsSameOrDescendant(path, root)
  }

  predicate Owns(owners: seq<Owner>, key: JsString, path: JsString) {
    exists o :: o in owners && o.childKey == key && IsSameOrDescendant(path, o.path)
  }

  ghost predicate OneOwner(owners: seq<Owner>, path: JsString) {
    exists key :: Owns(owners, key, path) && forall other :: Owns(owners, other, path) ==> other == key
  }

  /** Every path in scope has exactly one owner, and no path out of scope has any. */
  ghost predicate Partition(scopeRoots: seq<JsString>, owners: seq<Owner>) {
    forall path: JsString ::
      && (InScope(scopeRoots, path) ==> OneOwner(owners, path))
      && (!InScope(scopeRoots, path) ==> forall key :: !Owns(owners, key, path))
  }

  // ---- the checks of the source ----

  predicate AllInScope(scopeRoots: seq<JsString>, owners: seq<Owner>) {
    forall o :: o in owners ==> InScope(scopeRoots, o.path)
  }

  predicate Clash(a: Owner, b: Owner) {
    a.childKey != b.childKey && (IsSameOrDescendant(a.path, b.path) || IsSameOrDescendant(b.path, a.path))
  }

  predicate NoClash(owners: seq<Owner>) {
    forall a, b :: a in owners && b in owners ==> !Clash(a, b)
  }

  function CoveringChildren(owners: seq<Owner>, root: JsString): set<JsString> {
    set o | o in owners && IsSameOrDescendant(root, o.path) :: o.childKey
  }

  predicate RootsCovered(scopeRoots: seq<JsString>, owners: seq<Owner>) {
    forall root :: root in scopeRoots ==> |CoveringChildren(owners, root)| == 1
  }

  predicate Checks(scopeRoots: seq<JsString>, owners: seq<Owner>) {
    AllInScope(scopeRoots, owners) && NoClash(owners) && RootsCovered(scopeRoots, owners)
  }

  lemma SelfDescendant(path: JsString)
    ensures IsSameOrDescendant(path, path)
  {
  }

  lemma SingleOwner(owners: seq<Owner>, path: JsString, a: JsString, b: JsString)
    requires NoClash(owners) && Owns(owners, a, path) && Owns(owners, b, path)
    ensures a == b
  {
    var x :| x in owners && x.childKey == a && IsSameOrDescendant(path, x.path);
    var y :| y in owners && y.childKey == b && IsSameOrDescendant(path, y.path);
    SharedDescendant(path, x.path, y.path);
    assert !Clash(x, y);
  }

  lemma ScopedHasOwner(scopeRoots: seq<JsString>, owners: seq<Owner>, path: JsString)
    requires Checks(scopeRoots, owners) && InScope(scopeRoots, path)
    ensures OneOwner(owners, path)
  {
    hide IsSameOrDescendant, NoClash, AllInScope;
    var root :| root in scopeRoots && IsSameOrDescendant(path, root);
    var covering := CoveringChildren(owners, root);
    assert |covering| == 1;
    assert covering != {};
    var key :| key in covering;
    var o :| o in owners && IsSameOrDescendant(root, o.path) && o.childKey == key;
    DescendantTransitive(path, root, o.path);
    assert Owns(owners, key, path);
    forall other | Owns(owners, other, path) ensures other == key { SingleOwner(owners, path, other, key); }
  }

  lemma OwnedIsScoped(scopeRoots: seq<JsString>, owners: seq<Owner>, key: JsString, path: JsString)
    requires AllInScope(scopeRoots, owners) && Owns(owners, key, path)
    ensures InScope(scopeRoots, path)
  {
    hide IsSameOrDescendant;
    var o :| o in owners && o.childKey == key && IsSameOrDescendant(path, o.path);
    var root :| root in scopeRoots && IsSameOrDescendant(o.path, root);
    DescendantTransitive(path, o.path, root);
  }

  lemma ChecksGivePartition(scopeRoots: seq<JsString>, owners: seq<Owner>)
    requires Checks(scopeRoots, owners)
    ensures Partition(scopeRoots, owners)
  {
    hide InScope, Owns, OneOwner, NoClash, RootsCovered;
    forall path: JsString
      ensures InScope(scopeRoots, path) ==> OneOwner(owners, path)
      ensures !InScope(scopeRoots, path) ==> forall key :: !Owns(owners, key, path)
    {
      if InScope(scopeRoots, path) { ScopedHasOwner(scopeRoots, owners, path); }
      forall key | Owns(owners, key, path) ensures InScope(scopeRoots, path) {
        OwnedIsScoped(scopeRoots, owners, key, path);
      }
    }
  }

  lemma PartitionGivesNoClash(scopeRoots: seq<JsString>, owners: seq<Owner>, upper: Owner, lower: Owner)
    requires Partition(scopeRoots, owners) && upper in owners && lower in owners
    requires IsSameOrDescendant(lower.path, upper.path)
    ensures upper.childKey == lower.childKey
  {
    SelfDescendant(lower.path);
    assert Owns(owners, upper.childKey, lower.path) && Owns(owners, lower.childKey, lower.path);
    assert InScope(scopeRoots, lower.path);
    assert OneOwner(owners, lower.path);
  }

  lemma PartitionGivesChecks(scopeRoots: seq<JsString>, owners: seq<Owner>)
    requires Partition(scopeRoots, owners)
    ensures Checks(scopeRoots, owners)
  {
    hide IsSameOrDescendant, Partition;
    forall o | o in owners ensures InScope(scopeRoots, o.path) {
      SelfDescendant(o.path);
      assert Owns(owners, o.childKey, o.path);
      OwnedInScope(scopeRoots, owners, o.childKey, o.path);
    }
    forall a, b | a in owners && b in owners ensures !Clash(a, b) {
      if IsSameOrDescendant(a.path, b.path) { PartitionGivesNoClash(scopeRoots, owners, b, a); }
      if IsSameOrDescendant(b.path, a.path) { PartitionGivesNoClash(scopeRoots, owners, a, b); }
    }
    forall root | root in scopeRoots ensures |CoveringChildren(owners, root)| == 1 {
      RootHasOneCover(scopeRoots, owners, root);
    }
  }

  lemma OwnedInScope(scopeRoots: seq<JsString>, owners: seq<Owner>, key: JsString, path: JsString)
    requires Partition(scopeRoots, owners) && Owns(owners, key, path)
    ensures InScope(scopeRoots, path)
  {
  }

  lemma RootHasOneCover(scopeRoots: seq<JsString>, owners: seq<Owner>, root: JsString)
    requires Partition(scopeRoots, owners) && root in scopeRoots
    ensures |CoveringChildren(owners, root)| == 1
  {
    SelfDescendant(root);
    assert InScope(scopeRoots, root);
    var key :| Owns(owners, key, root) && forall other :: Owns(owners, other, root) ==> other == key;
    forall k ensures k in CoveringChildren(owners, root) <==> Owns(owners, k, root) {
    }
    assert CoveringChildren(owners, root) == {key};
  }

  /** The accepted ownerships are exactly the partitions. */
  lemma ChecksArePartition(scopeRoots: seq<JsString>, owners: seq<Owner>)
    ensures Checks(scopeRoots, owners) <==> Partition(scopeRoots, owners)
  {
    hide Checks, Partition;
    if Checks(scopeRoots, owners) { ChecksGivePartition(scopeRoots, owners); }
    if Partition(scopeRoots, owners) { PartitionGivesChecks(scopeRoots, owners); }
  }

  /** The first loop: the owners in order, or a refusal when a path is out of scope. */
  method CollectOwners(scopeRoots: seq<JsString>, claims: seq<Claim>) returns (owners: seq<Owner>, accepted: bool)
    ensures accepted ==> owners == Owners(claims)
    ensures accepted <==> AllInScope(scopeRoots, Owners(claims))
  {
    hide InScope;
    owners := [];
    for i := 0 to |claims|
      invariant owners == Owners(claims[..i]) && AllInScope(scopeRoots, owners)
    {
      var claim := claims[i];
      var all := OwnersOf(claim.key, claim.ownership);
      OwnersGrow(claims, i);
      for k := 0 to |claim.ownership|
        invariant owners == Owners(claims[..i]) + all[..k] && AllInScope(scopeRoots, owners)
      {
        var path := claim.ownership[k];
        if !InScope(scopeRoots, path) {
          assert all[k] in Owners(claims[..i + 1]);
          OwnersPrefix(claims, i + 1);
          return owners, false;
        }
        assert all[..k + 1] == all[..k] + [Owner(claim.key, path)];
        owners := owners + [Owner(claim.key, path)];
      }
      assert all[..|all|] == all;
    }
    assert claims[..|claims|] == claims;
    return owners, true;
  }

  /** The second loop: every pair of owners once. */
  method FindNoClash(owners: seq<Owner>) returns (accepted: bool)
    ensures accepted <==> NoClash(owners)
  {
    hide IsSameOrDescendant;
    for leftIndex := 0 to |owners|
      invariant forall a, b :: 0 <= a < leftIndex && 0 <= b < |owners| ==> !Clash(owners[a], owners[b])
    {
      for rightIndex := leftIndex + 1 to |owners|
        invariant forall b :: leftIndex < b < rightIndex ==> !Clash(owners[leftIndex], owners[b])
      {
        if Clash(owners[leftIndex], owners[rightIndex]) { return false; }
      }
      forall b | 0 <= b < |owners| ensures !Clash(owners[leftIndex], owners[b]) {
        if b < leftIndex { assert !Clash(owners[b], owners[leftIndex]); }
      }
    }
    return true;
  }

  method AssertOwnership(scopeRoots: seq<JsString>, claims: seq<Claim>) returns (accepted: bool)
    ensures accepted <==> Partition(scopeRoots, Owners(claims))
  {
    hide Partition, AllInScope, NoClash, CoveringChildren;
    ChecksArePartition(scopeRoots, Owners(claims));
    var owners, inScope := CollectOwners(scopeRoots, claims);
    if !inScope { return false; }
    var disjoint := FindNoClash(owners);
    if !disjoint { return false; }
    for i := 0 to |scopeRoots|
      invariant forall k :: 0 <= k < i ==> |CoveringChildren(owners, scopeRoots[k])| == 1
    {
      if |CoveringChildren(owners, scopeRoots[i])| != 1 { return false; }
    }
    return true;
  }

  lemma OwnersGrow(claims: seq<Claim>, i: nat)
    requires i < |claims|
    ensures Owners(claims[..i + 1]) == Owners(claims[..i]) + OwnersOf(claims[i].key, claims[i].ownership)
  {
    assert claims[..i + 1][..i] == claims[..i];
  }

  lemma {:induction false} OwnersPrefix(claims: seq<Claim>, i: nat)
    requires i <= |claims|
    ensures Owners(claims[..i]) <= Owners(claims)
    decreases |claims| - i
  {
    if i < |claims| {
      OwnersGrow(claims, i);
      OwnersPrefix(claims, i + 1);
    } else {
      assert claims[..i] == claims;
    }
  }
}

/** The order in which the activity shows the discovered devices:
    Collections.sort with a comparator that compares display names with
    compareToIgnoreCase (MainActivity.refreshDeviceList). Collections.sort is
    stable, so its result is the one the stable insertion sort below computes. */
module DeviceList {
  import opened Wrappers
  import opened JavaStrings
  import opened Devices

  predicate Named(d: Device) {
    d.displayName.Some?
  }

  /** The comparator dereferences both display names. */
  predicate NameLeq(a: Device, b: Device)
    requires Named(a) && Named(b)
  {
    CompareToIgnoreCase(a.displayName.value, b.displayName.value) <= 0
  }

  /** Collections.sort calls the comparator, and so dereferences every display
      name, exactly when the list holds two or more devices. */
  predicate Sortable(s: seq<Device>) {
    |s| >= 2 ==> forall k :: 0 <= k < |s| ==> Named(s[k])
  }

  /** The device at position k compares at most 0 against the next one. */
  predicate InOrderAt(s: seq<Device>, k: int)
    requires 0 <= k < |s| - 1
  {
    Named(s[k]) && Named(s[k + 1]) && NameLeq(s[k], s[k + 1])
  }

  /** Each device's name compares at most 0 against the next one's. */
  predicate SortedByName(s: seq<Device>) {
    forall k :: 0 <= k < |s| - 1 ==> InOrderAt(s, k)
  }

  /** Inserts x in front of the first device it does not compare above. */
  function Insert(x: Device, t: seq<Device>): (r: seq<Device>)
    requires Named(x) && forall k :: 0 <= k < |t| ==> Named(t[k])
    ensures multiset(r) == multiset(t) + multiset{x}
    ensures |r| == |t| + 1 && (r[0] == x || r[0] == t[0])
    ensures forall k :: 0 <= k < |r| ==> Named(r[k])
  {
    if t == [] || NameLeq(x, t[0]) then [x] + t
    else
      assert t == [t[0]] + t[1..];
      [t[0]] + Insert(x, t[1..])
  }

  /** Inserting into a sorted list keeps it sorted. */
  lemma {:induction false} InsertSorted(x: Device, t: seq<Device>)
    requires Named(x) && forall k :: 0 <= k < |t| ==> Named(t[k])
    requires SortedByName(t)
    ensures SortedByName(Insert(x, t))
  {
    if t != [] && !NameLeq(x, t[0]) {
      CompareToIgnoreCaseAntisymmetric(x.displayName.value, t[0].displayName.value);
      var tail := t[1..];
      assert SortedByName(tail) by {
        forall k | 0 <= k < |tail| - 1 ensures InOrderAt(tail, k) {
          assert InOrderAt(t, k + 1);
        }
      }
      InsertSorted(x, tail);
      var r := Insert(x, t);
      var rest := Insert(x, tail);
      assert r == [t[0]] + rest;
      forall k | 0 <= k < |r| - 1 ensures InOrderAt(r, k) {
        if k == 0 {
          assert r[1] == rest[0];
          if rest[0] != x {
            assert InOrderAt(t, 0);
          }
        } else {
          assert InOrderAt(rest, k - 1);
        }
      }
    } else {
      var r := Insert(x, t);
      assert r == [x] + t;
      forall k | 0 <= k < |r| - 1 ensures InOrderAt(r, k) {
        if k > 0 {
          assert InOrderAt(t, k - 1);
        }
      }
    }
  }

  /** The device list after Collections.sort: a permutation of the input,
      ordered by display name ignoring case. */
  function SortByName(s: seq<Device>): (r: seq<Device>)
    requires Sortable(s)
    ensures multiset(r) == multiset(s)
    ensures |r| == |s|
    ensures SortedByName(r)
    ensures (forall k :: 0 <= k < |s| ==> Named(s[k])) ==> forall k :: 0 <= k < |r| ==> Named(r[k])
  {
    if |s| <= 1 then s
    else
      assert s == [s[0]] + s[1..];
      InsertSorted(s[0], SortByName(s[1..]));
      Insert(s[0], SortByName(s[1..]))
  }

  /** A list that is already in order is left as it is. */
  lemma {:induction false} SortedIsFixpoint(s: seq<Device>)
    requires Sortable(s) && SortedByName(s)
    ensures SortByName(s) == s
  {
    if |s| >= 2 {
      var tail := s[1..];
      assert SortedByName(tail) by {
        forall k | 0 <= k < |tail| - 1 ensures InOrderAt(tail, k) {
          assert InOrderAt(s, k + 1);
        }
      }
      assert InOrderAt(s, 0);
      SortedIsFixpoint(s[1..]);
      assert s == [s[0]] + s[1..];
    }
  }

  /** Sorting twice gives the same list as sorting once. */
  lemma SortByNameIdempotent(s: seq<Device>)
    requires Sortable(s)
    ensures Sortable(SortByName(s)) && SortByName(SortByName(s)) == SortByName(s)
  {
    SortedIsFixpoint(SortByName(s));
  }

  /** In a list sorted by name every device compares at most 0 against every
      later one, not only against its neighbour. */
  lemma {:induction false} SortedByNamePairwise(s: seq<Device>, i: nat, j: nat)
    requires SortedByName(s) && i < j < |s|
    ensures Named(s[i]) && Named(s[j]) && NameLeq(s[i], s[j])
    decreases j - i
  {
    assert InOrderAt(s, i);
    if i + 1 < j {
      SortedByNamePairwise(s, i + 1, j);
      CompareToIgnoreCaseTransitive(s[i].displayName.value, s[i + 1].displayName.value, s[j].displayName.value);
    }
  }

  /** In a list sorted by name, each lower-cased name equals the next one or
      comes strictly before it in lexicographic order. */
  lemma SortedByNameLex(s: seq<Device>, k: nat)
    requires SortedByName(s) && k + 1 < |s|
    ensures Named(s[k]) && Named(s[k + 1])
    ensures var x, y := ToLower(s[k].displayName.value), ToLower(s[k + 1].displayName.value);
            x == y || LexLess(x, y)
  {
    assert InOrderAt(s, k);
    var a, b := s[k].displayName.value, s[k + 1].displayName.value;
    CompareToIgnoreCaseLex(a, b);
    CompareToIgnoreCaseZero(a, b);
  }

  /** "Zelda" and "anna" are shown as ["anna", "Zelda"]: case is ignored. */
  lemma SortIgnoresCase(a: Option<string>, b: Option<string>)
    ensures SortByName([Device(Some("Zelda"), a), Device(Some("anna"), b)])
            == [Device(Some("anna"), b), Device(Some("Zelda"), a)]
  {
  }
}

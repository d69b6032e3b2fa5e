/**
 * Discovery of the DS18B20 sensors on the 1-Wire bus: the entries of the
 * bus directory whose names carry the DS18B20 family code `28-`, sorted by
 * name so that the same sensors always get the same slots.
 */
module Discovery {
  import opened PyText

  /** The family prefix of DS18B20 device directories. */
  const FamilyPrefix: string := "28-"

  /** Python's `<=` on `str`: code point by code point, a proper prefix first. */
  predicate NameLe(a: string, b: string)
    decreases |a|
  {
    |a| == 0 || (|b| > 0 && (a[0] < b[0] || (a[0] == b[0] && NameLe(a[1..], b[1..]))))
  }

  lemma {:induction false} NameLeReflexive(a: string)
    ensures NameLe(a, a)
    decreases |a|
  {
    if |a| > 0 {
      NameLeReflexive(a[1..]);
    }
  }

  lemma {:induction false} NameLeAntisymmetric(a: string, b: string)
    requires NameLe(a, b) && NameLe(b, a)
    ensures a == b
    decreases |a|
  {
    if |a| > 0 {
      NameLeAntisymmetric(a[1..], b[1..]);
      assert a == [a[0]] + a[1..] && b == [b[0]] + b[1..];
    }
  }

  lemma {:induction false} NameLeTransitive(a: string, b: string, c: string)
    requires NameLe(a, b) && NameLe(b, c)
    ensures NameLe(a, c)
    decreases |a|
  {
    if |a| > 0 && a[0] == b[0] && b[0] == c[0] {
      NameLeTransitive(a[1..], b[1..], c[1..]);
    }
  }

  lemma {:induction false} NameLeTotal(a: string, b: string)
    ensures NameLe(a, b) || NameLe(b, a)
    decreases |a|
  {
    if |a| > 0 && |b| > 0 && a[0] == b[0] {
      NameLeTotal(a[1..], b[1..]);
    }
  }

  ghost predicate Sorted(s: seq<string>) {
    forall i, j :: 0 <= i < j < |s| ==> NameLe(s[i], s[j])
  }

  /** The comprehension keeping the `28-` entries, in directory order. */
  function Family28(names: seq<string>): (r: seq<string>)
    ensures forall x :: multiset(r)[x] == if StartsWith(x, FamilyPrefix) then multiset(names)[x] else 0
  {
    if |names| == 0 then []
    else
      var rest := Family28(names[1..]);
      assert names == [names[0]] + names[1..];
      if StartsWith(names[0], FamilyPrefix) then [names[0]] + rest else rest
  }

  /**
   * `descubrir_sensores_28`: `busPresent` says whether the bus directory
   * exists, `entries` are its entry names in the order the directory lists
   * them.
   */
  method Discover(busPresent: bool, entries: seq<string>) returns (sensors: seq<string>)
    ensures !busPresent ==> sensors == []
    ensures busPresent ==> Sorted(sensors) && multiset(sensors) == multiset(Family28(entries))
  {
    if !busPresent {
      return [];
    }
    var found := Family28(entries);
    var a := new string[|found|](i requires 0 <= i < |found| => found[i]);
    assert a[..] == found;
    SortByName(a);
    sensors := a[..];
  }

  /** `list.sort(key=name)`, in place: an insertion sort. */
  method SortByName(a: array<string>)
    modifies a
    ensures Sorted(a[..])
    ensures multiset(a[..]) == old(multiset(a[..]))
  {
    var i := 0;
    while i < a.Length
      invariant 0 <= i <= a.Length
      invariant forall k, l :: 0 <= k < l < i ==> NameLe(a[k], a[l])
      invariant multiset(a[..]) == old(multiset(a[..]))
    {
      var j := i;
      while j > 0 && !NameLe(a[j - 1], a[j])
        invariant 0 <= j <= i
        invariant forall k, l :: 0 <= k < l <= i && l != j ==> NameLe(a[k], a[l])
        invariant multiset(a[..]) == old(multiset(a[..]))
      {
        NameLeTotal(a[j - 1], a[j]);
        a[j - 1], a[j] := a[j], a[j - 1];
        j := j - 1;
      }
      forall k, l | 0 <= k < l <= i ensures NameLe(a[k], a[l]) {
        if l == j && k < j - 1 {
          NameLeTransitive(a[k], a[j - 1], a[j]);
        }
      }
      i := i + 1;
    }
  }

  /** Two name-sorted orderings of the same entries are the same list: discovery is deterministic. */
  lemma {:induction false} SortedUnique(s: seq<string>, t: seq<string>)
    requires Sorted(s) && Sorted(t) && multiset(s) == multiset(t)
    ensures s == t
    decreases |s|
  {
    assert |t| == |multiset(t)| == |multiset(s)| == |s|;
    if |s| > 0 {
      SortedHeads(s, t);
      DropHead(s);
      DropHead(t);
      SortedUnique(s[1..], t[1..]);
      assert s == [s[0]] + s[1..] && t == [t[0]] + t[1..];
    }
  }

  /** Sorted non-empty lists of the same entries start with the same name. */
  lemma SortedHeads(s: seq<string>, t: seq<string>)
    requires Sorted(s) && Sorted(t) && multiset(s) == multiset(t) && |s| > 0 && |t| > 0
    ensures s[0] == t[0]
  {
    assert s[0] in multiset(t) && t[0] in multiset(s);
    var k :| 0 <= k < |t| && t[k] == s[0];
    var m :| 0 <= m < |s| && s[m] == t[0];
    assert NameLe(t[0], s[0]) by {
      if k > 0 { assert NameLe(t[0], t[k]); } else { NameLeReflexive(t[0]); }
    }
    assert NameLe(s[0], t[0]) by {
      if m > 0 { assert NameLe(s[0], s[m]); } else { NameLeReflexive(s[0]); }
    }
    NameLeAntisymmetric(s[0], t[0]);
  }

  /** Dropping the head of a sorted list keeps it sorted and removes one copy of the head. */
  lemma DropHead(s: seq<string>)
    requires |s| > 0
    ensures Sorted(s) ==> Sorted(s[1..])
    ensures multiset(s[1..]) == multiset(s) - multiset{s[0]}
  {
    assert s == [s[0]] + s[1..];
    assert multiset(s) == multiset{s[0]} + multiset(s[1..]);
  }
}

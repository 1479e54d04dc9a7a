/** Sorting keys: a permutation, and the same result however the keys were ordered before. */
module KeyOrder {
  import opened Json
  import opened JsText

  lemma {:induction false} InsertMembers(less: (string, string) -> bool, k: string, keys: seq<string>)
    ensures forall x :: x in InsertKey(less, k, keys) <==> x == k || x in keys
    ensures Distinct(keys) && k !in keys ==> Distinct(InsertKey(less, k, keys))
  {
    if keys != [] && less(keys[0], k) {
      InsertMembers(less, k, keys[1..]);
      var rest := InsertKey(less, k, keys[1..]);
      assert forall i | 0 <= i < |rest| :: rest[i] == k || rest[i] in keys[1..];
    }
  }

  lemma {:induction false} SortMembers(less: (string, string) -> bool, keys: seq<string>)
    ensures forall x :: x in SortKeys(less, keys) <==> x in keys
    ensures Distinct(keys) ==> Distinct(SortKeys(less, keys))
  {
    if keys != [] {
      SortMembers(less, keys[1..]);
      InsertMembers(less, keys[0], SortKeys(less, keys[1..]));
      assert Distinct(keys) ==> Distinct(keys[1..]) && keys[0] !in keys[1..];
    }
  }

  lemma {:induction false} SelectMembers(keys: seq<string>, index: bool)
    ensures forall x :: x in Select(keys, index) <==> x in keys && IsIndex(x) == index
    ensures Distinct(keys) ==> Distinct(Select(keys, index))
  {
    if keys != [] {
      SelectMembers(keys[1..], index);
      var rest := Select(keys[1..], index);
      assert Distinct(keys) ==> Distinct(keys[1..]) && keys[0] !in keys[1..];
      assert forall i | 0 <= i < |rest| :: rest[i] in keys[1..];
    }
  }

  lemma ListingMembers(keys: seq<string>)
    ensures forall x :: x in ListingOrder(keys) <==> x in keys
    ensures Distinct(keys) ==> Distinct(ListingOrder(keys))
  {
    SelectMembers(keys, true);
    SelectMembers(keys, false);
    SortMembers((a, b) => IndexLess(a, b), Select(keys, true));
    var first, second := SortKeys((a, b) => IndexLess(a, b), Select(keys, true)), Select(keys, false);
    assert forall i, j | 0 <= i < |first| && 0 <= j < |second| :: first[i] in first && second[j] in second;
  }

  lemma {:induction false} NoIndexKeys(keys: seq<string>)
    requires forall k | k in keys :: !IsIndex(k)
    ensures ListingOrder(keys) == keys
  {
    SelectAll(keys);
  }

  lemma {:induction false} SelectAll(keys: seq<string>)
    requires forall k | k in keys :: !IsIndex(k)
    ensures Select(keys, true) == [] && Select(keys, false) == keys
  {
    if keys != [] {
      SelectAll(keys[1..]);
    }
  }

  // ----- the text order -----

  lemma {:induction false} LessTotal(a: string, b: string)
    ensures TextLess(a, b) || TextLess(b, a) <==> a != b
    ensures !(TextLess(a, b) && TextLess(b, a))
  {
    if a != "" && b != "" && a[0] == b[0] {
      LessTotal(a[1..], b[1..]);
      assert a == [a[0]] + a[1..] && b == [b[0]] + b[1..];
    }
  }

  lemma {:induction false} LessTransitive(a: string, b: string, c: string)
    requires TextLess(a, b) && TextLess(b, c)
    ensures TextLess(a, c)
  {
    if a != "" && a[0] == b[0] == c[0] {
      LessTransitive(a[1..], b[1..], c[1..]);
    }
  }

  ghost predicate Ascending(keys: seq<string>) {
    forall i, j :: 0 <= i < j < |keys| ==> TextLess(keys[i], keys[j])
  }

  lemma {:induction false} InsertAscending(k: string, keys: seq<string>)
    requires Ascending(keys) && k !in keys
    ensures Ascending(InsertKey((a, b) => TextLess(a, b), k, keys))
  {
    var less := (a: string, b: string) => TextLess(a, b);
    if keys == [] {
    } else if TextLess(keys[0], k) {
      InsertAscending(k, keys[1..]);
      InsertMembers(less, k, keys[1..]);
      var rest := InsertKey(less, k, keys[1..]);
      forall i | 0 <= i < |rest| ensures TextLess(keys[0], rest[i]) {
        assert rest[i] in rest;
      }
    } else {
      LessTotal(k, keys[0]);
      forall j | 0 <= j < |keys| ensures TextLess(k, keys[j]) {
        if j > 0 { LessTransitive(k, keys[0], keys[j]); }
      }
    }
  }

  lemma {:induction false} SortedAscends(keys: seq<string>)
    requires Distinct(keys)
    ensures Ascending(Sorted(keys))
  {
    if keys != [] {
      var less := (a: string, b: string) => TextLess(a, b);
      SortedAscends(keys[1..]);
      SortMembers(less, keys[1..]);
      InsertAscending(keys[0], Sorted(keys[1..]));
    }
  }

  lemma {:induction false} AscendingUnique(a: seq<string>, b: seq<string>)
    requires Ascending(a) && Ascending(b) && forall k :: k in a <==> k in b
    ensures a == b
  {
    if a == [] {
      assert forall i | 0 <= i < |b| :: b[i] in b;
    } else {
      assert a[0] in b && b != [];
      assert b[0] in a;
      FirstIsLeast(a, b[0]);
      FirstIsLeast(b, a[0]);
      LessTotal(a[0], b[0]);
      forall k ensures k in a[1..] <==> k in b[1..] {
        RestMembers(a, k);
        RestMembers(b, k);
      }
      AscendingUnique(a[1..], b[1..]);
    }
  }

  lemma FirstIsLeast(keys: seq<string>, k: string)
    requires Ascending(keys) && k in keys
    ensures keys[0] == k || TextLess(keys[0], k)
  {
  }

  lemma RestMembers(keys: seq<string>, k: string)
    requires keys != [] && Ascending(keys)
    ensures k in keys[1..] <==> k in keys && k != keys[0]
  {
    LessTotal(keys[0], keys[0]);
    if k in keys[1..] {
      var i :| 0 <= i < |keys[1..]| && keys[1..][i] == k;
      assert TextLess(keys[0], keys[i + 1]);
    }
  }

  /** Two orders of the same keys sort to the same list. */
  lemma SortForgetsOrder(a: seq<string>, b: seq<string>)
    requires Distinct(a) && Distinct(b) && forall k :: k in a <==> k in b
    ensures Sorted(a) == Sorted(b)
  {
    SortMembers((x, y) => TextLess(x, y), a);
    SortMembers((x, y) => TextLess(x, y), b);
    SortedAscends(a);
    SortedAscends(b);
    AscendingUnique(Sorted(a), Sorted(b));
  }

  lemma AscendingIsSorted(keys: seq<string>)
    requires Ascending(keys)
    ensures Sorted(keys) == keys && Distinct(keys)
  {
    forall i, j | 0 <= i < j < |keys| ensures keys[i] != keys[j] {
      LessTotal(keys[i], keys[j]);
    }
    SortMembers((x, y) => TextLess(x, y), keys);
    SortedAscends(keys);
    AscendingUnique(Sorted(keys), keys);
  }
}

/** The order in which an ordered map of strings is walked. */
module KeyOrder {

  /** Lexicographic order on characters; a proper prefix comes first. */
  predicate Before(a: string, b: string)
  {
    if b == "" then false
    else if a == "" then true
    else a[0] < b[0] || (a[0] == b[0] && Before(a[1..], b[1..]))
  }

  lemma {:induction false} BeforeTransitive(a: string, b: string, c: string)
    requires Before(a, b) && Before(b, c)
    ensures Before(a, c)
  {
    if a != "" && a[0] == b[0] && b[0] == c[0] {
      BeforeTransitive(a[1..], b[1..], c[1..]);
    }
  }

  lemma {:induction false} BeforeTotal(a: string, b: string)
    ensures a == b || Before(a, b) || Before(b, a)
    ensures !(Before(a, b) && Before(b, a))
    ensures !Before(a, a)
  {
    if a != "" && b != "" {
      BeforeTotal(a[1..], b[1..]);
      if a[1..] == b[1..] && a[0] == b[0] {
        assert a == [a[0]] + a[1..] && b == [b[0]] + b[1..];
      }
    }
    if a != "" {
      BeforeTotal(a[1..], a[1..]);
    }
  }

  predicate Sorted(keys: seq<string>)
  {
    forall i, j :: 0 <= i < j < |keys| ==> Before(keys[i], keys[j])
  }

  predicate IsFirst(key: string, keys: set<string>)
  {
    key in keys && forall k :: k in keys && k != key ==> Before(key, k)
  }

  lemma {:induction false} FirstExists(keys: set<string>) returns (first: string)
    requires keys != {}
    ensures IsFirst(first, keys)
    decreases keys
  {
    var k :| k in keys;
    if keys == {k} {
      first := k;
    } else {
      var rest := FirstExists(keys - {k});
      BeforeTotal(k, rest);
      if Before(k, rest) {
        forall k' | k' in keys && k' != k ensures Before(k, k') {
          if k' != rest { BeforeTransitive(k, rest, k'); }
        }
        first := k;
      } else {
        first := rest;
      }
    }
  }

  lemma FirstUnique(a: string, b: string, keys: set<string>)
    requires IsFirst(a, keys) && IsFirst(b, keys)
    ensures a == b
  {
    BeforeTotal(a, b);
  }

  function InOrder(keys: set<string>): (ordered: seq<string>)
    ensures forall k :: k in ordered <==> k in keys
  {
    if keys == {} then []
    else
      assert exists k :: IsFirst(k, keys) by { var k := FirstExists(keys); }
      assert forall a, b :: IsFirst(a, keys) && IsFirst(b, keys) ==> a == b by {
        forall a, b | IsFirst(a, keys) && IsFirst(b, keys) ensures a == b { FirstUnique(a, b, keys); }
      }
      var k :| k in keys && IsFirst(k, keys);
      [k] + InOrder(keys - {k})
  }

  lemma {:induction false} InOrderSorted(keys: set<string>)
    ensures Sorted(InOrder(keys))
  {
    if keys != {} {
      var first := InOrder(keys)[0];
      InOrderSorted(keys - {first});
      var rest := InOrder(keys - {first});
      assert InOrder(keys) == [first] + rest;
      forall j | 0 <= j < |rest| ensures Before(first, rest[j]) {
        assert rest[j] in keys - {first};
      }
    }
  }

  /** A strictly sorted sequence is fixed by its elements. */
  lemma {:induction false} SortedUnique(a: seq<string>, b: seq<string>)
    requires Sorted(a) && Sorted(b)
    requires forall k :: k in a <==> k in b
    ensures a == b
    decreases |a|
  {
    assert forall i :: 0 <= i < |a| ==> a[i] in b;
    assert forall i :: 0 <= i < |b| ==> b[i] in a;
    if a != [] && b != [] {
      BeforeTotal(a[0], b[0]);
      assert a[0] == b[0];
      forall k ensures k in a[1..] <==> k in b[1..] {
        BeforeTotal(k, k);
        assert a == [a[0]] + a[1..] && b == [b[0]] + b[1..];
        assert k in a <==> k == a[0] || k in a[1..];
        assert k in b <==> k == b[0] || k in b[1..];
      }
      SortedUnique(a[1..], b[1..]);
    }
  }
}

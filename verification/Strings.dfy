/** Strings in code point order, the order in which Go sorts map keys and Python sorts names. */
module Strings {

  predicate Less(a: string, b: string) {
    if b == "" then false
    else if a == "" then true
    else if a[0] != b[0] then a[0] < b[0]
    else Less(a[1..], b[1..])
  }

  lemma {:induction false} LessTotal(a: string, b: string)
    ensures a != b ==> Less(a, b) || Less(b, a)
    ensures !(Less(a, b) && Less(b, a))
    ensures !Less(a, a)
  {
    if a != "" {
      LessTotal(a[1..], a[1..]);
      if b != "" && a[0] == b[0] {
        LessTotal(a[1..], b[1..]);
        assert a == [a[0]] + a[1..] && b == [b[0]] + b[1..];
      }
    }
  }

  lemma {:induction false} LessTransitive(a: string, b: string, c: string)
    requires Less(a, b) && Less(b, c)
    ensures Less(a, c)
  {
    if a != "" && a[0] == b[0] == c[0] {
      LessTransitive(a[1..], b[1..], c[1..]);
    }
  }

  predicate IsLeast(k: string, keys: set<string>) {
    k in keys && forall q :: q in keys && q != k ==> Less(k, q)
  }

  lemma LeastIsUnique(keys: set<string>)
    ensures forall k, l :: IsLeast(k, keys) && IsLeast(l, keys) ==> k == l
  {
    forall k, l | IsLeast(k, keys) && IsLeast(l, keys)
      ensures k == l
    {
      LessTotal(k, l);
    }
  }

  lemma {:induction false} LeastExists(keys: set<string>)
    requires keys != {}
    ensures exists k :: IsLeast(k, keys)
  {
    var a :| a in keys;
    var others := keys - {a};
    if others == {} {
      assert forall q :: q in keys && q != a ==> q in others;
      assert IsLeast(a, keys);
    } else {
      LeastExists(others);
      var k :| IsLeast(k, others);
      LessTotal(a, k);
      if Less(a, k) {
        forall q | q in keys && q != a
          ensures Less(a, q)
        {
          if q != k {
            LessTransitive(a, k, q);
          }
        }
        assert IsLeast(a, keys);
      } else {
        assert IsLeast(k, keys);
      }
    }
  }

  /** The keys of a map in the order json.Marshal writes them. */
  function SortedKeys(keys: set<string>): (sorted: seq<string>)
    ensures forall k :: k in sorted <==> k in keys
    ensures forall i, j :: 0 <= i < j < |sorted| ==> Less(sorted[i], sorted[j])
  {
    if keys == {} then []
    else
      LeastExists(keys);
      LeastIsUnique(keys);
      var k :| IsLeast(k, keys);
      [k] + SortedKeys(keys - {k})
  }
}

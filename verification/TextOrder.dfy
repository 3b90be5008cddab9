/** Sorting text, as `sorted` does with sets and dictionary keys. */
module TextOrder {
  predicate Less(a: string, b: string) {
    b != [] && (a == [] || a[0] < b[0] || (a[0] == b[0] && Less(a[1..], b[1..])))
  }

  lemma {:induction false} LessIsTransitive(a: string, b: string, c: string)
    requires Less(a, b) && Less(b, c)
    ensures Less(a, c)
  {
    if a != [] && a[0] == b[0] == c[0] { LessIsTransitive(a[1..], b[1..], c[1..]); }
  }

  lemma {:induction false} LessIsStrict(a: string, b: string)
    ensures !(Less(a, b) && Less(b, a)) && !Less(a, a)
  {
    if a != [] && b != [] && a[0] == b[0] { LessIsStrict(a[1..], b[1..]); } else if a != [] { LessIsStrict(a[1..], a[1..]); }
  }

  lemma {:induction false} LessIsTotal(a: string, b: string)
    ensures a == b || Less(a, b) || Less(b, a)
  {
    if a != [] && b != [] && a[0] == b[0] {
      LessIsTotal(a[1..], b[1..]);
      assert a == [a[0]] + a[1..] && b == [b[0]] + b[1..];
    }
  }

  ghost predicate Rising(keys: seq<string>) {
    forall i, j :: 0 <= i < j < |keys| ==> Less(keys[i], keys[j])
  }

  /** `sorted(keys)` of a set of keys. */
  ghost predicate Sorts(list: seq<string>, keys: set<string>) {
    Rising(list) && forall k :: k in list <==> k in keys
  }

  lemma {:induction false} SortsOneWay(a: seq<string>, b: seq<string>, keys: set<string>)
    requires Sorts(a, keys) && Sorts(b, keys)
    ensures a == b
    decreases |a|
  {
    assert b != [] ==> b[0] in b;
    if a != [] {
      assert a[0] in keys;
      var i :| 0 <= i < |b| && b[i] == a[0];
      assert b[0] in keys;
      var j :| 0 <= j < |a| && a[j] == b[0];
      LessIsStrict(a[0], b[0]);
      assert a[0] == b[0];
      TailSorts(a, keys);
      TailSorts(b, keys);
      SortsOneWay(a[1..], b[1..], keys - {a[0]});
    }
  }

  lemma TailSorts(a: seq<string>, keys: set<string>)
    requires a != [] && Sorts(a, keys)
    ensures Sorts(a[1..], keys - {a[0]})
  {
    forall k ensures k in a[1..] <==> k in keys - {a[0]} {
      if k in a[1..] {
        var i :| 0 <= i < |a[1..]| && a[1..][i] == k;
        assert a[i + 1] == k && Less(a[0], a[i + 1]);
        LessIsStrict(k, k);
      }
      assert a == [a[0]] + a[1..];
    }
    forall i, j | 0 <= i < j < |a[1..]| ensures Less(a[1..][i], a[1..][j]) {
      assert a[1..][i] == a[i + 1] && a[1..][j] == a[j + 1];
    }
  }

  function Insert(x: string, list: seq<string>): seq<string> {
    if list == [] then [x] else if Less(x, list[0]) then [x] + list else [list[0]] + Insert(x, list[1..])
  }

  lemma {:induction false} InsertSorts(x: string, list: seq<string>, keys: set<string>)
    requires Sorts(list, keys) && x !in keys
    ensures Sorts(Insert(x, list), keys + {x})
    decreases |list|
  {
    if list != [] {
      assert list[0] in keys;
      if Less(x, list[0]) {
        forall j | 0 <= j < |list| ensures Less(x, list[j]) {
          if j > 0 { LessIsTransitive(x, list[0], list[j]); }
        }
      } else {
        LessIsTotal(x, list[0]);
        TailSorts(list, keys);
        InsertSorts(x, list[1..], keys - {list[0]});
        var rest := Insert(x, list[1..]);
        forall j | 0 <= j < |rest| ensures Less(list[0], rest[j]) {
          assert rest[j] in rest;
          if rest[j] != x {
            var k :| 0 <= k < |list[1..]| && list[1..][k] == rest[j];
            assert list[k + 1] == rest[j];
          }
        }
      }
    }
  }

  /** Sorting the keys of a dictionary. */
  method SortKeys(keys: set<string>) returns (list: seq<string>)
    ensures Sorts(list, keys)
  {
    list := [];
    var left := keys;
    while left != {}
      invariant left <= keys && Sorts(list, keys - left)
      decreases left
    {
      var x :| x in left;
      InsertSorts(x, list, keys - left);
      list, left := Insert(x, list), left - {x};
      assert keys - left == keys - (left + {x}) + {x};
    }
  }
}

// Names in order, and things in the order of their names.
module Names {
  // Python's order of strings: by code point.
  predicate AtMost(a: string, b: string) {
    a == "" || (b != "" && (a[0] < b[0] || (a[0] == b[0] && AtMost(a[1..], b[1..]))))
  }

  function InsertName(names: seq<string>, name: string): seq<string> {
    if names == [] || !AtMost(names[0], name) then [name] + names
    else [names[0]] + InsertName(names[1..], name)
  }

  // sorted(): stable insertion from the left.
  function SortNames(names: seq<string>): seq<string> {
    if names == [] then [] else InsertName(SortNames(names[..|names| - 1]), names[|names| - 1])
  }

  predicate Ordered(names: seq<string>) {
    forall i, j :: 0 <= i < j < |names| ==> AtMost(names[i], names[j])
  }

  lemma {:induction false} AtMostTotal(a: string, b: string)
    ensures AtMost(a, b) || AtMost(b, a)
  {
    if a != "" && b != "" && a[0] == b[0] {
      AtMostTotal(a[1..], b[1..]);
    }
  }

  lemma {:induction false} AtMostTransitive(a: string, b: string, c: string)
    requires AtMost(a, b) && AtMost(b, c)
    ensures AtMost(a, c)
  {
    if a != "" && a[0] == b[0] == c[0] {
      AtMostTransitive(a[1..], b[1..], c[1..]);
    }
  }

  lemma {:induction false} InsertNameElements(names: seq<string>, name: string)
    ensures multiset(InsertName(names, name)) == multiset(names) + multiset{name}
  {
    if names == [] {
    } else {
      assert names == [names[0]] + names[1..];
      if AtMost(names[0], name) {
        InsertNameElements(names[1..], name);
      }
    }
  }

  lemma OrderedCons(head: string, names: seq<string>)
    requires Ordered(names) && forall x :: x in names ==> AtMost(head, x)
    ensures Ordered([head] + names)
  {
  }

  lemma {:induction false} InsertNameOrdered(names: seq<string>, name: string)
    requires Ordered(names)
    ensures Ordered(InsertName(names, name))
  {
    if names == [] {
    } else {
      var head, tail := names[0], names[1..];
      assert names == [head] + tail;
      if AtMost(head, name) {
        InsertNameOrdered(tail, name);
        InsertNameElements(tail, name);
        forall x | x in InsertName(tail, name) ensures AtMost(head, x) {
          assert x in multiset(InsertName(tail, name));
          if x != name {
            assert x in multiset(tail);
          }
        }
        OrderedCons(head, InsertName(tail, name));
      } else {
        AtMostTotal(head, name);
        forall x | x in names ensures AtMost(name, x) {
          if x in tail {
            AtMostTransitive(name, head, x);
          }
        }
        OrderedCons(name, names);
      }
    }
  }

  lemma {:induction false} SortNamesMeaning(names: seq<string>)
    ensures multiset(SortNames(names)) == multiset(names) && Ordered(SortNames(names))
    ensures |SortNames(names)| == |names| && forall x :: x in SortNames(names) <==> x in names
  {
    if names == [] {
    } else {
      var front, last := names[..|names| - 1], names[|names| - 1];
      assert names == front + [last];
      SortNamesMeaning(front);
      InsertNameElements(SortNames(front), last);
      InsertNameOrdered(SortNames(front), last);
    }
    assert |multiset(SortNames(names))| == |multiset(names)|;
    forall x ensures x in SortNames(names) <==> x in names {
      assert x in multiset(SortNames(names)) <==> x in multiset(names);
    }
  }

  lemma {:induction false} InsertNameLast(names: seq<string>, name: string)
    requires forall x :: x in names ==> AtMost(x, name)
    ensures InsertName(names, name) == names + [name]
  {
    if names == [] {
    } else {
      assert names[0] in names && names == [names[0]] + names[1..];
      InsertNameLast(names[1..], name);
    }
  }

  // Sorting a sorted list changes nothing.
  lemma {:induction false} SortOrdered(names: seq<string>)
    requires Ordered(names)
    ensures SortNames(names) == names
  {
    if names == [] {
    } else {
      var front, last := names[..|names| - 1], names[|names| - 1];
      SortOrdered(front);
      forall x | x in front ensures AtMost(x, last) {
        var i :| 0 <= i < |front| && front[i] == x;
        assert names[i] == x;
      }
      InsertNameLast(front, last);
      assert names == front + [last];
    }
  }

  // ---- Things with names ----

  ghost predicate NoRepeats(names: seq<string>) {
    forall n :: multiset(names)[n] <= 1
  }

  function InsertBy<T>(items: seq<T>, item: T, key: T -> string): seq<T> {
    if items == [] || !AtMost(key(items[0]), key(item)) then [item] + items
    else [items[0]] + InsertBy(items[1..], item, key)
  }

  // sorted() by a key: stable insertion from the left.
  function SortBy<T>(items: seq<T>, key: T -> string): seq<T> {
    if items == [] then [] else InsertBy(SortBy(items[..|items| - 1], key), items[|items| - 1], key)
  }

  ghost predicate OrderedBy<T>(items: seq<T>, key: T -> string) {
    forall i, j :: 0 <= i < j < |items| ==> AtMost(key(items[i]), key(items[j]))
  }

  lemma {:induction false} InsertByElements<T>(items: seq<T>, item: T, key: T -> string)
    ensures multiset(InsertBy(items, item, key)) == multiset(items) + multiset{item}
    ensures forall e :: e in InsertBy(items, item, key) <==> e in items || e == item
  {
    if items == [] {
    } else {
      assert items == [items[0]] + items[1..];
      if AtMost(key(items[0]), key(item)) {
        InsertByElements(items[1..], item, key);
      }
    }
  }

  lemma OrderedByCons<T>(head: T, items: seq<T>, key: T -> string)
    requires OrderedBy(items, key) && forall e :: e in items ==> AtMost(key(head), key(e))
    ensures OrderedBy([head] + items, key)
  {
    hide AtMost;
  }

  lemma {:induction false} InsertByOrdered<T>(items: seq<T>, item: T, key: T -> string)
    requires OrderedBy(items, key)
    ensures OrderedBy(InsertBy(items, item, key), key)
  {
    hide AtMost;
    if items == [] {
    } else {
      var head, tail := items[0], items[1..];
      assert items == [head] + tail;
      if AtMost(key(head), key(item)) {
        InsertByOrdered(tail, item, key);
        InsertByElements(tail, item, key);
        forall e | e in InsertBy(tail, item, key) ensures AtMost(key(head), key(e)) {
          assert e in multiset(InsertBy(tail, item, key));
          if e != item {
            assert e in multiset(tail);
            var j :| 0 <= j < |tail| && tail[j] == e;
            assert items[j + 1] == e && AtMost(key(items[0]), key(items[j + 1]));
          }
        }
        OrderedByCons(head, InsertBy(tail, item, key), key);
      } else {
        AtMostTotal(key(head), key(item));
        forall e | e in items ensures AtMost(key(item), key(e)) {
          if e in tail {
            AtMostTransitive(key(item), key(head), key(e));
          }
        }
        OrderedByCons(item, items, key);
      }
    }
  }

  lemma {:induction false} SortByMeaning<T>(items: seq<T>, key: T -> string)
    ensures multiset(SortBy(items, key)) == multiset(items) && OrderedBy(SortBy(items, key), key)
    ensures forall e :: e in SortBy(items, key) <==> e in items
  {
    if items == [] {
    } else {
      var front, last := items[..|items| - 1], items[|items| - 1];
      assert items == front + [last];
      SortByMeaning(front, key);
      InsertByElements(SortBy(front, key), last, key);
      InsertByOrdered(SortBy(front, key), last, key);
    }
  }
}

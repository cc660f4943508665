/** Sorted duplicate-free folder lists: mergeFolderSets, subtractFolderSet and
    policyFolders of v3/internal/platform/worker.go.

    A string is a sequence of code points, whose order is that of the UTF-8 bytes. */
module FolderSets {
  import opened Text

  // ---- The order sort.Strings sorts by ----

  predicate Less(a: string, b: string) {
    b != "" && (a == "" || a[0] < b[0] || (a[0] == b[0] && Less(a[1..], b[1..])))
  }

  lemma {:induction false} LessIsTotal(a: string, b: string)
    ensures Less(a, b) || a == b || Less(b, a)
  {
    if a != "" && b != "" && a[0] == b[0] {
      LessIsTotal(a[1..], b[1..]);
      assert a == [a[0]] + a[1..] && b == [b[0]] + b[1..];
    }
  }

  lemma {:induction false} LessIsStrict(a: string, b: string)
    ensures !(Less(a, b) && Less(b, a))
  {
    if a != "" && b != "" && a[0] == b[0] { LessIsStrict(a[1..], b[1..]); }
  }

  lemma {:induction false} LessIsTransitive(a: string, b: string, c: string)
    requires Less(a, b) && Less(b, c)
    ensures Less(a, c)
  {
    if a != "" && a[0] == b[0] == c[0] { LessIsTransitive(a[1..], b[1..], c[1..]); }
  }

  predicate Ascending(xs: seq<string>) {
    forall i, j :: 0 <= i < j < |xs| ==> Less(xs[i], xs[j])
  }

  function Elements(xs: seq<string>): set<string> {
    set x | x in xs
  }

  /** `xs` is the sorted duplicate-free list of `s`. */
  predicate IsListOf(xs: seq<string>, s: set<string>) {
    Ascending(xs) && Elements(xs) == s
  }

  lemma NoElements(xs: seq<string>)
    ensures Elements(xs) == {} <==> xs == []
  {
    if xs != [] { assert xs[0] in Elements(xs); }
  }

  /** There is only one such list. */
  lemma {:induction false} ListIsUnique(xs: seq<string>, ys: seq<string>)
    requires Ascending(xs) && Ascending(ys) && Elements(xs) == Elements(ys)
    ensures xs == ys
  {
    if xs == [] {
      NoElements(xs);
      NoElements(ys);
    } else {
      assert xs[0] in Elements(xs);
      var j :| 0 <= j < |ys| && ys[j] == xs[0];
      assert ys[0] in Elements(ys);
      var i :| 0 <= i < |xs| && xs[i] == ys[0];
      LessIsStrict(xs[0], ys[0]);
      assert xs[0] == ys[0];
      TailElements(xs);
      TailElements(ys);
      ListIsUnique(xs[1..], ys[1..]);
    }
  }

  lemma TailElements(xs: seq<string>)
    requires xs != [] && Ascending(xs)
    ensures Elements(xs[1..]) == Elements(xs) - {xs[0]}
  {
    forall i | 1 <= i < |xs| ensures xs[i] != xs[0] { LessIsStrict(xs[0], xs[i]); }
    assert forall x :: x in xs <==> x == xs[0] || x in xs[1..];
  }

  // ---- Building the list ----

  /** Position at which `x` belongs. */
  function Slot(xs: seq<string>, x: string): (n: nat)
    requires Ascending(xs) && x !in xs
    ensures n <= |xs|
    ensures forall i :: 0 <= i < n ==> Less(xs[i], x)
    ensures forall i :: n <= i < |xs| ==> Less(x, xs[i])
  {
    if xs == [] then 0
    else if Less(x, xs[0]) then LessThanAll(xs, x); 0
    else LessIsTotal(x, xs[0]); 1 + Slot(xs[1..], x)
  }

  lemma LessThanAll(xs: seq<string>, x: string)
    requires Ascending(xs) && xs != [] && Less(x, xs[0])
    ensures forall i :: 0 <= i < |xs| ==> Less(x, xs[i])
  {
    forall i | 0 < i < |xs| ensures Less(x, xs[i]) { LessIsTransitive(x, xs[0], xs[i]); }
  }

  function Insert(xs: seq<string>, x: string): (r: seq<string>)
    requires Ascending(xs) && x !in xs
    ensures Ascending(r) && Elements(r) == Elements(xs) + {x}
  {
    InsertKeepsOrder(xs, x, Slot(xs, x));
    xs[..Slot(xs, x)] + [x] + xs[Slot(xs, x)..]
  }

  ghost function SortedList(s: set<string>): (xs: seq<string>)
    ensures IsListOf(xs, s)
  {
    if s == {} then []
    else
      var x :| x in s;
      assert x !in Elements(SortedList(s - {x}));
      Insert(SortedList(s - {x}), x)
  }

  /** sort.Strings on the keys of a set. */
  method SortedKeys(seen: set<string>) returns (result: seq<string>)
    ensures result == SortedList(seen)
  {
    result := [];
    var left := seen;
    while left != {}
      invariant left <= seen && IsListOf(result, seen - left)
      decreases |left|
    {
      var x :| x in left;
      assert x !in Elements(result);
      result := Insert(result, x);
      left := left - {x};
      assert seen - left == Elements(result);
    }
    ListIsUnique(result, SortedList(seen));
  }

  lemma InsertKeepsOrder(xs: seq<string>, x: string, n: nat)
    requires Ascending(xs) && n <= |xs|
    requires forall i :: 0 <= i < n ==> Less(xs[i], x)
    requires forall i :: n <= i < |xs| ==> Less(x, xs[i])
    ensures Ascending(xs[..n] + [x] + xs[n..])
    ensures Elements(xs[..n] + [x] + xs[n..]) == Elements(xs) + {x}
  {
    assert forall y :: y in xs <==> y in xs[..n] || y in xs[n..] by { assert xs == xs[..n] + xs[n..]; }
  }

  /** The folder names in a list: trimmed, blanks dropped. */
  function Items(xs: seq<string>): set<string> {
    set x | x in xs && TrimSpace(x) != "" :: TrimSpace(x)
  }

  function ItemsOfAll(groups: seq<seq<string>>): set<string> {
    if groups == [] then {} else ItemsOfAll(groups[..|groups| - 1]) + Items(groups[|groups| - 1])
  }

  lemma ItemsAppend(xs: seq<string>, x: string)
    ensures Items(xs + [x]) == Items(xs) + if TrimSpace(x) == "" then {} else {TrimSpace(x)}
  {
    assert forall y :: y in xs + [x] <==> y in xs || y == x;
  }

  method MergeFolderSets(groups: seq<seq<string>>) returns (result: seq<string>)
    ensures result == SortedList(ItemsOfAll(groups))
  {
    var seen: set<string> := {};
    for g := 0 to |groups|
      invariant seen == ItemsOfAll(groups[..g])
    {
      var group := groups[g];
      for i := 0 to |group|
        invariant seen == ItemsOfAll(groups[..g]) + Items(group[..i])
      {
        assert group[..i + 1] == group[..i] + [group[i]];
        ItemsAppend(group[..i], group[i]);
        var item := TrimSpace(group[i]);
        if item != "" {
          seen := seen + {item};
        }
      }
      assert group[..|group|] == group && groups[..g + 1][..g] == groups[..g];
    }
    assert groups[..|groups|] == groups;
    result := SortedKeys(seen);
  }

  /** What is kept of `values`, in order. */
  function Without(values: seq<string>, removed: set<string>): seq<string> {
    if values == [] then []
    else
      var last := values[|values| - 1];
      Without(values[..|values| - 1], removed) + if last in removed then [] else [last]
  }

  method SubtractFolderSet(values: seq<string>, removed: seq<string>) returns (result: seq<string>)
    ensures result == Without(values, Elements(removed))
  {
    var remove: set<string> := {};
    for i := 0 to |removed|
      invariant remove == Elements(removed[..i])
    {
      assert removed[..i + 1] == removed[..i] + [removed[i]];
      remove := remove + {removed[i]};
    }
    assert removed[..|removed|] == removed;
    result := [];
    for i := 0 to |values|
      invariant result == Without(values[..i], remove)
    {
      assert values[..i + 1][..i] == values[..i];
      if values[i] !in remove {
        result := result + [values[i]];
      }
    }
    assert values[..|values|] == values;
  }

  lemma ElementsAppend(xs: seq<string>, x: string)
    ensures Elements(xs + [x]) == Elements(xs) + {x}
  {
    assert forall y :: y in xs + [x] <==> y in xs || y == x;
  }

  lemma {:induction false} WithoutElements(values: seq<string>, removed: set<string>)
    ensures Elements(Without(values, removed)) == Elements(values) - removed
  {
    if values != [] {
      var front, last := values[..|values| - 1], values[|values| - 1];
      WithoutElements(front, removed);
      ElementsAppend(front, last);
      assert values == front + [last];
      ElementsAppend(Without(front, removed), last);
      assert Without(front, removed) + [] == Without(front, removed);
    }
  }

  lemma {:induction false} TrimIsIdempotent(x: string)
    ensures TrimSpace(TrimSpace(x)) == TrimSpace(x)
  {
    TrimmedIsFixed(x);
    TrimmedIsFixed(TrimSpace(x));
  }

  predicate Clean(xs: seq<string>) {
    forall x :: x in xs ==> x != "" && TrimSpace(x) == x
  }

  lemma CleanItems(xs: seq<string>)
    requires Clean(xs)
    ensures Items(xs) == Elements(xs)
  {
    forall x | x in Elements(xs) ensures x in Items(xs) { assert x in xs && TrimSpace(x) == x; }
  }

  lemma ItemsAreClean(xs: seq<string>, ys: seq<string>)
    requires Elements(xs) <= Items(ys)
    ensures Clean(xs)
  {
    forall x | x in xs ensures x != "" && TrimSpace(x) == x {
      assert x in Elements(xs);
      var y :| y in ys && TrimSpace(y) == x;
      TrimIsIdempotent(y);
    }
  }

  lemma CleanWithout(xs: seq<string>, removed: set<string>)
    requires Clean(xs)
    ensures Clean(Without(xs, removed))
  {
    WithoutElements(xs, removed);
    forall x | x in Without(xs, removed) ensures x in xs { assert x in Elements(Without(xs, removed)); }
  }
}

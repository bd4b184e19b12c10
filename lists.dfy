/** The option lists the page loads: collection items from the registry, states (UFs)
    and a state's cities from the geography service. */
module Lists {

  datatype Item = Item(id: int, title: string, imageUrl: string)

  datatype Uf = Uf(sigla: string)

  datatype City = City(nome: string)

  /** `data.map(uf => uf.sigla)`. */
  function Siglas(data: seq<Uf>): (r: seq<string>)
    ensures |r| == |data| && forall i :: 0 <= i < |data| ==> r[i] == data[i].sigla
  {
    if data == [] then [] else [data[0].sigla] + Siglas(data[1..])
  }

  /** `data.map(city => city.nome)`. */
  function CityNames(data: seq<City>): (r: seq<string>)
    ensures |r| == |data| && forall i :: 0 <= i < |data| ==> r[i] == data[i].nome
  {
    if data == [] then [] else [data[0].nome] + CityNames(data[1..])
  }

  /** The order of `Array.prototype.sort` without a comparator: character by character,
      a proper prefix first. */
  predicate LexLeq(a: string, b: string) {
    a == [] || (b != [] && (a[0] < b[0] || (a[0] == b[0] && LexLeq(a[1..], b[1..]))))
  }

  lemma {:induction false} LexLeqTotal(a: string, b: string)
    ensures LexLeq(a, b) || LexLeq(b, a)
  {
    if a != [] && b != [] && a[0] == b[0] {
      LexLeqTotal(a[1..], b[1..]);
    }
  }

  lemma {:induction false} LexLeqTransitive(a: string, b: string, c: string)
    requires LexLeq(a, b) && LexLeq(b, c)
    ensures LexLeq(a, c)
  {
    if a != [] && a[0] == b[0] && b[0] == c[0] {
      LexLeqTransitive(a[1..], b[1..], c[1..]);
    }
  }

  lemma {:induction false} LexLeqReflexive(a: string)
    ensures LexLeq(a, a)
  {
    if a != [] {
      LexLeqReflexive(a[1..]);
    }
  }

  lemma {:induction false} LexLeqAntisymmetric(a: string, b: string)
    requires LexLeq(a, b) && LexLeq(b, a)
    ensures a == b
  {
    if a != [] {
      LexLeqAntisymmetric(a[1..], b[1..]);
      assert a == [a[0]] + a[1..] && b == [b[0]] + b[1..];
    }
  }

  predicate Sorted(s: seq<string>) {
    forall i, j :: 0 <= i < j < |s| ==> LexLeq(s[i], s[j])
  }

  /** An element no greater than any element of a sorted list may go in front of it. */
  lemma SortedCons(x: string, s: seq<string>)
    requires Sorted(s) && forall k :: 0 <= k < |s| ==> LexLeq(x, s[k])
    ensures Sorted([x] + s)
  {
    forall i, j | 0 <= i < j < |[x] + s| ensures LexLeq(([x] + s)[i], ([x] + s)[j]) {
      if i > 0 {
        assert ([x] + s)[i] == s[i - 1] && ([x] + s)[j] == s[j - 1];
      }
    }
  }

  /** Whatever is no greater than a sorted list's head is no greater than all of it. */
  lemma BelowHead(x: string, s: seq<string>)
    requires Sorted(s) && s != [] && LexLeq(x, s[0])
    ensures forall k :: 0 <= k < |s| ==> LexLeq(x, s[k])
  {
    forall k | 0 < k < |s| ensures LexLeq(x, s[k]) {
      LexLeqTransitive(x, s[0], s[k]);
    }
  }

  /** A sorted list's head is no greater than `x` or anything in the rest of the list. */
  lemma HeadBelowAll(s: seq<string>, x: string, rest: seq<string>)
    requires Sorted(s) && s != [] && LexLeq(s[0], x)
    requires multiset(rest) == multiset(s[1..]) + multiset{x}
    ensures forall k :: 0 <= k < |rest| ==> LexLeq(s[0], rest[k])
  {
    forall k | 0 <= k < |rest| ensures LexLeq(s[0], rest[k]) {
      assert rest[k] in multiset(rest);
      if rest[k] != x {
        assert rest[k] in multiset(s[1..]);
        var j :| 0 <= j < |s[1..]| && s[1..][j] == rest[k];
        assert s[j + 1] == rest[k];
      }
    }
  }

  /** Places `x` into a sorted list. */
  function Insert(x: string, s: seq<string>): (r: seq<string>)
    requires Sorted(s)
    ensures Sorted(r) && multiset(r) == multiset(s) + multiset{x}
  {
    if s == [] then [x]
    else if LexLeq(x, s[0]) then
      BelowHead(x, s);
      SortedCons(x, s);
      [x] + s
    else
      var rest := Insert(x, s[1..]);
      LexLeqTotal(x, s[0]);
      HeadBelowAll(s, x, rest);
      SortedCons(s[0], rest);
      assert s == [s[0]] + s[1..];
      [s[0]] + rest
  }

  /** The list sorted, as `.sort()` leaves it. */
  function SortStrings(s: seq<string>): (r: seq<string>)
    ensures Sorted(r) && multiset(r) == multiset(s)
  {
    if s == [] then []
    else
      assert s == [s[0]] + s[1..];
      Insert(s[0], SortStrings(s[1..]))
  }

  /** `data.map(uf => uf.sigla).sort()`: the fetched codes, each as often as fetched, in
      sorted order. */
  function UfOptions(data: seq<Uf>): (r: seq<string>)
    ensures Sorted(r) && multiset(r) == multiset(Siglas(data))
  {
    SortStrings(Siglas(data))
  }

  lemma SortedHeadLeast(s: seq<string>, x: string)
    requires Sorted(s) && x in multiset(s)
    ensures LexLeq(s[0], x)
  {
    var i :| 0 <= i < |s| && s[i] == x;
    if i == 0 {
      LexLeqReflexive(x);
    }
  }

  lemma SortedTail(s: seq<string>)
    requires Sorted(s) && s != []
    ensures Sorted(s[1..])
  {
  }

  lemma TailMultiset(s: seq<string>)
    requires s != []
    ensures multiset(s[1..]) == multiset(s) - multiset{s[0]}
  {
    assert s == [s[0]] + s[1..];
  }

  /** A list's sorted order is unique: two sorted lists with the same elements are equal. */
  lemma {:induction false} SortedUnique(a: seq<string>, b: seq<string>)
    requires Sorted(a) && Sorted(b) && multiset(a) == multiset(b)
    ensures a == b
  {
    assert |a| == |multiset(a)| == |b|;
    if a != [] {
      SortedHeadLeast(a, b[0]);
      SortedHeadLeast(b, a[0]);
      LexLeqAntisymmetric(a[0], b[0]);
      TailMultiset(a);
      TailMultiset(b);
      SortedTail(a);
      SortedTail(b);
      SortedUnique(a[1..], b[1..]);
    }
  }

  /** Any list holding the fetched codes in sorted order is the one the page shows. */
  lemma UfOptionsUnique(data: seq<Uf>, r: seq<string>)
    requires Sorted(r) && multiset(r) == multiset(Siglas(data))
    ensures r == UfOptions(data)
  {
    SortedUnique(r, UfOptions(data));
  }
}

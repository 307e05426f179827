/** Grouping by `curso`: the `asignaturasPorCurso` reduce of the subjects page
    (repeated verbatim in the grades page, in both forms and, keyed by the
    subject's course, as `notasPorCurso`), and the ascending order in which
    the groups are listed. */
module Cursos {
  import opened Seqs

  /** The distinct `curso` values present among `items`. */
  function CursosDe<T(==)>(items: seq<T>, curso: T -> nat): set<nat>
  {
    set x | x in items :: curso(x)
  }

  /** The predicate "belongs to course k". */
  function EnCurso<T>(curso: T -> nat, k: nat): T -> bool
  {
    x => curso(x) == k
  }

  /** What the reduce builds: one group per `curso` value present, holding
      that course's items in input order. */
  function Grupos<T(==,!new)>(items: seq<T>, curso: T -> nat): map<nat, seq<T>>
  {
    map k | k in CursosDe(items, curso) :: Filter(items, EnCurso(curso, k))
  }

  /** Appending one item changes only the group of its own course, and
      changes it by appending the item (`if (!acc[k]) acc[k] = []; acc[k].push(x)`). */
  lemma GruposSnoc<T(!new)>(items: seq<T>, x: T, curso: T -> nat)
    ensures var g := Grupos(items, curso); var k := curso(x);
      Grupos(items + [x], curso) == g[k := (if k in g then g[k] else []) + [x]]
  {
    var g := Grupos(items, curso);
    var k := curso(x);
    var g' := g[k := (if k in g then g[k] else []) + [x]];
    var items' := items + [x];
    assert items'[..|items'| - 1] == items;
    assert items'[|items'| - 1] == x;
    assert CursosDe(items', curso) == CursosDe(items, curso) + {k};
    forall j | j in CursosDe(items', curso)
      ensures Filter(items', EnCurso(curso, j)) == g'[j]
    {
      if j != k {
        assert j in CursosDe(items, curso);
      } else if k !in g {
        FilterEmpty(items, EnCurso(curso, k));
      }
    }
  }

  /** The `reduce` over the items with a dictionary accumulator. */
  method AgruparPorCurso<T(==,!new)>(items: seq<T>, curso: T -> nat) returns (g: map<nat, seq<T>>)
    ensures g == Grupos(items, curso)
  {
    g := map[];
    var i := 0;
    while i < |items|
      invariant 0 <= i <= |items|
      invariant g == Grupos(items[..i], curso)
    {
      var x := items[i];
      var k := curso(x);
      GruposSnoc(items[..i], x, curso);
      assert items[..i + 1] == items[..i] + [x];
      if k !in g {
        g := g[k := []];
      }
      g := g[k := g[k] + [x]];
      i := i + 1;
    }
    assert items[..|items|] == items;
  }

  /** Every item lands in the group of its own course and in no other; the
      keys are exactly the courses present and no group is empty. */
  lemma GruposParticion<T(!new)>(items: seq<T>, curso: T -> nat)
    ensures Grupos(items, curso).Keys == CursosDe(items, curso)
    ensures forall x :: x in items ==> x in Grupos(items, curso)[curso(x)]
    ensures forall k, x :: k in Grupos(items, curso) && x in Grupos(items, curso)[k]
              ==> x in items && curso(x) == k
    ensures forall k :: k in Grupos(items, curso) ==> Grupos(items, curso)[k] != []
  {
    var g := Grupos(items, curso);
    forall k | k in g ensures g[k] != [] {
      var x :| x in items && curso(x) == k;
      assert x in g[k];
    }
  }

  /** Within a group the items keep their input order: grouping a
      concatenation concatenates the groups. */
  lemma GruposOrden<T(!new)>(a: seq<T>, b: seq<T>, curso: T -> nat, k: nat)
    requires k in Grupos(a + b, curso)
    ensures var ga := Grupos(a, curso); var gb := Grupos(b, curso);
      Grupos(a + b, curso)[k] == (if k in ga then ga[k] else []) + (if k in gb then gb[k] else [])
  {
    var p := EnCurso(curso, k);
    FilterAppend(a, b, p);
    if k !in Grupos(a, curso) {
      FilterEmpty(a, p);
    }
    if k !in Grupos(b, curso) {
      FilterEmpty(b, p);
    }
  }

  /** There are no groups exactly when there are no items: the "no subjects"
      state of the subjects page. */
  lemma GruposVacio<T(!new)>(items: seq<T>, curso: T -> nat)
    ensures |Grupos(items, curso)| == 0 <==> items == []
  {
    if items != [] {
      assert curso(items[0]) in Grupos(items, curso);
    }
  }

  /** A non-empty finite set of naturals has a least element. */
  lemma {:induction false} Minimo(s: set<nat>) returns (m: nat)
    requires s != {}
    ensures m in s && forall y :: y in s ==> m <= y
    decreases s
  {
    var x :| x in s;
    if s == {x} {
      m := x;
    } else {
      var m' := Minimo(s - {x});
      m := if x < m' then x else m';
      forall y | y in s
        ensures m <= y
      {
        if y != x {
          assert y in s - {x};
        }
      }
    }
  }

  function MinimoDe(s: set<nat>): (m: nat)
    requires s != {}
    ensures m in s && forall y :: y in s ==> m <= y
  {
    assert exists m :: m in s && forall y :: y in s ==> m <= y by {
      var m := Minimo(s);
    }
    var m :| m in s && forall y :: y in s ==> m <= y;
    m
  }

  /** The keys of `s` in ascending order. */
  function Ascendente(s: set<nat>): (r: seq<nat>)
    ensures forall x :: x in r <==> x in s
    ensures |r| == |s|
    ensures forall i, j :: 0 <= i < j < |r| ==> r[i] < r[j]
    decreases s
  {
    if s == {} then []
    else
      var m := MinimoDe(s);
      var rest := Ascendente(s - {m});
      AscendenteCons(s, m, rest);
      [m] + rest
  }

  lemma AscendenteCons(s: set<nat>, m: nat, rest: seq<nat>)
    requires m in s && forall y :: y in s ==> m <= y
    requires forall x :: x in rest <==> x in s - {m}
    requires |rest| == |s - {m}|
    requires forall i, j :: 0 <= i < j < |rest| ==> rest[i] < rest[j]
    ensures forall x :: x in [m] + rest <==> x in s
    ensures |[m] + rest| == |s|
    ensures forall i, j :: 0 <= i < j < |[m] + rest| ==> ([m] + rest)[i] < ([m] + rest)[j]
  {
    var r := [m] + rest;
    forall j | 0 <= j < |rest| ensures m < rest[j] {
      assert rest[j] in rest;
    }
    assert forall i :: 1 <= i < |r| ==> r[i] == rest[i - 1];
  }

  /** The entries `(k, g[k])` for the keys `ks`, in that order. */
  function Entradas<T>(g: map<nat, seq<T>>, ks: seq<nat>): (r: seq<(nat, seq<T>)>)
    requires forall k :: k in ks ==> k in g
    ensures |r| == |ks|
    ensures forall i :: 0 <= i < |ks| ==> r[i] == (ks[i], g[ks[i]])
    decreases |ks|
  {
    if ks == [] then [] else Entradas(g, ks[..|ks| - 1]) + [(ks[|ks| - 1], g[ks[|ks| - 1]])]
  }

  /** `Object.entries(g).sort((a, b) => Number(a[0]) - Number(b[0]))`: every
      group once, by ascending course. */
  function Secciones<T>(g: map<nat, seq<T>>): (r: seq<(nat, seq<T>)>)
    ensures |r| == |g|
    ensures forall i, j :: 0 <= i < j < |r| ==> r[i].0 < r[j].0
    ensures forall i :: 0 <= i < |r| ==> r[i].0 in g && r[i].1 == g[r[i].0]
    ensures forall k :: k in g ==> exists i :: 0 <= i < |r| && r[i].0 == k
  {
    var ks := Ascendente(g.Keys);
    assert forall k :: k in ks ==> k in g;
    var r := Entradas(g, ks);
    r
  }

  /** The lists of the entries, one after the other, as the page shows them. */
  function Aplanar<T>(es: seq<(nat, seq<T>)>): seq<T>
    decreases |es|
  {
    if es == [] then [] else Aplanar(es[..|es| - 1]) + es[|es| - 1].1
  }

  /** The course groups for the courses `ks`, one after the other. */
  function Juntar<T(!new)>(items: seq<T>, curso: T -> nat, ks: seq<nat>): seq<T>
    decreases |ks|
  {
    if ks == [] then [] else Juntar(items, curso, ks[..|ks| - 1]) + Filter(items, EnCurso(curso, ks[|ks| - 1]))
  }

  lemma {:induction false} AplanarEntradas<T(!new)>(items: seq<T>, curso: T -> nat, ks: seq<nat>)
    requires forall k :: k in ks ==> k in Grupos(items, curso)
    ensures Aplanar(Entradas(Grupos(items, curso), ks)) == Juntar(items, curso, ks)
    decreases |ks|
  {
    if ks != [] {
      var ks' := ks[..|ks| - 1];
      assert forall k :: k in ks' ==> k in ks;
      AplanarEntradas(items, curso, ks');
      var es := Entradas(Grupos(items, curso), ks);
      assert es[..|es| - 1] == Entradas(Grupos(items, curso), ks');
    }
  }

  lemma {:induction false} JuntarVacio<T(!new)>(curso: T -> nat, ks: seq<nat>)
    ensures Juntar([], curso, ks) == []
    decreases |ks|
  {
    if ks != [] {
      JuntarVacio(curso, ks[..|ks| - 1]);
    }
  }

  lemma {:induction false} JuntarSnoc<T(!new)>(items: seq<T>, x: T, curso: T -> nat, ks: seq<nat>)
    requires NoDup(ks)
    ensures multiset(Juntar(items + [x], curso, ks))
         == multiset(Juntar(items, curso, ks)) + (if curso(x) in ks then multiset{x} else multiset{})
    decreases |ks|
  {
    if ks != [] {
      var ks' := ks[..|ks| - 1];
      var k := ks[|ks| - 1];
      assert ks == ks' + [k];
      assert NoDup(ks');
      JuntarSnoc(items, x, curso, ks');
      assert (items + [x])[..|items + [x]| - 1] == items;
      assert curso(x) == k ==> curso(x) !in ks' by {
        assert forall i :: 0 <= i < |ks'| ==> ks'[i] == ks[i] != k;
      }
    }
  }

  lemma {:induction false} JuntarPermutacion<T(!new)>(items: seq<T>, curso: T -> nat, ks: seq<nat>)
    requires NoDup(ks)
    requires forall x :: x in items ==> curso(x) in ks
    ensures multiset(Juntar(items, curso, ks)) == multiset(items)
    decreases |items|
  {
    if items == [] {
      JuntarVacio(curso, ks);
    } else {
      var items' := items[..|items| - 1];
      var x := items[|items| - 1];
      assert items == items' + [x];
      assert forall y :: y in items' ==> y in items;
      JuntarPermutacion(items', curso, ks);
      JuntarSnoc(items', x, curso, ks);
    }
  }

  /** The groups listed in ascending course order contain every item exactly
      as often as the input does: in total they hold as many items as there
      are, none lost and none repeated. */
  lemma SeccionesPermutacion<T(!new)>(items: seq<T>, curso: T -> nat)
    ensures multiset(Aplanar(Secciones(Grupos(items, curso)))) == multiset(items)
    ensures |Aplanar(Secciones(Grupos(items, curso)))| == |items|
  {
    var g := Grupos(items, curso);
    var ks := Ascendente(g.Keys);
    assert forall k :: k in ks ==> k in g;
    assert NoDup(ks);
    AplanarEntradas(items, curso, ks);
    JuntarPermutacion(items, curso, ks);
    assert |multiset(Aplanar(Secciones(g)))| == |multiset(items)|;
  }
}

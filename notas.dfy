/** The grades page: each subject's grades, the weighted final grade, the
    subjects that have a positive final grade, the average of those, the
    per-course progress ring and the course groupings of the selector and
    of the summary list. Grades and weights are exact reals. */
module Notas {
  import opened Wrappers
  import opened Seqs
  import opened Registros
  import Cursos

  function Peso(n: Nota): real
  {
    n.peso
  }

  /** What one grade adds to the final grade: its score times its weight in percent. */
  function Aporte(n: Nota): real
  {
    n.nota * (n.peso / 100.0)
  }

  /** `calcularNotaFinal`: zero when the weights add up to zero, otherwise the
      sum of score times weight / 100. */
  function NotaFinal(notas: seq<Nota>): real
  {
    if Sum(notas, Peso) == 0.0 then 0.0 else Sum(notas, Aporte)
  }

  /** The final grade depends only on which grades there are, not on the
      order they were fetched in. */
  lemma NotaFinalOrden(a: seq<Nota>, b: seq<Nota>)
    requires multiset(a) == multiset(b)
    ensures NotaFinal(a) == NotaFinal(b)
  {
    SumPermutation(a, b, Peso);
    SumPermutation(a, b, Aporte);
  }

  /** A subject without grades, or whose grades all weigh 0 %, has final grade 0. */
  lemma NotaFinalSinPeso(notas: seq<Nota>)
    requires forall n :: n in notas ==> n.peso == 0.0
    ensures NotaFinal(notas) == 0.0
  {
    SumOfZeros(notas, Peso);
  }

  lemma AporteDeUna(n: Nota)
    requires 0.0 <= n.nota <= 10.0 && 0.0 <= n.peso
    ensures 0.0 <= Aporte(n) && 10.0 * Aporte(n) <= n.peso
  {
    var w := n.peso / 100.0;
    assert n.peso == 100.0 * w;
    assert 0.0 <= n.nota * w <= 10.0 * w;
    assert 10.0 * (n.nota * w) <= 100.0 * w;
    assert Aporte(n) == n.nota * w;
    assert 10.0 * Aporte(n) == 10.0 * (n.nota * w);
  }

  /** With scores in [0, 10] and non-negative weights, every grade adds
      between 0 and a tenth of its weight. */
  lemma {:induction false} AporteAcotado(notas: seq<Nota>)
    requires forall n :: n in notas ==> 0.0 <= n.nota <= 10.0 && 0.0 <= n.peso
    ensures 0.0 <= Sum(notas, Aporte) && 10.0 * Sum(notas, Aporte) <= Sum(notas, Peso)
    decreases |notas|
  {
    if notas != [] {
      var s' := notas[..|notas| - 1];
      var n := notas[|notas| - 1];
      assert forall x :: x in s' ==> x in notas;
      assert n in notas;
      AporteAcotado(s');
      assert Sum(notas, Aporte) == Sum(s', Aporte) + Aporte(n);
      assert Sum(notas, Peso) == Sum(s', Peso) + n.peso;
      AporteDeUna(n);
    }
  }

  /** With scores in [0, 10] and non-negative weights the final grade is
      between 0 and a tenth of the total weight; when the weights add up to
      100 % it is a grade between 0 and 10. */
  lemma NotaFinalAcotada(notas: seq<Nota>)
    requires forall n :: n in notas ==> 0.0 <= n.nota <= 10.0 && 0.0 <= n.peso
    ensures 0.0 <= NotaFinal(notas) && 10.0 * NotaFinal(notas) <= Sum(notas, Peso)
    ensures Sum(notas, Peso) == 100.0 ==> 0.0 <= NotaFinal(notas) <= 10.0
  {
    AporteAcotado(notas);
  }

  /** An exam of 8 weighing 40 % and a lab of 6 weighing 60 % give 6.8. */
  lemma NotaFinalEjemplo()
    ensures NotaFinal([Nota("n1", "Examen", 8.0, 40.0, "", "a"), Nota("n2", "Practica", 6.0, 60.0, "", "a")]) == 6.8
  {
    var s := [Nota("n1", "Examen", 8.0, 40.0, "", "a"), Nota("n2", "Practica", 6.0, 60.0, "", "a")];
    assert s[..1] == [s[0]];
    assert s[..1][..0] == [];
    assert Sum(s, Peso) == 40.0 + 60.0;
    assert Sum(s, Aporte) == 8.0 * (40.0 / 100.0) + 6.0 * (60.0 / 100.0);
  }

  /** The predicate "belongs to subject `id`". */
  function DeAsignatura(id: string): Nota -> bool
  {
    (n: Nota) => n.asignaturaId == id
  }

  function IdsDe(asignaturas: seq<Asignatura>): set<string>
  {
    set a | a in asignaturas :: a.id
  }

  /** The map `agrupadas` is: keyed by the fetched ids, each holding that
      subject's fetched grades in order. */
  predicate Agrupadas(asignaturas: seq<Asignatura>, notas: seq<Nota>, porAsignatura: map<string, seq<Nota>>)
  {
    porAsignatura.Keys == IdsDe(asignaturas)
    && forall id :: id in porAsignatura ==> porAsignatura[id] == Filter(notas, DeAsignatura(id))
  }

  /** `agrupadas`: for each fetched subject, the fetched grades that belong
      to it, in fetch order. A grade whose subject was not fetched is in no
      list. */
  method Agrupar(asignaturas: seq<Asignatura>, notas: seq<Nota>) returns (porAsignatura: map<string, seq<Nota>>)
    ensures porAsignatura.Keys == IdsDe(asignaturas)
    ensures forall id :: id in porAsignatura ==> porAsignatura[id] == Filter(notas, DeAsignatura(id))
    ensures Agrupadas(asignaturas, notas, porAsignatura)
    ensures forall id, n :: id in porAsignatura ==> (n in porAsignatura[id] <==> n in notas && n.asignaturaId == id)
    ensures forall n :: n in notas && n.asignaturaId !in IdsDe(asignaturas) ==>
              forall id :: id in porAsignatura ==> n !in porAsignatura[id]
  {
    porAsignatura := map[];
    var i := 0;
    while i < |asignaturas|
      invariant 0 <= i <= |asignaturas|
      invariant porAsignatura.Keys == IdsDe(asignaturas[..i])
      invariant forall id :: id in porAsignatura ==> porAsignatura[id] == Filter(notas, DeAsignatura(id))
    {
      var a := asignaturas[i];
      assert asignaturas[..i + 1] == asignaturas[..i] + [a];
      porAsignatura := porAsignatura[a.id := Filter(notas, DeAsignatura(a.id))];
      i := i + 1;
    }
    assert asignaturas[..|asignaturas|] == asignaturas;
  }

  /** `notasPorAsignatura[id] || []`. */
  function NotasDe(porAsignatura: map<string, seq<Nota>>, id: string): (r: seq<Nota>)
    ensures id !in porAsignatura ==> r == []
    ensures id in porAsignatura ==> r == porAsignatura[id]
  {
    if id in porAsignatura then porAsignatura[id] else []
  }

  /** Read through `notasPorAsignatura[id] || []`, the grouped grades of a
      fetched subject are exactly its fetched grades in fetch order, and any
      other id reads as no grades. */
  lemma NotasDeAgrupadas(asignaturas: seq<Asignatura>, notas: seq<Nota>, porAsignatura: map<string, seq<Nota>>, id: string)
    requires Agrupadas(asignaturas, notas, porAsignatura)
    ensures id in IdsDe(asignaturas) ==> NotasDe(porAsignatura, id) == Filter(notas, DeAsignatura(id))
    ensures id !in IdsDe(asignaturas) ==> NotasDe(porAsignatura, id) == []
    ensures forall n :: n in NotasDe(porAsignatura, id) <==> n in notas && n.asignaturaId == id && id in IdsDe(asignaturas)
  {
  }

  /** An entry of `notasFinales`. */
  datatype Final = Final(asignatura: Asignatura, final: real)

  function ConFinal(porAsignatura: map<string, seq<Nota>>): Asignatura -> Final
  {
    (a: Asignatura) => Final(a, NotaFinal(NotasDe(porAsignatura, a.id)))
  }

  function Positiva(f: Final): bool
  {
    f.final > 0.0
  }

  /** `notasFinales`: the subjects whose final grade is positive, each with
      that grade, in subject order. */
  function NotasFinales(asignaturas: seq<Asignatura>, porAsignatura: map<string, seq<Nota>>): (r: seq<Final>)
    ensures |r| <= |asignaturas|
    ensures forall f :: f in r <==>
              f.asignatura in asignaturas && f.final == NotaFinal(NotasDe(porAsignatura, f.asignatura.id)) && f.final > 0.0
  {
    var todas := MapSeq(asignaturas, ConFinal(porAsignatura));
    assert forall f :: f in todas <==> f.asignatura in asignaturas && f.final == NotaFinal(NotasDe(porAsignatura, f.asignatura.id)) by {
      forall f: Final | f.asignatura in asignaturas && f.final == NotaFinal(NotasDe(porAsignatura, f.asignatura.id))
        ensures f in todas
      {
        var i :| 0 <= i < |asignaturas| && asignaturas[i] == f.asignatura;
        assert todas[i] == f;
      }
    }
    Filter(todas, Positiva)
  }

  /** Over the grouping `Agrupar` builds, a subject's final grade is the
      final grade of its own fetched grades. */
  lemma NotasFinalesDeNotas(asignaturas: seq<Asignatura>, notas: seq<Nota>, porAsignatura: map<string, seq<Nota>>)
    requires Agrupadas(asignaturas, notas, porAsignatura)
    ensures forall f :: f in NotasFinales(asignaturas, porAsignatura) <==>
              f.asignatura in asignaturas && f.final == NotaFinal(Filter(notas, DeAsignatura(f.asignatura.id)))
              && f.final > 0.0
  {
    forall a | a in asignaturas
      ensures NotasDe(porAsignatura, a.id) == Filter(notas, DeAsignatura(a.id))
    {
      NotasDeAgrupadas(asignaturas, notas, porAsignatura, a.id);
    }
  }

  /** The final grades keep the subjects' order: the list for two runs of
      subjects is the two lists one after the other. */
  lemma NotasFinalesOrden(a: seq<Asignatura>, b: seq<Asignatura>, porAsignatura: map<string, seq<Nota>>)
    ensures NotasFinales(a + b, porAsignatura) == NotasFinales(a, porAsignatura) + NotasFinales(b, porAsignatura)
  {
    var f := ConFinal(porAsignatura);
    MapAppend(a, b, f);
    FilterAppend(MapSeq(a, f), MapSeq(b, f), Positiva);
  }

  function FinalDe(f: Final): real
  {
    f.final
  }

  /** `mediaGlobal`: the mean of the final grades, absent when there are none. */
  function MediaGlobal(finales: seq<Final>): (r: Option<real>)
    ensures r == None <==> finales == []
  {
    if |finales| > 0 then Some(Sum(finales, FinalDe) / (|finales| as real)) else None
  }

  /** The mean lies between any lower and upper bound of the final grades. */
  lemma MediaAcotada(finales: seq<Final>, lo: real, hi: real)
    requires finales != []
    requires forall f :: f in finales ==> lo <= f.final <= hi
    ensures lo <= MediaGlobal(finales).value <= hi
  {
    SumBounds(finales, FinalDe, lo, hi);
    var n := |finales| as real;
    var s := Sum(finales, FinalDe);
    assert n * lo <= s <= n * hi;
    assert s / n * n == s;
  }

  /** The mean of the positive final grades is positive, so the page shows
      the mean exactly when some subject has a positive final grade. */
  lemma MediaPositiva(asignaturas: seq<Asignatura>, porAsignatura: map<string, seq<Nota>>)
    ensures var finales := NotasFinales(asignaturas, porAsignatura);
      finales != [] ==> MediaGlobal(finales).Some? && MediaGlobal(finales).value > 0.0
  {
    var finales := NotasFinales(asignaturas, porAsignatura);
    if finales != [] {
      SumPositive(finales, FinalDe);
      var n := |finales| as real;
      assert Sum(finales, FinalDe) / n > 0.0;
    }
  }

  /** The mean does not depend on the order of the subjects. */
  lemma MediaOrden(a: seq<Final>, b: seq<Final>)
    requires multiset(a) == multiset(b)
    ensures MediaGlobal(a) == MediaGlobal(b)
  {
    SumPermutation(a, b, FinalDe);
    assert |a| == |multiset(a)| == |multiset(b)| == |b|;
  }

  /** Three subjects of which only the second has a grade (7.5 weighing
      100 %): only it appears among the final grades, and the mean is 7.5. */
  lemma MediaEjemplo()
    ensures var a := Asignatura("a", "A", None, 1);
      var b := Asignatura("b", "B", None, 1);
      var c := Asignatura("c", "C", None, 2);
      var g := map["a" := [], "b" := [Nota("n", "Examen", 7.5, 100.0, "", "b")], "c" := []];
      NotasFinales([a, b, c], g) == [Final(b, 7.5)] && MediaGlobal([Final(b, 7.5)]) == Some(7.5)
  {
    var a := Asignatura("a", "A", None, 1);
    var b := Asignatura("b", "B", None, 1);
    var c := Asignatura("c", "C", None, 2);
    var nb := [Nota("n", "Examen", 7.5, 100.0, "", "b")];
    var g := map["a" := [], "b" := nb, "c" := []];
    assert nb[..0] == [];
    assert NotaFinal(nb) == 7.5;
    assert NotaFinal([]) == 0.0;
    var f := ConFinal(g);
    var todas := MapSeq([a, b, c], f);
    assert todas == [Final(a, 0.0), Final(b, 7.5), Final(c, 0.0)];
    assert todas[..2][..1] == [Final(a, 0.0)];
    assert todas[..2] == [Final(a, 0.0), Final(b, 7.5)];
    assert Filter(todas[..2][..1], Positiva) == [] by {
      assert todas[..2][..1][..0] == [];
    }
    assert [Final(b, 7.5)][..0] == [];
  }

  /** The predicate "has at least one grade". */
  function ConNotas(porAsignatura: map<string, seq<Nota>>): Asignatura -> bool
  {
    (a: Asignatura) => |NotasDe(porAsignatura, a.id)| > 0
  }

  /** An entry of `progresoPorCurso`. */
  datatype Progreso = Progreso(curso: nat, total: nat, conNota: nat, progreso: real)

  /** One course's progress: how many of its subjects there are, how many of
      them have at least one grade, and the share of the latter (0 for a
      course without subjects). */
  function ProgresoDe(asignaturas: seq<Asignatura>, porAsignatura: map<string, seq<Nota>>, curso: nat): (p: Progreso)
    ensures p.curso == curso
    ensures p.total == |Filter(asignaturas, Cursos.EnCurso(CursoDe, curso))|
    ensures p.conNota == |Filter(Filter(asignaturas, Cursos.EnCurso(CursoDe, curso)), ConNotas(porAsignatura))|
    ensures p.conNota <= p.total
    ensures p.total > 0 ==> p.progreso == p.conNota as real / p.total as real
    ensures 0.0 <= p.progreso <= 1.0
    ensures p.total == 0 ==> p.progreso == 0.0
    ensures p.progreso == 1.0 <==>
              p.total > 0 && forall a :: a in asignaturas && a.curso == curso ==> NotasDe(porAsignatura, a.id) != []
  {
    var delCurso := Filter(asignaturas, Cursos.EnCurso(CursoDe, curso));
    var total := |delCurso|;
    var conNota := |Filter(delCurso, ConNotas(porAsignatura))|;
    ProgresoCompleto(asignaturas, porAsignatura, curso);
    Proporcion(conNota, total);
    var progreso := if total > 0 then conNota as real / total as real else 0.0;
    Progreso(curso, total, conNota, progreso)
  }

  /** All of a course's subjects are counted as graded exactly when each of
      them has a grade. */
  lemma ProgresoCompleto(asignaturas: seq<Asignatura>, porAsignatura: map<string, seq<Nota>>, curso: nat)
    ensures var delCurso := Filter(asignaturas, Cursos.EnCurso(CursoDe, curso));
      |Filter(delCurso, ConNotas(porAsignatura))| == |delCurso| <==>
      forall a :: a in asignaturas && a.curso == curso ==> NotasDe(porAsignatura, a.id) != []
  {
    var delCurso := Filter(asignaturas, Cursos.EnCurso(CursoDe, curso));
    EnCursoDe(curso);
    FilterKeepsAll(delCurso, ConNotas(porAsignatura));
  }

  /** `Cursos.EnCurso(CursoDe, curso)` is "`a.curso == curso`". */
  lemma EnCursoDe(curso: nat)
    ensures forall a: Asignatura :: Cursos.EnCurso(CursoDe, curso)(a) <==> a.curso == curso
  {
    forall a: Asignatura
      ensures Cursos.EnCurso(CursoDe, curso)(a) <==> a.curso == curso
    {
      assert CursoDe(a) == a.curso;
    }
  }

  /** Over the grouping `Agrupar` builds, a course's ring is full exactly
      when the course has subjects and each of them has a fetched grade. */
  lemma ProgresoDeNotas(asignaturas: seq<Asignatura>, notas: seq<Nota>, porAsignatura: map<string, seq<Nota>>, curso: nat)
    requires Agrupadas(asignaturas, notas, porAsignatura)
    ensures var p := ProgresoDe(asignaturas, porAsignatura, curso);
      p.progreso == 1.0 <==>
      p.total > 0 && forall a :: a in asignaturas && a.curso == curso ==>
                       exists n :: n in notas && n.asignaturaId == a.id
  {
    forall a | a in asignaturas
      ensures NotasDe(porAsignatura, a.id) != [] <==> exists n :: n in notas && n.asignaturaId == a.id
    {
      NotasDeAgrupadas(asignaturas, notas, porAsignatura, a.id);
      var l := NotasDe(porAsignatura, a.id);
      if l != [] {
        assert l[0] in l;
      }
    }
  }

  /** `conNota / total` for `conNota <= total`, `total > 0`, lies in [0, 1]
      and is 1 exactly when the two are equal. */
  lemma Proporcion(parte: nat, total: nat)
    requires parte <= total
    ensures total > 0 ==> 0.0 <= parte as real / total as real <= 1.0
    ensures total > 0 ==> (parte as real / total as real == 1.0 <==> parte == total)
  {
    if total > 0 {
      var q := parte as real / total as real;
      assert q * total as real == parte as real;
    }
  }

  /** `progresoPorCurso`: the progress of courses 1 to 4, in that order. */
  function ProgresoPorCurso(asignaturas: seq<Asignatura>, porAsignatura: map<string, seq<Nota>>): (r: seq<Progreso>)
    ensures |r| == 4
    ensures forall i :: 0 <= i < 4 ==> r[i] == ProgresoDe(asignaturas, porAsignatura, i + 1)
  {
    var cursos: seq<nat> := [1, 2, 3, 4];
    MapSeq(cursos, (c: nat) => ProgresoDe(asignaturas, porAsignatura, c))
  }

  /** Subjects outside courses 1 to 4 count towards no course's progress. */
  lemma ProgresoFueraDeCursos(asignaturas: seq<Asignatura>, porAsignatura: map<string, seq<Nota>>, a: Asignatura)
    requires a in asignaturas && (a.curso < 1 || a.curso > 4)
    ensures forall p :: p in ProgresoPorCurso(asignaturas, porAsignatura) ==> a !in Filter(asignaturas, Cursos.EnCurso(CursoDe, p.curso))
  {
    var r := ProgresoPorCurso(asignaturas, porAsignatura);
    forall p | p in r
      ensures a !in Filter(asignaturas, Cursos.EnCurso(CursoDe, p.curso))
    {
      var i :| 0 <= i < 4 && r[i] == p;
      assert p.curso == i + 1;
      EnCursoDe(p.curso);
    }
  }

  function CursoDeFinal(f: Final): nat
  {
    f.asignatura.curso
  }

  /** `asignaturasPorCurso` of the subject selector. */
  method AsignaturasPorCurso(asignaturas: seq<Asignatura>) returns (g: map<nat, seq<Asignatura>>)
    ensures g == Cursos.Grupos(asignaturas, CursoDe)
  {
    g := Cursos.AgruparPorCurso(asignaturas, CursoDe);
  }

  /** `notasPorCurso`: the positive final grades grouped by their subject's course. */
  method NotasPorCurso(finales: seq<Final>) returns (g: map<nat, seq<Final>>)
    ensures g == Cursos.Grupos(finales, CursoDeFinal)
  {
    g := Cursos.AgruparPorCurso(finales, CursoDeFinal);
  }
}

/** The subjects page: the subjects grouped by course, and the "no
    subjects" state shown when there are no groups. */
module Asignaturas {
  import opened Seqs
  import opened Registros
  import Cursos

  /** `asignaturasPorCurso`: one group per course present, keyed by that
      course; every subject is in the group of its own course and only
      there, in fetched order, and no group is empty. There are no groups
      exactly when there are no subjects. */
  method AsignaturasPorCurso(asignaturas: seq<Asignatura>) returns (g: map<nat, seq<Asignatura>>)
    ensures g == Cursos.Grupos(asignaturas, CursoDe)
    ensures g.Keys == set a | a in asignaturas :: a.curso
    ensures forall a :: a in asignaturas ==> a.curso in g && a in g[a.curso]
    ensures forall k, a :: k in g && a in g[k] ==> a in asignaturas && a.curso == k
    ensures forall k :: k in g ==> g[k] != [] && g[k] == Filter(asignaturas, Cursos.EnCurso(CursoDe, k))
    ensures |g| == 0 <==> asignaturas == []
  {
    g := Cursos.AgruparPorCurso(asignaturas, CursoDe);
    Cursos.GruposParticion(asignaturas, CursoDe);
    Cursos.GruposVacio(asignaturas, CursoDe);
  }
}

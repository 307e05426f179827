/** The records the pages fetch (subjects, grades, schedule entries, tasks,
    events) and the `Map` from subject id to subject that the schedule and
    calendar views build before joining. Field names follow the stored
    documents; a field the document may lack is an `Option`. */
module Registros {
  import opened Wrappers

  /** A subject (`asignaturas` collection). `curso` is the academic year. */
  datatype Asignatura = Asignatura(id: string, nombre: string, color: Option<string>, curso: nat)

  /** The key the course grouping uses. */
  function CursoDe(a: Asignatura): nat
  {
    a.curso
  }

  /** A graded item (`notas_academicas`): a score and its weight in percent. */
  datatype Nota = Nota(id: string, tipo: string, nota: real, peso: real, createdAt: string, asignaturaId: string)

  /** The two class kinds the schedule form offers. */
  datatype TipoClase = Teorica | Laboratorio

  /** A weekly schedule entry (`horario`) as stored; `dias` may be missing. */
  datatype HorarioDoc = HorarioDoc(id: string, asignaturaId: string, tipo: TipoClase, hora: string, dias: Option<seq<string>>)

  /** A task (`tareas`). A missing or `null` due date is `None`. */
  datatype Tarea = Tarea(
    id: string,
    titulo: string,
    completada: bool,
    createdAt: string,
    fechaEntrega: Option<string>,
    asignaturaId: string,
    userId: string)

  /** A calendar event (`eventos`); `start` is a `YYYY-MM-DD` date string. */
  datatype Evento = Evento(id: string, title: string, start: string, color: string)

  /** `new Map(docs.map(d => [d.id, d]))`: later documents with the same id
      replace earlier ones. */
  function IndexById(s: seq<Asignatura>): (m: map<string, Asignatura>)
    ensures forall id :: id in m <==> exists a :: a in s && a.id == id
    ensures forall id :: id in m ==> m[id] in s && m[id].id == id
    decreases |s|
  {
    if s == [] then map[]
    else
      var last := s[|s| - 1];
      assert s == s[..|s| - 1] + [last];
      IndexById(s[..|s| - 1])[last.id := last]
  }

  /** When ids are unique, looking a subject's id up finds that subject. */
  lemma {:induction false} IndexByIdFinds(s: seq<Asignatura>, a: Asignatura)
    requires forall i, j :: 0 <= i < j < |s| ==> s[i].id != s[j].id
    requires a in s
    ensures a.id in IndexById(s) && IndexById(s)[a.id] == a
    decreases |s|
  {
    var s' := s[..|s| - 1];
    var last := s[|s| - 1];
    assert s == s' + [last];
    if a != last {
      assert a in s';
      IndexByIdFinds(s', a);
      var i :| 0 <= i < |s'| && s'[i] == a;
      assert s[i].id != s[|s| - 1].id;
    }
  }

  /** `map.get(id)?.nombre || fallback`: the subject's name, or the fallback
      when the subject is missing or its name is empty. */
  function NombreO(m: map<string, Asignatura>, id: string, fallback: string): (r: string)
    ensures id !in m ==> r == fallback
    ensures id in m && m[id].nombre != "" ==> r == m[id].nombre
    ensures id in m && m[id].nombre == "" ==> r == fallback
    ensures r == "" ==> fallback == ""
  {
    if id in m && m[id].nombre != "" then m[id].nombre else fallback
  }
}

/** The tasks page: each subject with its tasks, subjects without tasks left
    out, and the completion toggle of one task. */
module Tareas {
  import opened Seqs
  import opened Registros

  /** A subject with the tasks attached to it. */
  datatype ConTareas = ConTareas(asignatura: Asignatura, tareas: seq<Tarea>)

  /** The predicate "belongs to subject `id`". */
  function DeAsignatura(id: string): Tarea -> bool
  {
    (t: Tarea) => t.asignaturaId == id
  }

  function Adjuntar(tareas: seq<Tarea>): Asignatura -> ConTareas
  {
    (a: Asignatura) => ConTareas(a, Filter(tareas, DeAsignatura(a.id)))
  }

  function TieneTareas(c: ConTareas): bool
  {
    |c.tareas| > 0
  }

  /** `asignaturasConTareas`: every subject with at least one task, with
      exactly its tasks in their fetched order. */
  function AsignaturasConTareas(asignaturas: seq<Asignatura>, tareas: seq<Tarea>): (r: seq<ConTareas>)
    ensures |r| <= |asignaturas|
    ensures forall c :: c in r <==>
              c.asignatura in asignaturas && c.tareas == Filter(tareas, DeAsignatura(c.asignatura.id)) && c.tareas != []
    ensures forall c, t :: c in r ==> (t in c.tareas <==> t in tareas && t.asignaturaId == c.asignatura.id)
  {
    var todas := MapSeq(asignaturas, Adjuntar(tareas));
    assert forall c :: c in todas <==> c.asignatura in asignaturas && c.tareas == Filter(tareas, DeAsignatura(c.asignatura.id)) by {
      forall c: ConTareas | c.asignatura in asignaturas && c.tareas == Filter(tareas, DeAsignatura(c.asignatura.id))
        ensures c in todas
      {
        var i :| 0 <= i < |asignaturas| && asignaturas[i] == c.asignatura;
        assert todas[i] == c;
      }
    }
    Filter(todas, TieneTareas)
  }

  /** Subjects are listed in their fetched order. */
  lemma AsignaturasConTareasOrden(a: seq<Asignatura>, b: seq<Asignatura>, tareas: seq<Tarea>)
    ensures AsignaturasConTareas(a + b, tareas) == AsignaturasConTareas(a, tareas) + AsignaturasConTareas(b, tareas)
  {
    var f := Adjuntar(tareas);
    MapAppend(a, b, f);
    FilterAppend(MapSeq(a, f), MapSeq(b, f), TieneTareas);
  }

  /** A task is listed, whether done or not, under the subject it names when
      that subject was fetched; a task of an unknown subject is listed
      nowhere. */
  lemma AsignaturasConTareasUbica(asignaturas: seq<Asignatura>, tareas: seq<Tarea>, t: Tarea)
    requires t in tareas
    ensures forall a :: a in asignaturas && a.id == t.asignaturaId ==>
              exists c :: c in AsignaturasConTareas(asignaturas, tareas) && c.asignatura == a && t in c.tareas
    ensures (forall a :: a in asignaturas ==> a.id != t.asignaturaId) ==>
              forall c :: c in AsignaturasConTareas(asignaturas, tareas) ==> t !in c.tareas
  {
    forall a | a in asignaturas && a.id == t.asignaturaId
      ensures exists c :: c in AsignaturasConTareas(asignaturas, tareas) && c.asignatura == a && t in c.tareas
    {
      var c := ConTareas(a, Filter(tareas, DeAsignatura(a.id)));
      assert t in c.tareas;
    }
  }

  /** The page shows "no tasks yet" exactly when no task names a fetched subject. */
  lemma AsignaturasConTareasVacio(asignaturas: seq<Asignatura>, tareas: seq<Tarea>)
    ensures AsignaturasConTareas(asignaturas, tareas) == [] <==>
              forall t, a :: t in tareas && a in asignaturas ==> t.asignaturaId != a.id
  {
    var r := AsignaturasConTareas(asignaturas, tareas);
    if r != [] {
      assert r[0] in r;
      assert r[0].tareas[0] in r[0].tareas;
    }
    forall t, a | t in tareas && a in asignaturas && t.asignaturaId == a.id
      ensures r != []
    {
      AsignaturasConTareasUbica(asignaturas, tareas, t);
    }
  }

  /** The update `{ completada }` of the task `id`. */
  function Marcar(id: string, completada: bool): Tarea -> Tarea
  {
    (t: Tarea) => if t.id == id then t.(completada := completada) else t
  }

  /** `cambiarEstado`: the task list after the update: the task with that id
      has the new completion flag and every other field, and every other
      task, is unchanged. */
  function CambiarEstado(tareas: seq<Tarea>, id: string, completada: bool): (r: seq<Tarea>)
    ensures |r| == |tareas|
    ensures forall i :: 0 <= i < |tareas| && tareas[i].id == id ==>
              r[i].completada == completada && r[i] == tareas[i].(completada := completada)
    ensures forall i :: 0 <= i < |tareas| && tareas[i].id != id ==> r[i] == tareas[i]
  {
    MapSeq(tareas, Marcar(id, completada))
  }

  /** Toggling back restores the list: setting a task's flag to the value it
      had returns the original tasks, and a later update overrides an
      earlier one. */
  lemma CambiarEstadoDeshace(tareas: seq<Tarea>, id: string, antes: bool, despues: bool)
    requires forall t :: t in tareas && t.id == id ==> t.completada == antes
    ensures CambiarEstado(CambiarEstado(tareas, id, despues), id, antes) == tareas
  {
    var r := CambiarEstado(CambiarEstado(tareas, id, despues), id, antes);
    forall i | 0 <= i < |tareas| ensures r[i] == tareas[i] {
      assert tareas[i] in tareas;
    }
  }

  /** The update commutes with attaching tasks to a subject: a subject's
      tasks after the update are its tasks before, updated. */
  lemma {:induction false} CambiarEstadoPorAsignatura(tareas: seq<Tarea>, id: string, completada: bool, aid: string)
    ensures Filter(CambiarEstado(tareas, id, completada), DeAsignatura(aid))
         == CambiarEstado(Filter(tareas, DeAsignatura(aid)), id, completada)
    decreases |tareas|
  {
    if tareas != [] {
      var s' := tareas[..|tareas| - 1];
      var t := tareas[|tareas| - 1];
      var r := CambiarEstado(tareas, id, completada);
      assert r[..|r| - 1] == CambiarEstado(s', id, completada);
      CambiarEstadoPorAsignatura(s', id, completada, aid);
      var p := DeAsignatura(aid);
      if p(t) {
        assert CambiarEstado(Filter(s', p) + [t], id, completada)
            == CambiarEstado(Filter(s', p), id, completada) + [Marcar(id, completada)(t)];
      }
    }
  }

  /** Ticking or unticking a task never makes a subject appear or disappear
      from the page, nor changes how many tasks it shows. */
  lemma CambiarEstadoConserva(asignaturas: seq<Asignatura>, tareas: seq<Tarea>, id: string, completada: bool, a: Asignatura)
    requires a in asignaturas
    ensures |Filter(CambiarEstado(tareas, id, completada), DeAsignatura(a.id))| == |Filter(tareas, DeAsignatura(a.id))|
    ensures (exists c :: c in AsignaturasConTareas(asignaturas, tareas) && c.asignatura == a)
        <==> (exists c :: c in AsignaturasConTareas(asignaturas, CambiarEstado(tareas, id, completada)) && c.asignatura == a)
  {
    var nuevas := CambiarEstado(tareas, id, completada);
    CambiarEstadoPorAsignatura(tareas, id, completada, a.id);
    var antes := ConTareas(a, Filter(tareas, DeAsignatura(a.id)));
    var despues := ConTareas(a, Filter(nuevas, DeAsignatura(a.id)));
    if antes.tareas != [] {
      assert despues in AsignaturasConTareas(asignaturas, nuevas);
    }
    if despues.tareas != [] {
      assert antes in AsignaturasConTareas(asignaturas, tareas);
    }
  }
}

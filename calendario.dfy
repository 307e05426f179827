/** The day panel of the user's calendar: the weekday name of the selected
    date, the classes held on that weekday, the open tasks due that date
    and the events starting that date. The two server-side queries become
    filters over the fetched documents; the weekday index of the date is a
    parameter. */
module Calendario {
  import opened Wrappers
  import opened Seqs
  import opened Registros
  import Horarios

  /** The calendar's own `diasSemana`, Sunday first, as `getDay` counts. */
  const DiasDomingo: seq<string> := ["domingo", "lunes", "martes", "miércoles", "jueves", "viernes", "sábado"]

  /** `diasSemana[getDay()]`: the name of weekday `i` (0 is Sunday). It is
      always one of the Monday-first names the schedule form saves, the one
      `i + 6` places along that list. */
  function DiaNombre(i: nat): (r: string)
    requires i < 7
    ensures r in Horarios.DiasSemana
    ensures r == Horarios.DiasSemana[(i + 6) % 7]
  {
    DiasDomingo[i]
  }

  /** The Sunday-first names and the Monday-first names are the same seven
      strings, so every day a saved entry lists is the name of some weekday. */
  lemma MismosDias()
    ensures Elems(DiasDomingo) == Elems(Horarios.DiasSemana)
    ensures forall d :: d in Horarios.DiasSemana ==> exists i :: 0 <= i < 7 && DiaNombre(i) == d
  {
    assert forall j :: 0 <= j < 7 ==> DiaNombre((j + 1) % 7) == Horarios.DiasSemana[j];
  }

  /** A class as the panel shows it: the stored fields and the subject name. */
  datatype Clase = Clase(id: string, tipo: TipoClase, hora: string, dias: Option<seq<string>>, nombre: string)

  /** `where('dias', 'array-contains', diaNombre)`. */
  function ContieneDia(dia: string): HorarioDoc -> bool
  {
    (d: HorarioDoc) => d.dias.Some? && dia in d.dias.value
  }

  function AClase(asignaturas: map<string, Asignatura>): HorarioDoc -> Clase
  {
    (d: HorarioDoc) => Clase(d.id, d.tipo, d.hora, d.dias, NombreO(asignaturas, d.asignaturaId, ""))
  }

  /** The stored entries whose `dias` contain the day's name, in order. */
  function HorariosDelDia(docs: seq<HorarioDoc>, dia: string): (r: seq<HorarioDoc>)
    ensures forall d :: d in r <==> d in docs && d.dias.Some? && dia in d.dias.value
    ensures |r| <= |docs|
  {
    Filter(docs, ContieneDia(dia))
  }

  /** The selected entries keep the order of the fetched entries, and no
      entry is selected twice. */
  lemma HorariosDelDiaOrden(a: seq<HorarioDoc>, b: seq<HorarioDoc>, dia: string)
    ensures HorariosDelDia(a + b, dia) == HorariosDelDia(a, dia) + HorariosDelDia(b, dia)
    ensures NoDup(a) ==> NoDup(HorariosDelDia(a, dia))
  {
    FilterAppend(a, b, ContieneDia(dia));
    if NoDup(a) {
      FilterNoDup(a, ContieneDia(dia));
    }
  }

  /** `horariosData`: one class per entry held on the day, in order, named
      after its subject, or `''` when the subject is not found; never an
      error. */
  function ClasesDelDia(asignaturas: seq<Asignatura>, docs: seq<HorarioDoc>, dia: string): (r: seq<Clase>)
    ensures |r| == |HorariosDelDia(docs, dia)|
    ensures forall i :: 0 <= i < |r| ==>
              var d := HorariosDelDia(docs, dia)[i];
              r[i].id == d.id && r[i].tipo == d.tipo && r[i].hora == d.hora && r[i].dias == d.dias
              && ((forall a :: a in asignaturas ==> a.id != d.asignaturaId) ==> r[i].nombre == "")
              && (r[i].nombre != "" ==> exists a :: a in asignaturas && a.id == d.asignaturaId && a.nombre == r[i].nombre)
  {
    MapSeq(HorariosDelDia(docs, dia), AClase(IndexById(asignaturas)))
  }

  /** With distinct subject ids, a class whose subject was fetched is shown
      with that subject's name. */
  lemma ClasesDelDiaNombre(asignaturas: seq<Asignatura>, docs: seq<HorarioDoc>, dia: string, i: nat, a: Asignatura)
    requires forall j, k :: 0 <= j < k < |asignaturas| ==> asignaturas[j].id != asignaturas[k].id
    requires i < |HorariosDelDia(docs, dia)|
    requires a in asignaturas && a.id == HorariosDelDia(docs, dia)[i].asignaturaId
    ensures ClasesDelDia(asignaturas, docs, dia)[i].nombre == a.nombre
  {
    IndexByIdFinds(asignaturas, a);
  }

  /** Every listed class is held on the day, and every entry held on the day
      is listed. */
  lemma ClasesDelDiaExactas(asignaturas: seq<Asignatura>, docs: seq<HorarioDoc>, dia: string)
    ensures forall c :: c in ClasesDelDia(asignaturas, docs, dia) ==> c.dias.Some? && dia in c.dias.value
    ensures forall d :: d in docs && d.dias.Some? && dia in d.dias.value ==>
              exists c :: c in ClasesDelDia(asignaturas, docs, dia) && c.id == d.id && c.hora == d.hora
  {
    var sel := HorariosDelDia(docs, dia);
    var r := ClasesDelDia(asignaturas, docs, dia);
    forall c | c in r ensures c.dias.Some? && dia in c.dias.value {
      var i :| 0 <= i < |r| && r[i] == c;
      assert sel[i] in sel;
    }
    forall d | d in docs && d.dias.Some? && dia in d.dias.value
      ensures exists c :: c in r && c.id == d.id && c.hora == d.hora
    {
      var i :| 0 <= i < |sel| && sel[i] == d;
      assert r[i] in r;
    }
  }

  /** A task as the panel shows it: its id, title and subject name. */
  datatype TareaDia = TareaDia(id: string, titulo: string, nombre: string)

  /** `where('fecha_entrega', '==', dia)` and `where('completada', '==', false)`. */
  function PendienteEl(fecha: string): Tarea -> bool
  {
    (t: Tarea) => t.fechaEntrega == Some(fecha) && !t.completada
  }

  function ATareaDia(asignaturas: map<string, Asignatura>): Tarea -> TareaDia
  {
    (t: Tarea) => TareaDia(t.id, t.titulo, NombreO(asignaturas, t.asignaturaId, ""))
  }

  /** The open tasks due on `fecha`, in order. */
  function PendientesDelDia(tareas: seq<Tarea>, fecha: string): (r: seq<Tarea>)
    ensures forall t :: t in r <==> t in tareas && t.fechaEntrega == Some(fecha) && !t.completada
    ensures |r| <= |tareas|
  {
    Filter(tareas, PendienteEl(fecha))
  }

  /** The selected tasks keep the order of the fetched tasks, and no task is
      selected twice. */
  lemma PendientesDelDiaOrden(a: seq<Tarea>, b: seq<Tarea>, fecha: string)
    ensures PendientesDelDia(a + b, fecha) == PendientesDelDia(a, fecha) + PendientesDelDia(b, fecha)
    ensures NoDup(a) ==> NoDup(PendientesDelDia(a, fecha))
  {
    FilterAppend(a, b, PendienteEl(fecha));
    if NoDup(a) {
      FilterNoDup(a, PendienteEl(fecha));
    }
  }

  /** `tareasData`: the open tasks due on `fecha`, each with its subject's
      name, or `''` when the subject is not found. */
  function TareasDelDia(asignaturas: seq<Asignatura>, tareas: seq<Tarea>, fecha: string): (r: seq<TareaDia>)
    ensures |r| == |PendientesDelDia(tareas, fecha)|
    ensures forall i :: 0 <= i < |r| ==>
              var t := PendientesDelDia(tareas, fecha)[i];
              r[i].id == t.id && r[i].titulo == t.titulo
              && ((forall a :: a in asignaturas ==> a.id != t.asignaturaId) ==> r[i].nombre == "")
              && (r[i].nombre != "" ==> exists a :: a in asignaturas && a.id == t.asignaturaId && a.nombre == r[i].nombre)
  {
    MapSeq(PendientesDelDia(tareas, fecha), ATareaDia(IndexById(asignaturas)))
  }

  /** With distinct subject ids, a task whose subject was fetched is shown
      with that subject's name. */
  lemma TareasDelDiaNombre(asignaturas: seq<Asignatura>, tareas: seq<Tarea>, fecha: string, i: nat, a: Asignatura)
    requires forall j, k :: 0 <= j < k < |asignaturas| ==> asignaturas[j].id != asignaturas[k].id
    requires i < |PendientesDelDia(tareas, fecha)|
    requires a in asignaturas && a.id == PendientesDelDia(tareas, fecha)[i].asignaturaId
    ensures TareasDelDia(asignaturas, tareas, fecha)[i].nombre == a.nombre
  {
    IndexByIdFinds(asignaturas, a);
  }

  /** A completed task, or one without a due date, is never listed. */
  lemma TareasDelDiaExcluye(tareas: seq<Tarea>, fecha: string, t: Tarea)
    requires t.completada || t.fechaEntrega.None?
    ensures t !in PendientesDelDia(tareas, fecha)
  {
  }

  function EmpiezaEl(fecha: string): Evento -> bool
  {
    (e: Evento) => e.start == fecha
  }

  /** `eventosDelDia`: the events whose `start` is exactly `fecha`. */
  function EventosDelDia(eventos: seq<Evento>, fecha: string): (r: seq<Evento>)
    ensures forall e :: e in r <==> e in eventos && e.start == fecha
    ensures |r| <= |eventos|
  {
    Filter(eventos, EmpiezaEl(fecha))
  }

  /** The day's events keep the order of the fetched events. */
  lemma EventosDelDiaOrden(a: seq<Evento>, b: seq<Evento>, fecha: string)
    ensures EventosDelDia(a + b, fecha) == EventosDelDia(a, fecha) + EventosDelDia(b, fecha)
  {
    FilterAppend(a, b, EmpiezaEl(fecha));
  }

  /** An entry held on Mondays and Wednesdays is listed on a Wednesday
      (weekday 3), named after its subject, and not on a Tuesday (weekday 2). */
  lemma ClasesEjemplo()
    ensures var mates := Asignatura("m", "Matemáticas", None, 1);
      var h := HorarioDoc("h1", "m", Teorica, "09:00", Some(["lunes", "miércoles"]));
      ClasesDelDia([mates], [h], DiaNombre(3)) == [Clase("h1", Teorica, "09:00", Some(["lunes", "miércoles"]), "Matemáticas")]
      && ClasesDelDia([mates], [h], DiaNombre(2)) == []
  {
    var mates := Asignatura("m", "Matemáticas", None, 1);
    var h := HorarioDoc("h1", "m", Teorica, "09:00", Some(["lunes", "miércoles"]));
    assert [h][..0] == [];
    assert ContieneDia("miércoles")(h);
    assert !ContieneDia("martes")(h);
    assert HorariosDelDia([h], "miércoles") == [h];
    assert HorariosDelDia([h], "martes") == [];
    var m := IndexById([mates]);
    assert [mates][..0] == [];
    assert m == map["m" := mates];
    assert NombreO(m, "m", "") == "Matemáticas";
  }

  /** An open task due on the selected date is listed; the same task
      completed is not, nor one due the next day; a task of an unknown
      subject gets the name `''`. */
  lemma TareasEjemplo()
    ensures var a := Tarea("t1", "Entrega", false, "", Some("2024-03-05"), "x", "u");
      var b := a.(completada := true);
      var c := a.(fechaEntrega := Some("2024-03-06"));
      TareasDelDia([], [a], "2024-03-05") == [TareaDia("t1", "Entrega", "")]
      && TareasDelDia([], [b], "2024-03-05") == []
      && TareasDelDia([], [c], "2024-03-05") == []
      && TareasDelDia([], [c.(completada := true)], "2024-03-05") == []
  {
    var a := Tarea("t1", "Entrega", false, "", Some("2024-03-05"), "x", "u");
    assert [a][..0] == [];
    assert PendientesDelDia([a], "2024-03-05") == [a];
    var b := a.(completada := true);
    assert [b][..0] == [];
    var c := a.(fechaEntrega := Some("2024-03-06"));
    assert [c][..0] == [];
    var d := c.(completada := true);
    assert [d][..0] == [];
  }
}

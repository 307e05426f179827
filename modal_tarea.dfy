/** The task form: its three fields, their initial values and the reset from
    the task being edited, the save request (rejected, no session, create or
    edit with its payload), the stored task it produces, the reset after a
    successful save and the course grouping of its subject selector. The
    write and its success are the caller's: `HandleGuardar` takes whether
    the write went through. */
module ModalTarea {
  import opened Wrappers
  import opened Registros
  import Texto
  import Cursos

  /** The `tarea` prop: the task being edited, its missing due date given as `''`. */
  datatype TareaProp = TareaProp(id: string, titulo: string, fechaEntrega: string, asignaturaId: string)

  /** What the form sends; `fechaEntrega` is `null` when no date was picked. */
  datatype Payload = Payload(titulo: string, fechaEntrega: Option<string>, asignaturaId: string, userId: string)

  /** The outcome of `handleGuardar`. */
  datatype Solicitud = Rechazada | SinSesion | Crear(payload: Payload) | Editar(id: string, payload: Payload)

  /** `handleGuardar`: a title that is not blank and a subject are required,
      then a user; the title is sent trimmed, an empty date as `null`; the
      write edits the task being edited, or creates one when there is none. */
  function SolicitudTarea(asignaturaId: string, titulo: string, fecha: string,
                          userId: string, tarea: Option<TareaProp>): (r: Solicitud)
    ensures r == Rechazada <==> Texto.TodoEspacios(titulo) || asignaturaId == ""
    ensures r == SinSesion <==> !Texto.TodoEspacios(titulo) && asignaturaId != "" && userId == ""
    ensures r.Crear? || r.Editar? ==>
              r.payload.titulo == Texto.Trim(titulo) && r.payload.titulo != []
              && r.payload.asignaturaId == asignaturaId && r.payload.userId == userId
              && (fecha == "" ==> r.payload.fechaEntrega == None)
              && (fecha != "" ==> r.payload.fechaEntrega == Some(fecha))
    ensures r.Editar? <==> r != Rechazada && r != SinSesion && tarea.Some?
    ensures r.Editar? ==> r.id == tarea.value.id
  {
    if Texto.Trim(titulo) == "" || asignaturaId == "" then Rechazada
    else if userId == "" then SinSesion
    else
      var payload := Payload(Texto.Trim(titulo), if fecha == "" then None else Some(fecha), asignaturaId, userId);
      if tarea.Some? then Editar(tarea.value.id, payload) else Crear(payload)
  }

  /** The stored task `addDoc` creates: the payload, not completed. The
      document id and the server timestamp are given. */
  function TareaCreada(id: string, createdAt: string, p: Payload): (t: Tarea)
    ensures !t.completada
    ensures t.titulo == p.titulo && t.fechaEntrega == p.fechaEntrega
    ensures t.asignaturaId == p.asignaturaId && t.userId == p.userId
    ensures t.id == id && t.createdAt == createdAt
  {
    Tarea(id, p.titulo, false, createdAt, p.fechaEntrega, p.asignaturaId, p.userId)
  }

  /** The stored task after `updateDoc`: the payload's four fields replace the
      old ones; the payload has no `completada`, so the flag is kept. */
  function TareaEditada(t: Tarea, p: Payload): (r: Tarea)
    ensures r.completada == t.completada && r.id == t.id && r.createdAt == t.createdAt
    ensures r.titulo == p.titulo && r.fechaEntrega == p.fechaEntrega
    ensures r.asignaturaId == p.asignaturaId && r.userId == p.userId
  {
    t.(titulo := p.titulo, fechaEntrega := p.fechaEntrega, asignaturaId := p.asignaturaId, userId := p.userId)
  }

  /** The prop the tasks page builds for a task (`fecha_entrega ?? ''`). */
  function PropDe(t: Tarea): (p: TareaProp)
    ensures p.id == t.id && p.titulo == t.titulo && p.asignaturaId == t.asignaturaId
    ensures p.fechaEntrega == t.fechaEntrega.GetOr("")
  {
    TareaProp(t.id, t.titulo, t.fechaEntrega.GetOr(""), t.asignaturaId)
  }

  /** Opening a task of this user for edit and saving it unchanged leaves the
      stored task as it was, as long as its title has no surrounding white
      space and its date is not the empty string. */
  lemma EditarSinCambios(t: Tarea)
    requires t.userId != "" && t.asignaturaId != ""
    requires t.titulo != [] && !Texto.EsEspacio(t.titulo[0]) && !Texto.EsEspacio(t.titulo[|t.titulo| - 1])
    requires t.fechaEntrega != Some("")
    ensures var p := PropDe(t);
      var s := SolicitudTarea(p.asignaturaId, p.titulo, p.fechaEntrega, t.userId, Some(p));
      s.Editar? && s.id == t.id && TareaEditada(t, s.payload) == t
  {
    Texto.TrimOfTrimmed(t.titulo);
  }

  /** The form's state. */
  class Formulario {
    var asignaturas: seq<Asignatura>
    var asignaturaId: string
    var titulo: string
    var fecha: string

    /** The initial state: the prop's fields when there is one, otherwise `''`. */
    constructor (tarea: Option<TareaProp>)
      ensures asignaturas == []
      ensures tarea.Some? ==> asignaturaId == tarea.value.asignaturaId && titulo == tarea.value.titulo
                              && fecha == tarea.value.fechaEntrega
      ensures tarea.None? ==> asignaturaId == "" && titulo == "" && fecha == ""
    {
      asignaturas := [];
      asignaturaId := if tarea.Some? then tarea.value.asignaturaId else "";
      titulo := if tarea.Some? then tarea.value.titulo else "";
      fecha := if tarea.Some? then tarea.value.fechaEntrega else "";
    }

    /** `setAsignaturas(data)` once the subjects are fetched. */
    method CargarAsignaturas(data: seq<Asignatura>)
      modifies this
      ensures asignaturas == data
      ensures asignaturaId == old(asignaturaId) && titulo == old(titulo) && fecha == old(fecha)
    {
      asignaturas := data;
    }

    /** The reset effect when the prop changes: the same values as a fresh form. */
    method Restablecer(tarea: Option<TareaProp>)
      modifies this
      ensures tarea.Some? ==> asignaturaId == tarea.value.asignaturaId && titulo == tarea.value.titulo
                              && fecha == tarea.value.fechaEntrega
      ensures tarea.None? ==> asignaturaId == "" && titulo == "" && fecha == ""
      ensures asignaturas == old(asignaturas)
    {
      if tarea.Some? {
        asignaturaId := tarea.value.asignaturaId;
        titulo := tarea.value.titulo;
        fecha := tarea.value.fechaEntrega;
      } else {
        asignaturaId := "";
        titulo := "";
        fecha := "";
      }
    }

    /** The save button. The request is the one for the current fields; when
      it is a write and the write succeeds the three fields are cleared, so
      pressing the button again is rejected; otherwise they are kept. */
    method HandleGuardar(userId: string, tarea: Option<TareaProp>, escrituraOk: bool) returns (r: Solicitud)
      modifies this
      ensures r == SolicitudTarea(old(asignaturaId), old(titulo), old(fecha), userId, tarea)
      ensures (r.Crear? || r.Editar?) && escrituraOk ==> asignaturaId == "" && titulo == "" && fecha == ""
      ensures (r.Crear? || r.Editar?) && escrituraOk ==>
                SolicitudTarea(asignaturaId, titulo, fecha, userId, tarea) == Rechazada
      ensures !((r.Crear? || r.Editar?) && escrituraOk) ==>
                asignaturaId == old(asignaturaId) && titulo == old(titulo) && fecha == old(fecha)
      ensures asignaturas == old(asignaturas)
    {
      r := SolicitudTarea(asignaturaId, titulo, fecha, userId, tarea);
      if (r.Crear? || r.Editar?) && escrituraOk {
        asignaturaId := "";
        titulo := "";
        fecha := "";
      }
    }

    /** `asignaturasPorCurso` of the subject selector. */
    method AsignaturasPorCurso() returns (g: map<nat, seq<Asignatura>>)
      ensures g == Cursos.Grupos(asignaturas, CursoDe)
    {
      g := Cursos.AgruparPorCurso(asignaturas, CursoDe);
    }
  }
}

/** The schedule entry form: its four fields, the reset from the entry being
    edited, the day toggle, the save request (rejected, no session, create
    or update with its payload) and the course grouping of its subject
    selector. The write itself is the caller's: `Guardar` returns what it
    would send. */
module ModalHorario {
  import opened Wrappers
  import opened Seqs
  import opened Registros
  import Horarios
  import Cursos

  /** The predicate "is not `dia`". */
  function Distinto(dia: string): string -> bool
  {
    (d: string) => d != dia
  }

  /** `toggleDia` on the list value: a present day is removed (every copy of
      it), an absent day is appended at the end. */
  function Toggle(dias: seq<string>, dia: string): (r: seq<string>)
    ensures dia in dias ==> dia !in r && forall d :: d != dia ==> (d in r <==> d in dias)
    ensures dia in dias ==> |r| < |dias|
    ensures dia !in dias ==> r == dias + [dia]
  {
    if dia in dias then
      FilterKeepsAll(dias, Distinto(dia));
      Filter(dias, Distinto(dia))
    else dias + [dia]
  }

  /** Toggling an absent day twice gives back exactly the original list. */
  lemma ToggleAusente(dias: seq<string>, dia: string)
    requires dia !in dias
    ensures Toggle(Toggle(dias, dia), dia) == dias
  {
    var p := Distinto(dia);
    FilterAppend(dias, [dia], p);
    FilterKeepsAll(dias, p);
    assert [dia][..0] == [];
  }

  /** Toggling a present day twice gives back the same days: the day moves
      to the end of the list. */
  lemma TogglePresente(dias: seq<string>, dia: string)
    requires dia in dias
    ensures Elems(Toggle(Toggle(dias, dia), dia)) == Elems(dias)
    ensures Toggle(Toggle(dias, dia), dia) == Filter(dias, Distinto(dia)) + [dia]
  {
  }

  /** `toggleDia` keeps the list free of repeated days. */
  lemma ToggleSinRepetidos(dias: seq<string>, dia: string)
    requires NoDup(dias)
    ensures NoDup(Toggle(dias, dia))
  {
    if dia in dias {
      FilterNoDup(dias, Distinto(dia));
    } else {
      var r := dias + [dia];
      assert forall i :: 0 <= i < |dias| ==> r[i] == dias[i];
    }
  }

  /** The list after pressing the day buttons `pulsados` in turn. */
  function Pulsar(dias: seq<string>, pulsados: seq<string>): seq<string>
    decreases |pulsados|
  {
    if pulsados == [] then dias
    else Toggle(Pulsar(dias, pulsados[..|pulsados| - 1]), pulsados[|pulsados| - 1])
  }

  /** Starting from a list of distinct week days and pressing only the
      buttons drawn from the week, the list stays a list of distinct week
      days; in particular starting from the empty list of a new entry. */
  lemma {:induction false} PulsarSemana(dias: seq<string>, pulsados: seq<string>)
    requires NoDup(dias) && forall d :: d in dias ==> d in Horarios.DiasSemana
    requires forall d :: d in pulsados ==> d in Horarios.DiasSemana
    ensures NoDup(Pulsar(dias, pulsados))
    ensures forall d :: d in Pulsar(dias, pulsados) ==> d in Horarios.DiasSemana
    decreases |pulsados|
  {
    if pulsados != [] {
      var ps := pulsados[..|pulsados| - 1];
      var d := pulsados[|pulsados| - 1];
      assert forall x :: x in ps ==> x in pulsados;
      assert d in pulsados;
      PulsarSemana(dias, ps);
      ToggleSinRepetidos(Pulsar(dias, ps), d);
    }
  }

  /** What `guardar` sends. */
  datatype Payload = Payload(userId: string, asignaturaId: string, tipo: TipoClase, hora: string, dias: seq<string>)

  /** The outcome of `guardar`: rejected with "fill in every field", stopped
      because there is no user, or a write. */
  datatype Solicitud = Rechazada | SinSesion | Crear(payload: Payload) | Actualizar(id: string, payload: Payload)

  /** `guardar`: a subject, an hour and at least one day are required, then
      a user; the write is an update of the edited entry when it has an id
      and a creation otherwise, and sends exactly the five form values. */
  function SolicitudHorario(asignaturaId: string, tipo: TipoClase, hora: string, dias: seq<string>,
                            userId: string, horario: Option<HorarioDoc>): (r: Solicitud)
    ensures r == Rechazada <==> asignaturaId == "" || hora == "" || dias == []
    ensures r == SinSesion <==> asignaturaId != "" && hora != "" && dias != [] && userId == ""
    ensures r.Crear? || r.Actualizar? ==> r.payload == Payload(userId, asignaturaId, tipo, hora, dias)
    ensures r.Actualizar? <==> r != Rechazada && r != SinSesion && horario.Some? && horario.value.id != ""
    ensures r.Actualizar? ==> r.id == horario.value.id
  {
    if asignaturaId == "" || hora == "" || dias == [] then Rechazada
    else if userId == "" then SinSesion
    else
      var payload := Payload(userId, asignaturaId, tipo, hora, dias);
      if horario.Some? && horario.value.id != "" then Actualizar(horario.value.id, payload) else Crear(payload)
  }

  /** Opening a stored entry and saving it unchanged writes back the same
      fields to the same entry. */
  lemma GuardarSinCambios(h: HorarioDoc, userId: string)
    requires h.id != "" && h.asignaturaId != "" && h.hora != "" && userId != ""
    requires h.dias.Some? && h.dias.value != []
    ensures SolicitudHorario(h.asignaturaId, h.tipo, h.hora, h.dias.GetOr([]), userId, Some(h))
         == Actualizar(h.id, Payload(userId, h.asignaturaId, h.tipo, h.hora, h.dias.value))
  {
  }

  /** The form's state. */
  class Formulario {
    var asignaturas: seq<Asignatura>
    var asignaturaId: string
    var tipo: TipoClase
    var hora: string
    var dias: seq<string>

    /** The initial state: no subjects loaded, fields `''`, theory, `''`, `[]`. */
    constructor ()
      ensures asignaturas == [] && asignaturaId == "" && tipo == Teorica && hora == "" && dias == []
    {
      asignaturas := [];
      asignaturaId := "";
      tipo := Teorica;
      hora := "";
      dias := [];
    }

    /** `setAsignaturas(data)` once the subjects are fetched. */
    method CargarAsignaturas(data: seq<Asignatura>)
      modifies this
      ensures asignaturas == data
      ensures asignaturaId == old(asignaturaId) && tipo == old(tipo) && hora == old(hora) && dias == old(dias)
    {
      asignaturas := data;
    }

    /** The reset effect: the edited entry's fields (a missing `dias` as
      `[]`), or the initial values when there is no entry. */
    method Restablecer(horario: Option<HorarioDoc>)
      modifies this
      ensures horario.Some? ==>
                asignaturaId == horario.value.asignaturaId && tipo == horario.value.tipo
                && hora == horario.value.hora && dias == horario.value.dias.GetOr([])
      ensures horario.None? ==> asignaturaId == "" && tipo == Teorica && hora == "" && dias == []
      ensures asignaturas == old(asignaturas)
    {
      if horario.Some? {
        asignaturaId := horario.value.asignaturaId;
        tipo := horario.value.tipo;
        hora := horario.value.hora;
        dias := horario.value.dias.GetOr([]);
      } else {
        asignaturaId := "";
        tipo := Teorica;
        hora := "";
        dias := [];
      }
    }

    /** A day button: toggles that day and nothing else; a list without
      repeated days stays so. */
    method ToggleDia(dia: string)
      modifies this
      ensures dias == Toggle(old(dias), dia)
      ensures NoDup(old(dias)) ==> NoDup(dias)
      ensures asignaturas == old(asignaturas) && asignaturaId == old(asignaturaId)
      ensures tipo == old(tipo) && hora == old(hora)
    {
      if NoDup(dias) {
        ToggleSinRepetidos(dias, dia);
      }
      dias := Toggle(dias, dia);
    }

    /** The save button: the request for the current fields. The form's
      fields are left as they are. */
    method Guardar(userId: string, horario: Option<HorarioDoc>) returns (r: Solicitud)
      ensures r == SolicitudHorario(asignaturaId, tipo, hora, dias, userId, horario)
    {
      r := SolicitudHorario(asignaturaId, tipo, hora, dias, userId, horario);
    }

    /** `asignaturasPorCurso` of the subject selector. */
    method AsignaturasPorCurso() returns (g: map<nat, seq<Asignatura>>)
      ensures g == Cursos.Grupos(asignaturas, CursoDe)
    {
      g := Cursos.AgruparPorCurso(asignaturas, CursoDe);
    }
  }
}

/** The schedule page: entries joined with their subject, distributed into
    the seven Monday-first day lists, the name shown for an entry and the
    day tab selected when the page opens. */
module Horarios {
  import opened Wrappers
  import opened Seqs
  import opened Registros

  /** `diasSemana`, Monday first. */
  const DiasSemana: seq<string> := ["lunes", "martes", "miércoles", "jueves", "viernes", "sábado", "domingo"]

  /** The seven names are pairwise different. */
  lemma DiasSemanaDistintos()
    ensures |DiasSemana| == 7 && NoDup(DiasSemana) && |Elems(DiasSemana)| == 7
  {
    NoDupCard(DiasSemana);
  }

  /** An entry as the page holds it: the stored fields plus the joined
      subject, absent when no fetched subject has that id. */
  datatype Horario = Horario(
    id: string,
    asignaturaId: string,
    tipo: TipoClase,
    hora: string,
    dias: Option<seq<string>>,
    asignatura: Option<Asignatura>)

  /** The join of one stored entry with the subject map. */
  function Unir(asignaturas: map<string, Asignatura>): HorarioDoc -> Horario
  {
    (d: HorarioDoc) =>
      Horario(d.id, d.asignaturaId, d.tipo, d.hora, d.dias,
              if d.asignaturaId in asignaturas then Some(asignaturas[d.asignaturaId]) else None)
  }

  /** `horariosData`: every stored entry, in order, with its stored fields
      unchanged and the subject whose id it names attached when there is one. */
  function UnirHorarios(asignaturas: seq<Asignatura>, docs: seq<HorarioDoc>): (r: seq<Horario>)
    ensures |r| == |docs|
    ensures forall i :: 0 <= i < |docs| ==>
              r[i].id == docs[i].id && r[i].asignaturaId == docs[i].asignaturaId && r[i].tipo == docs[i].tipo
              && r[i].hora == docs[i].hora && r[i].dias == docs[i].dias
    ensures forall i :: 0 <= i < |docs| ==>
              (r[i].asignatura.Some? <==> exists a :: a in asignaturas && a.id == docs[i].asignaturaId)
    ensures forall i :: 0 <= i < |docs| && r[i].asignatura.Some? ==>
              r[i].asignatura.value in asignaturas && r[i].asignatura.value.id == docs[i].asignaturaId
  {
    MapSeq(docs, Unir(IndexById(asignaturas)))
  }

  /** With unique subject ids the attached subject is the one with that id. */
  lemma UnirEncuentra(asignaturas: seq<Asignatura>, docs: seq<HorarioDoc>, i: nat, a: Asignatura)
    requires forall j, k :: 0 <= j < k < |asignaturas| ==> asignaturas[j].id != asignaturas[k].id
    requires i < |docs| && a in asignaturas && a.id == docs[i].asignaturaId
    ensures UnirHorarios(asignaturas, docs)[i].asignatura == Some(a)
  {
    IndexByIdFinds(asignaturas, a);
  }

  /** `h.asignatura?.nombre || 'Asignatura'`: never empty. */
  function NombreMostrado(h: Horario): (r: string)
    ensures r != []
    ensures h.asignatura.Some? && h.asignatura.value.nombre != [] ==> r == h.asignatura.value.nombre
    ensures h.asignatura.None? || h.asignatura.value.nombre == [] ==> r == "Asignatura"
  {
    if h.asignatura.Some? && h.asignatura.value.nombre != "" then h.asignatura.value.nombre else "Asignatura"
  }

  /** `h.dias?.includes(dia)`. */
  function EnDia(dia: string): Horario -> bool
  {
    (h: Horario) => h.dias.Some? && dia in h.dias.value
  }

  /** What `horariosPorDia` holds: for each of the seven days, the entries
      that list it, in their order. */
  function PorDia(horarios: seq<Horario>): map<string, seq<Horario>>
  {
    map dia | dia in DiasSemana :: Filter(horarios, EnDia(dia))
  }

  /** `horariosPorDia`: the `reduce` over `diasSemana` that assigns each
      day's list. */
  method HorariosPorDia(horarios: seq<Horario>) returns (porDia: map<string, seq<Horario>>)
    ensures porDia == PorDia(horarios)
  {
    porDia := map[];
    var i := 0;
    while i < |DiasSemana|
      invariant 0 <= i <= |DiasSemana|
      invariant porDia.Keys == Elems(DiasSemana[..i])
      invariant forall dia :: dia in porDia ==> porDia[dia] == Filter(horarios, EnDia(dia))
    {
      var dia := DiasSemana[i];
      assert DiasSemana[..i + 1] == DiasSemana[..i] + [dia];
      porDia := porDia[dia := Filter(horarios, EnDia(dia))];
      i := i + 1;
    }
    assert DiasSemana[..|DiasSemana|] == DiasSemana;
  }

  /** The keys are exactly the seven days, and an entry is in a day's list
      exactly when its `dias` names that day; an entry without `dias` is in
      no list. */
  lemma PorDiaMiembros(horarios: seq<Horario>)
    ensures PorDia(horarios).Keys == Elems(DiasSemana) && |PorDia(horarios)| == 7
    ensures forall dia, h :: dia in PorDia(horarios) ==>
              (h in PorDia(horarios)[dia] <==> h in horarios && h.dias.Some? && dia in h.dias.value)
    ensures forall h: Horario, dia :: h.dias.None? && dia in PorDia(horarios) ==> h !in PorDia(horarios)[dia]
  {
    DiasSemanaDistintos();
    assert PorDia(horarios).Keys == Elems(DiasSemana);
  }

  /** Each day's list keeps the entries' order. */
  lemma PorDiaOrden(a: seq<Horario>, b: seq<Horario>, dia: string)
    requires dia in DiasSemana
    ensures PorDia(a + b)[dia] == PorDia(a)[dia] + PorDia(b)[dia]
  {
    FilterAppend(a, b, EnDia(dia));
  }

  /** The days whose list holds an entry are the valid names in its `dias`;
      with `k` distinct valid names it appears in exactly `k` lists. */
  lemma PorDiaCuantos(horarios: seq<Horario>, h: Horario, ds: seq<string>)
    requires h in horarios && h.dias == Some(ds)
    ensures (set dia | dia in PorDia(horarios) && h in PorDia(horarios)[dia]) == Elems(ds) * Elems(DiasSemana)
    ensures NoDup(ds) && (forall d :: d in ds ==> d in DiasSemana) ==>
              |set dia | dia in PorDia(horarios) && h in PorDia(horarios)[dia]| == |ds|
  {
    var dentro := set dia | dia in PorDia(horarios) && h in PorDia(horarios)[dia];
    assert dentro == Elems(ds) * Elems(DiasSemana);
    if NoDup(ds) && (forall d :: d in ds ==> d in DiasSemana) {
      assert Elems(ds) * Elems(DiasSemana) == Elems(ds);
      NoDupCard(ds);
    }
  }

  /** The initial `diaSeleccionado`: today's name when it is one of the
      seven, otherwise `'todos'`; either way one of the page's eight tabs. */
  function DiaInicial(hoy: string): (r: string)
    ensures hoy in DiasSemana ==> r == hoy
    ensures hoy !in DiasSemana ==> r == "todos"
    ensures r in ["todos"] + DiasSemana
  {
    if hoy in DiasSemana then hoy else "todos"
  }
}

// constants.ts: the fixed catalog of ten pillars, the default user record and the
// loop that builds the initial assessment store.
module Catalog {
  import opened Types
  import opened Seqs

  /** The ten pillars, in catalog order. */
  const Pillars: seq<PillarDefinition> := [
    PillarDefinition("health_phys", "Salud física y energía",
      "Vitalidad, sueño, alimentación y movimiento.",
      ["Caminar al sol", "Horario sueño fijo", "Comida real"]),
    PillarDefinition("health_ment", "Salud mental y emocional",
      "Gestión de emociones, paz mental y claridad.",
      ["Journaling", "Meditación", "Terapia"]),
    PillarDefinition("relationships", "Relaciones y red de apoyo",
      "Calidad de vínculos con familia y amigos.",
      ["Cena sin pantallas", "Llamar amigos", "Actividad social"]),
    PillarDefinition("purpose", "Propósito y sentido",
      "Conexión espiritual y razón de ser.",
      ["Lectura espiritual", "Visualización", "Gratitud"]),
    PillarDefinition("work", "Trabajo y contribución",
      "Impacto profesional y cumplimiento de metas.",
      ["Definir objetivos", "Trabajo concentrado", "Mentoría"]),
    PillarDefinition("economy", "Economía personal",
      "Salud financiera, ahorro e inversión.",
      ["Revisar gastos", "Automatizar ahorro", "Fondo emergencia"]),
    PillarDefinition("growth", "Crecimiento y aprendizaje",
      "Desarrollo intelectual y nuevas habilidades.",
      ["Leer libro", "Curso online", "Aprender idioma"]),
    PillarDefinition("environment", "Entorno y estilo de vida",
      "El espacio físico y atmósfera que te rodea.",
      ["Decluttering", "Ordenar escritorio", "Naturaleza"]),
    PillarDefinition("values", "Valores y carácter",
      "Integridad y coherencia con quien eres.",
      ["Revisar valores", "Honestidad radical", "Cumplir promesas"]),
    PillarDefinition("play", "Juego y descanso",
      "Ocio, hobbies y desconexión.",
      ["Hobby creativo", "Digital Detox", "Jugar activamente"])
  ]

  /** INITIAL_PILLAR_DATA: current 5, target 8, importance 3, nothing selected. */
  const InitialPillarData := UserPillarData(5, 8, 3, [])

  /** The ids of a catalog, in catalog order. */
  function DefIds(defs: seq<PillarDefinition>): (r: seq<string>)
    ensures |r| == |defs|
    ensures forall i :: 0 <= i < |defs| ==> r[i] == defs[i].id
  {
    seq(|defs|, i requires 0 <= i < |defs| => defs[i].id)
  }

  /** The set of catalog ids: the keys every store must have. */
  function CatalogIds(): set<string> {
    set i | 0 <= i < |Pillars| :: Pillars[i].id
  }

  /** What getInitialData returns, as a value: one default record per catalog id. */
  function InitialStore(): Assessment {
    map id | id in CatalogIds() :: InitialPillarData
  }

  /** The catalog has ten entries, pairwise distinct ids, and three practices per pillar. */
  lemma CatalogShape()
    ensures |Pillars| == 10
    ensures Distinct(DefIds(Pillars))
    ensures forall i :: 0 <= i < |Pillars| ==> |Pillars[i].practices| == 3
  {
  }

  /** getInitialData: start from an empty record and add a fresh default for each catalog id. */
  method GetInitialData() returns (data: Assessment)
    ensures data.Keys == CatalogIds()
    ensures forall id :: id in data ==> data[id] == InitialPillarData
    ensures data == InitialStore()
  {
    data := map[];
    for i := 0 to |Pillars|
      invariant data.Keys == set j | 0 <= j < i :: Pillars[j].id
      invariant forall id :: id in data ==> data[id] == InitialPillarData
    {
      data := data[Pillars[i].id := InitialPillarData];
    }
  }
}

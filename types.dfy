// The data shapes of types.ts: the static pillar definition, the user's record per
// pillar, the derived processed pillar and the closed set of priority levels.
module Types {

  /** PriorityLevel: 'Alta Prioridad', 'Prioridad Media', 'Mantenimiento'. */
  datatype Level = High | Medium | Maintenance

  /** One entry of the static catalog. */
  datatype PillarDefinition = PillarDefinition(
    id: string,
    name: string,
    description: string,
    practices: seq<string>)

  /** What the user enters for one pillar: current score, target score, importance, chosen practices. */
  datatype UserPillarData = UserPillarData(
    score2025: int,
    score2026: int,
    importance: int,
    selectedPractices: seq<string>)

  /** The assessment store: pillar id to the user's record. */
  type Assessment = map<string, UserPillarData>

  /** The three numeric fields a range input can overwrite. */
  datatype Field = Score2025 | Score2026 | Importance

  /** A pillar definition spread together with its user record, plus the derived gap, score and level. */
  datatype ProcessedPillar = ProcessedPillar(
    id: string,
    name: string,
    description: string,
    practices: seq<string>,
    score2025: int,
    score2026: int,
    importance: int,
    selectedPractices: seq<string>,
    gap: int,
    priorityScore: int,
    level: Level)
}

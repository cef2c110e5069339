/** Static configuration of the suggestion engine: the fallback monthly usage
    rate and the preventive-maintenance schedule of every vehicle category.
    Both are process-wide constants, fixed at start-up and never mutated.
 */
module Config {

  /** One schedule entry: an odometer target (km) and the checklist of
      service tasks due when the vehicle reaches it. */
  datatype Milestone = Milestone(kmMark: int, items: seq<string>)

  type Schedule = seq<Milestone>

  /** Monthly usage rate (km per month) assumed when a vehicle has none.
      The deployment may override it through the environment; this model
      fixes the code's fallback of 1000. */
  const AVERAGE_MONTHLY_KM: int := 1000

  const CAR_SCHEDULE: Schedule := [
    Milestone(5000, ["Troca de óleo e filtro", "Verificação de fluídos"]),
    Milestone(10000, ["Alinhamento e balanceamento", "Inspeção de freios"]),
    Milestone(20000, ["Troca de filtros de ar e cabine", "Revisão do sistema de arrefecimento"]),
    Milestone(40000, ["Inspeção da correia dentada", "Troca de velas"])
  ]

  const MOTORCYCLE_SCHEDULE: Schedule := [
    Milestone(3000, ["Troca de óleo", "Ajuste de corrente"]),
    Milestone(6000, ["Verificação de freios", "Lubrificação de cabos"]),
    Milestone(12000, ["Revisão de suspensão", "Troca de filtro de ar"])
  ]

  const TRUCK_SCHEDULE: Schedule := [
    Milestone(10000, ["Troca de óleo de motor e filtros", "Verificação de sistema pneumático"]),
    Milestone(20000, ["Inspeção de suspensão e direção", "Revisão de freios"]),
    Milestone(40000, ["Troca de fluído de transmissão", "Verificação de diferencial"])
  ]

  const OTHER_SCHEDULE: Schedule := [
    Milestone(5000, ["Checagem geral de fluídos", "Aperto de componentes"]),
    Milestone(15000, ["Revisão estrutural", "Verificação elétrica"])
  ]

  /** The category-keyed schedule table. */
  const PREVENTIVE_PROFILES: map<string, Schedule> := map[
    "car" := CAR_SCHEDULE,
    "motorcycle" := MOTORCYCLE_SCHEDULE,
    "truck" := TRUCK_SCHEDULE,
    "other" := OTHER_SCHEDULE
  ]

  /** The key every unknown category falls back to. */
  const FALLBACK_PROFILE: string := "other"

  predicate StrictlyAscending(s: Schedule) {
    forall i, j :: 0 <= i < j < |s| ==> s[i].kmMark < s[j].kmMark
  }

  predicate WellFormedMilestone(m: Milestone) {
    m.kmMark > 0 && |m.items| > 0
  }

  /** A schedule the engine can work with: non-empty, marks strictly
      ascending, every mark positive and every checklist non-empty. */
  predicate WellFormedSchedule(s: Schedule) {
    && |s| > 0
    && StrictlyAscending(s)
    && forall i :: 0 <= i < |s| ==> WellFormedMilestone(s[i])
  }

  /** The four category keys, and nothing else, have a schedule; each of
      them is well formed. */
  lemma ProfilesWellFormed()
    ensures PREVENTIVE_PROFILES.Keys == {"car", "motorcycle", "truck", "other"}
    ensures forall k :: k in PREVENTIVE_PROFILES ==> WellFormedSchedule(PREVENTIVE_PROFILES[k])
  {
    assert WellFormedSchedule(CAR_SCHEDULE);
    assert WellFormedSchedule(MOTORCYCLE_SCHEDULE);
    assert WellFormedSchedule(TRUCK_SCHEDULE);
    assert WellFormedSchedule(OTHER_SCHEDULE);
  }

  /** The marks of a schedule, in schedule order. */
  function Marks(s: Schedule): (r: seq<int>)
    ensures |r| == |s|
    ensures forall i :: 0 <= i < |s| ==> r[i] == s[i].kmMark
  {
    if |s| == 0 then [] else [s[0].kmMark] + Marks(s[1..])
  }

  /** The concrete marks of each table entry. */
  lemma ProfileMarks()
    ensures Marks(PREVENTIVE_PROFILES["car"]) == [5000, 10000, 20000, 40000]
    ensures Marks(PREVENTIVE_PROFILES["motorcycle"]) == [3000, 6000, 12000]
    ensures Marks(PREVENTIVE_PROFILES["truck"]) == [10000, 20000, 40000]
    ensures Marks(PREVENTIVE_PROFILES[FALLBACK_PROFILE]) == [5000, 15000]
  {
  }
}

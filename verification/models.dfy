/** The records the application stores (models.py), as plain values. Only the
    columns the modelled operations read or write are kept. */
module Models {
  import opened Wrappers

  /** Times are integer seconds and dates are day numbers. */
  const SecondsPerDay := 86400

  /** A workout. Nullable columns are `Option`s; `startTime` is in seconds,
      `duration` in seconds, `distance` in metres. */
  datatype Activity = Activity(
    id: nat,
    activityType: Option<string>,
    startTime: Option<int>,
    duration: Option<int>,
    distance: Option<real>,
    notes: Option<string>)

  /** A strength-training line of an activity. */
  datatype Exercise = Exercise(
    id: nat,
    activityId: nat,
    name: Option<string>,
    sets: Option<int>,
    reps: Option<int>,
    weight: Option<real>)

  /** A reusable strength-training template. */
  datatype WorkoutPlan = WorkoutPlan(id: nat, name: string)

  /** One exercise of a template, with the defaults copied into activities. */
  datatype PlanExercise = PlanExercise(id: nat, planId: nat, name: string, defaultSets: int, defaultReps: int)

  /** The single user record the AI routes read: only its goal and target
      date (a day number). Its table is not defined in models.py; the goal is
      taken to be a text column and the target date a date. */
  datatype UserData = UserData(goal: Option<string>, targetDate: Option<int>)

  /** JSON values as `json.loads` and `request.json` produce them. */
  datatype Json =
    | JNull
    | JBool(b: bool)
    | JInt(i: int)
    | JFloat(r: real)
    | JStr(s: string)
    | JArray(items: seq<Json>)
    | JObject(fields: seq<(string, Json)>)
}

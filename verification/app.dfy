/** The training-store routes of the web application (app.py), run against an
    abstract store: one sequence per table, in insertion (rowid) order. A
    route either commits all of its writes or, when it answers 404 or an
    exception escapes, none of them. Form fields are `Option<string>`
    (`request.form.get`), a JSON body is a map (`request.json`), and Python's
    conversions `int()`, `float()` and `str()` are parameters. */
module App {
  import opened Wrappers
  import opened Strings
  import opened Models
  import opened Sequences
  import AiCoach
  import AskCoach

  datatype Store = Store(
    activities: seq<Activity>,
    exercises: seq<Exercise>,
    plans: seq<WorkoutPlan>,
    planExercises: seq<PlanExercise>)

  /** The answer of a route: a redirect, a JSON body, the 404 of
      `get_or_404`, or an escaped exception (a 500). */
  datatype Reply = Redirect(path: string) | JsonReply(body: Json) | NotFound | Failed

  /** The answer and the store after the route, committed or rolled back. */
  datatype Step = Step(reply: Reply, store: Store)

  // ---------------------------------------------------------------------------
  // ids
  // ---------------------------------------------------------------------------

  function ActivityId(a: Activity): nat { a.id }
  function ExerciseId(e: Exercise): nat { e.id }
  function PlanId(p: WorkoutPlan): nat { p.id }
  function PlanExerciseId(p: PlanExercise): nat { p.id }

  /** The primary keys of a table are distinct. */
  predicate UniqueIds<T>(xs: seq<T>, id: T -> nat) {
    forall i, j :: 0 <= i < j < |xs| ==> id(xs[i]) != id(xs[j])
  }

  predicate Wf(s: Store) {
    && UniqueIds(s.activities, ActivityId)
    && UniqueIds(s.exercises, ExerciseId)
    && UniqueIds(s.plans, PlanId)
    && UniqueIds(s.planExercises, PlanExerciseId)
  }

  /** Some row has primary key `k`. */
  predicate HasId<T>(xs: seq<T>, id: T -> nat, k: nat) {
    exists i :: 0 <= i < |xs| && id(xs[i]) == k
  }

  /** `query.get(k)`: the position of the first row with key `k`, or -1. */
  function Find<T>(xs: seq<T>, id: T -> nat, k: nat): (i: int)
    ensures -1 <= i < |xs|
    ensures i >= 0 ==> id(xs[i]) == k
    ensures i == -1 <==> !HasId(xs, id, k)
    decreases |xs|
  {
    if |xs| == 0 then -1
    else if id(xs[0]) == k then 0
    else
      var i := Find(xs[1..], id, k);
      assert forall j :: 1 <= j < |xs| ==> xs[j] == xs[1..][j - 1];
      assert i >= 0 ==> id(xs[i + 1]) == k;
      if i == -1 then -1 else i + 1
  }

  /** The key SQLite gives the next row: one more than the largest key, or 1. */
  function NextId<T>(xs: seq<T>, id: T -> nat): (n: nat)
    ensures n >= 1
    ensures forall i :: 0 <= i < |xs| ==> id(xs[i]) < n
    ensures |xs| == 0 ==> n == 1
    ensures |xs| > 0 ==> HasId(xs, id, n - 1)
    decreases |xs|
  {
    if |xs| == 0 then 1
    else
      var m := NextId(xs[1..], id);
      assert forall j :: 1 <= j < |xs| ==> xs[j] == xs[1..][j - 1];
      if id(xs[0]) < m then
        assert HasId(xs, id, m - 1) by {
          if |xs| > 1 {
            var j :| 0 <= j < |xs| - 1 && id(xs[1..][j]) == m - 1;
            assert id(xs[j + 1]) == m - 1;
          }
        }
        m
      else id(xs[0]) + 1
  }

  /** Appending rows whose keys are new keeps the keys distinct. */
  lemma AppendFresh<T>(xs: seq<T>, ys: seq<T>, id: T -> nat)
    requires UniqueIds(xs, id) && UniqueIds(ys, id)
    requires forall i, j :: 0 <= i < |xs| && 0 <= j < |ys| ==> id(xs[i]) != id(ys[j])
    ensures UniqueIds(xs + ys, id)
  {
    var zs := xs + ys;
    forall i, j | 0 <= i < j < |zs|
      ensures id(zs[i]) != id(zs[j])
    {
      if j < |xs| {
        assert zs[i] == xs[i] && zs[j] == xs[j];
      } else if i < |xs| {
        assert zs[i] == xs[i] && zs[j] == ys[j - |xs|];
      } else {
        assert zs[i] == ys[i - |xs|] && zs[j] == ys[j - |xs|];
      }
    }
  }

  // ---------------------------------------------------------------------------
  // form routes
  // ---------------------------------------------------------------------------

  /** Python truthiness of a form field: missing and "" are false. */
  predicate Filled(v: Option<string>) {
    v.Some? && v.value != ""
  }

  function ActivityPath(id: nat): string {
    "/activity/" + IntToString(id)
  }

  const PlansPath := "/plans"

  /** `add_plan`: a plan is created exactly when the name is filled in. */
  function AddPlan(s: Store, name: Option<string>): (r: Step)
    ensures r.reply == Redirect(PlansPath)
    ensures r.store.activities == s.activities && r.store.exercises == s.exercises
    ensures r.store.planExercises == s.planExercises
    ensures Filled(name) <==> |r.store.plans| == |s.plans| + 1
    ensures !Filled(name) ==> r.store == s
    ensures Filled(name) ==>
      && r.store.plans[..|s.plans|] == s.plans
      && r.store.plans[|s.plans|].name == name.value
      && !HasId(s.plans, PlanId, r.store.plans[|s.plans|].id)
    ensures Wf(s) ==> Wf(r.store)
  {
    if Filled(name) then
      var p := WorkoutPlan(NextId(s.plans, PlanId), name.value);
      assert Wf(s) ==> UniqueIds(s.plans + [p], PlanId) by {
        if Wf(s) {
          AppendFresh(s.plans, [p], PlanId);
        }
      }
      Step(Redirect(PlansPath), s.(plans := s.plans + [p]))
    else Step(Redirect(PlansPath), s)
  }

  /** `int(v) if v else 0` on a form field; None when `int()` raises. */
  function FormInt(v: Option<string>, toInt: string -> Option<int>): (r: Option<int>)
    ensures !Filled(v) ==> r == Some(0)
    ensures Filled(v) ==> r == toInt(v.value)
  {
    if Filled(v) then toInt(v.value) else Some(0)
  }

  /** `add_plan_exercise`: 404 for an unknown plan; nothing without a name;
      a 500 when a filled-in count is not an integer; otherwise one template
      exercise with empty counts read as 0. */
  function AddPlanExercise(s: Store, id: nat, name: Option<string>, sets: Option<string>, reps: Option<string>,
                           toInt: string -> Option<int>): (r: Step)
    ensures r.reply == NotFound <==> !HasId(s.plans, PlanId, id)
    ensures r.reply == Failed <==>
      HasId(s.plans, PlanId, id) && Filled(name) && (FormInt(sets, toInt).None? || FormInt(reps, toInt).None?)
    ensures r.reply != NotFound && r.reply != Failed ==> r.reply == Redirect(PlansPath)
    ensures r.store.activities == s.activities && r.store.exercises == s.exercises && r.store.plans == s.plans
    ensures r.store.planExercises != s.planExercises <==>
      HasId(s.plans, PlanId, id) && Filled(name) && FormInt(sets, toInt).Some? && FormInt(reps, toInt).Some?
    ensures r.store.planExercises != s.planExercises ==>
      var n := |s.planExercises|;
      && |r.store.planExercises| == n + 1
      && r.store.planExercises[..n] == s.planExercises
      && r.store.planExercises[n].planId == id
      && r.store.planExercises[n].name == name.value
      && (!Filled(sets) ==> r.store.planExercises[n].defaultSets == 0)
      && (!Filled(reps) ==> r.store.planExercises[n].defaultReps == 0)
      && (Filled(sets) ==> toInt(sets.value) == Some(r.store.planExercises[n].defaultSets))
      && (Filled(reps) ==> toInt(reps.value) == Some(r.store.planExercises[n].defaultReps))
    ensures Wf(s) ==> Wf(r.store)
  {
    if Find(s.plans, PlanId, id) == -1 then Step(NotFound, s)
    else if !Filled(name) then Step(Redirect(PlansPath), s)
    else
      match (FormInt(sets, toInt), FormInt(reps, toInt))
      case (Some(a), Some(b)) =>
        var e := PlanExercise(NextId(s.planExercises, PlanExerciseId), id, name.value, a, b);
        assert Wf(s) ==> UniqueIds(s.planExercises + [e], PlanExerciseId) by {
          if Wf(s) {
            AppendFresh(s.planExercises, [e], PlanExerciseId);
          }
        }
        assert (s.planExercises + [e])[..|s.planExercises|] == s.planExercises;
        Step(Redirect(PlansPath), s.(planExercises := s.planExercises + [e]))
      case _ => Step(Failed, s)
  }

  /** `plan.exercises`: the template exercises of plan `p`, in table order. */
  function Templates(pes: seq<PlanExercise>, p: nat): (ts: seq<PlanExercise>)
    ensures |ts| <= |pes|
    ensures forall t :: t in ts <==> t in pes && t.planId == p
    decreases |pes|
  {
    if |pes| == 0 then []
    else (if pes[0].planId == p then [pes[0]] else []) + Templates(pes[1..], p)
  }

  /** An activity's exercise copied from a template: name and default counts,
      weight 0, attached to the activity. */
  predicate CopiedFrom(e: Exercise, t: PlanExercise, activityId: nat) {
    && e.activityId == activityId
    && e.name == Some(t.name)
    && e.sets == Some(t.defaultSets)
    && e.reps == Some(t.defaultReps)
    && e.weight == Some(0.0)
  }

  /** The new exercises for `ts`, with keys `first`, `first + 1`, ... */
  function Copies(ts: seq<PlanExercise>, activityId: nat, first: nat): (es: seq<Exercise>)
    ensures |es| == |ts|
    ensures forall k :: 0 <= k < |ts| ==> es[k].id == first + k && CopiedFrom(es[k], ts[k], activityId)
  {
    seq(|ts|, k requires 0 <= k < |ts| =>
      Exercise(first + k, activityId, Some(ts[k].name), Some(ts[k].defaultSets), Some(ts[k].defaultReps), Some(0.0)))
  }

  /** Exercises numbered from `first` on come after every existing key. */
  lemma AppendNumbered(xs: seq<Exercise>, ys: seq<Exercise>, first: nat)
    requires UniqueIds(xs, ExerciseId)
    requires forall i :: 0 <= i < |xs| ==> xs[i].id < first
    requires forall k :: 0 <= k < |ys| ==> ys[k].id == first + k
    ensures UniqueIds(xs + ys, ExerciseId)
  {
    AppendFresh(xs, ys, ExerciseId);
  }

  /** Whether the `plan_id` field names an existing plan; `planKey` is the
      database's reading of the field as a key. */
  predicate PlanFound(s: Store, planId: Option<string>, planKey: string -> Option<nat>)
    requires Filled(planId)
  {
    planKey(planId.value).Some? && HasId(s.plans, PlanId, planKey(planId.value).value)
  }

  /** `apply_plan_to_activity`: 404 for an unknown activity; nothing without
      a plan id; 404 for an unknown plan; otherwise one exercise per template
      exercise of the plan, in template order. */
  function ApplyPlan(s: Store, id: nat, planId: Option<string>, planKey: string -> Option<nat>): (r: Step)
    ensures r.reply == NotFound <==>
      !HasId(s.activities, ActivityId, id) || (Filled(planId) && !PlanFound(s, planId, planKey))
    ensures r.reply != NotFound ==> r.reply == Redirect(ActivityPath(id))
    ensures r.reply == NotFound || !Filled(planId) ==> r.store == s
    ensures r.store.activities == s.activities && r.store.plans == s.plans
    ensures r.store.planExercises == s.planExercises
    ensures r.reply != NotFound && Filled(planId) ==>
      var ts := Templates(s.planExercises, planKey(planId.value).value);
      var n := |s.exercises|;
      && |r.store.exercises| == n + |ts|
      && r.store.exercises[..n] == s.exercises
      && forall k :: 0 <= k < |ts| ==> CopiedFrom(r.store.exercises[n + k], ts[k], id)
    ensures Wf(s) ==> Wf(r.store)
  {
    if Find(s.activities, ActivityId, id) == -1 then Step(NotFound, s)
    else if !Filled(planId) then Step(Redirect(ActivityPath(id)), s)
    else
      match planKey(planId.value)
      case None => Step(NotFound, s)
      case Some(p) =>
        if Find(s.plans, PlanId, p) == -1 then Step(NotFound, s)
        else
          var first := NextId(s.exercises, ExerciseId);
          var added := Copies(Templates(s.planExercises, p), id, first);
          var es := s.exercises + added;
          assert es[..|s.exercises|] == s.exercises;
          assert forall k :: 0 <= k < |added| ==> es[|s.exercises| + k] == added[k];
          assert Wf(s) ==> UniqueIds(es, ExerciseId) by {
            if Wf(s) {
              AppendNumbered(s.exercises, added, first);
            }
          }
          Step(Redirect(ActivityPath(id)), s.(exercises := es))
  }

  /** `update_activity_notes`: the activity's notes become the field's value,
      `None` when the field is missing. */
  function UpdateNotes(s: Store, id: nat, notes: Option<string>): (r: Step)
    ensures r.reply == NotFound <==> !HasId(s.activities, ActivityId, id)
    ensures r.reply == NotFound ==> r.store == s
    ensures r.reply != NotFound ==>
      && r.reply == Redirect(ActivityPath(id))
      && |r.store.activities| == |s.activities|
      && var i := Find(s.activities, ActivityId, id);
         && r.store.activities[i] == s.activities[i].(notes := notes)
         && forall j :: 0 <= j < |s.activities| && j != i ==> r.store.activities[j] == s.activities[j]
    ensures r.store.exercises == s.exercises && r.store.plans == s.plans
    ensures r.store.planExercises == s.planExercises
    ensures Wf(s) ==> Wf(r.store)
  {
    var i := Find(s.activities, ActivityId, id);
    if i == -1 then Step(NotFound, s)
    else
      var acts := s.activities[i := s.activities[i].(notes := notes)];
      assert forall j :: 0 <= j < |acts| ==> acts[j].id == s.activities[j].id;
      Step(Redirect(ActivityPath(id)), s.(activities := acts))
  }

  /** `xs` without its `i`-th row, the others in order. */
  lemma RemoveShape<T>(xs: seq<T>, i: int)
    requires 0 <= i < |xs|
    ensures var ys := xs[..i] + xs[i + 1..];
      |ys| == |xs| - 1 && forall j :: 0 <= j < |ys| ==> ys[j] == xs[if j < i then j else j + 1]
  {
  }

  /** Removing a row keeps the keys distinct, and with distinct keys it
      removes exactly the row with that key. */
  lemma RemoveById<T>(xs: seq<T>, i: int, id: T -> nat)
    requires 0 <= i < |xs| && UniqueIds(xs, id)
    ensures UniqueIds(xs[..i] + xs[i + 1..], id)
    ensures forall e :: e in xs[..i] + xs[i + 1..] <==> e in xs && id(e) != id(xs[i])
  {
    var ys := xs[..i] + xs[i + 1..];
    RemoveShape(xs, i);
    forall e | e in xs && id(e) != id(xs[i]) ensures e in ys {
      var j :| 0 <= j < |xs| && xs[j] == e;
      assert j != i;
      assert ys[if j < i then j else j - 1] == e;
    }
  }

  /** `delete_exercise`: exactly the exercise with key `exId` goes, and the
      answer redirects to the activity it belonged to. */
  function DeleteExercise(s: Store, exId: nat): (r: Step)
    ensures r.reply == NotFound <==> !HasId(s.exercises, ExerciseId, exId)
    ensures r.reply == NotFound ==> r.store == s
    ensures r.reply != NotFound ==>
      var i := Find(s.exercises, ExerciseId, exId);
      && r.reply == Redirect(ActivityPath(s.exercises[i].activityId))
      && r.store.exercises == s.exercises[..i] + s.exercises[i + 1..]
    ensures r.reply != NotFound && Wf(s) ==>
      && |r.store.exercises| == |s.exercises| - 1
      && forall e :: e in r.store.exercises <==> e in s.exercises && e.id != exId
    ensures r.store.activities == s.activities && r.store.plans == s.plans
    ensures r.store.planExercises == s.planExercises
    ensures Wf(s) ==> Wf(r.store)
  {
    var i := Find(s.exercises, ExerciseId, exId);
    if i == -1 then Step(NotFound, s)
    else
      var es := s.exercises[..i] + s.exercises[i + 1..];
      RemoveShape(s.exercises, i);
      assert Wf(s) ==> UniqueIds(es, ExerciseId) && forall e :: e in es <==> e in s.exercises && e.id != exId by {
        if Wf(s) {
          RemoveById(s.exercises, i, ExerciseId);
        }
      }
      Step(Redirect(ActivityPath(s.exercises[i].activityId)), s.(exercises := es))
  }

  // ---------------------------------------------------------------------------
  // JSON routes
  // ---------------------------------------------------------------------------

  /** Python's `str()` of a decoded JSON value. Strings come back unchanged;
      `None`, booleans and integers are written out; floats, lists and dicts
      are rendered by `repr`. */
  function PyStr(v: Json, repr: Json -> string): (t: string)
    ensures v.JStr? ==> t == v.s
    ensures v.JInt? ==> ParseInt(t) == Some(v.i)
    ensures v.JNull? ==> t == "None"
  {
    match v
    case JNull => "None"
    case JBool(b) => if b then "True" else "False"
    case JInt(i) => IntToStringRoundTrip(i); IntToString(i)
    case JStr(s) => s
    case _ => repr(v)
  }

  /** Python's `int()` of a decoded JSON value; None where it raises. A float
      is truncated toward zero, `True` is 1, and a string is parsed by
      `intText`; `None`, lists and dicts raise a `TypeError`. */
  function PyInt(v: Json, intText: string -> Option<int>): (r: Option<int>)
    ensures v.JInt? ==> r == Some(v.i)
    ensures v.JStr? ==> r == intText(v.s)
    ensures v.JFloat? && v.r >= 0.0 ==> r.Some? && r.value as real <= v.r < r.value as real + 1.0
    ensures v.JFloat? && v.r < 0.0 ==> r.Some? && r.value as real - 1.0 < v.r <= r.value as real
    ensures r.None? <==> v.JNull? || v.JArray? || v.JObject? || (v.JStr? && intText(v.s).None?)
  {
    match v
    case JInt(i) => Some(i)
    case JBool(b) => Some(if b then 1 else 0)
    case JFloat(x) => Some(if x >= 0.0 then x.Floor else -((-x).Floor))
    case JStr(s) => intText(s)
    case _ => None
  }

  /** `str(v).replace(',', '.')`: decimal commas become dots, nothing else moves. */
  function WeightText(v: Json, repr: Json -> string): (w: string)
    ensures |w| == |PyStr(v, repr)|
    ensures forall i :: 0 <= i < |w| ==> w[i] == (if PyStr(v, repr)[i] == ',' then '.' else PyStr(v, repr)[i])
    ensures !Contains(w, ",")
  {
    var t := PyStr(v, repr);
    ReplaceCharPointwise(t, ',', '.');
    ReplaceCharRemoves(t, ',', '.');
    ReplaceAll(t, ",", ".")
  }

  /** A submitted string weight reaches `float()` with its decimal comma
      turned into a dot: "72,5" becomes "72.5", and "72.5" is unchanged. */
  lemma WeightTextOfString(repr: Json -> string)
    ensures WeightText(JStr("72,5"), repr) == "72.5"
    ensures WeightText(JStr("72.5"), repr) == "72.5"
  {
  }

  /** `float(w) if w else 0.0`; None when `float()` raises. */
  function WeightValue(v: Json, repr: Json -> string, toFloat: string -> Option<real>): (r: Option<real>)
    ensures v == JStr("") ==> r == Some(0.0)
    ensures PyStr(v, repr) == "" ==> r == Some(0.0)
    ensures PyStr(v, repr) != "" ==> r == toFloat(WeightText(v, repr))
    ensures v.JNull? ==> r == toFloat("None")
  {
    var w := WeightText(v, repr);
    if w == "" then Some(0.0) else toFloat(w)
  }

  /** Some present key of an `update_exercise` body fails to convert. */
  predicate Rejects(d: map<string, Json>, intText: string -> Option<int>, repr: Json -> string,
                    toFloat: string -> Option<real>) {
    || ("sets" in d && PyInt(d["sets"], intText).None?)
    || ("reps" in d && PyInt(d["reps"], intText).None?)
    || ("weight" in d && WeightValue(d["weight"], repr, toFloat).None?)
  }

  /** `e2` is `e` with exactly the keys present in `d` applied. */
  predicate Patched(e: Exercise, e2: Exercise, d: map<string, Json>, intText: string -> Option<int>,
                    repr: Json -> string, toFloat: string -> Option<real>) {
    && e2.id == e.id && e2.activityId == e.activityId && e2.name == e.name
    && (if "sets" in d then e2.sets.Some? && PyInt(d["sets"], intText) == e2.sets else e2.sets == e.sets)
    && (if "reps" in d then e2.reps.Some? && PyInt(d["reps"], intText) == e2.reps else e2.reps == e.reps)
    && (if "weight" in d then e2.weight.Some? && WeightValue(d["weight"], repr, toFloat) == e2.weight
        else e2.weight == e.weight)
  }

  /** The assignments of `update_exercise`, in order; None when one raises. */
  function Patch(e: Exercise, d: map<string, Json>, intText: string -> Option<int>, repr: Json -> string,
                 toFloat: string -> Option<real>): (r: Option<Exercise>)
    ensures r.None? <==> Rejects(d, intText, repr, toFloat)
    ensures r.Some? ==> Patched(e, r.value, d, intText, repr, toFloat)
  {
    var sets := if "sets" in d then PyInt(d["sets"], intText) else e.sets;
    var reps := if "reps" in d then PyInt(d["reps"], intText) else e.reps;
    var weight := if "weight" in d then WeightValue(d["weight"], repr, toFloat) else e.weight;
    if Rejects(d, intText, repr, toFloat) then None
    else Some(e.(sets := sets, reps := reps, weight := weight))
  }

  const SuccessBody := JObject([("success", JBool(true))])

  /** `update_exercise`: 404 for an unknown exercise; a 500, with nothing
      written, when there is no JSON body or a present value does not
      convert; otherwise only the present keys change. */
  function UpdateExercise(s: Store, id: nat, data: Option<map<string, Json>>, intText: string -> Option<int>,
                          repr: Json -> string, toFloat: string -> Option<real>): (r: Step)
    ensures r.reply == NotFound <==> !HasId(s.exercises, ExerciseId, id)
    ensures r.reply == Failed <==>
      HasId(s.exercises, ExerciseId, id) && (data.None? || Rejects(data.value, intText, repr, toFloat))
    ensures r.reply == NotFound || r.reply == Failed ==> r.store == s
    ensures r.reply != NotFound && r.reply != Failed ==>
      var i := Find(s.exercises, ExerciseId, id);
      && r.reply == JsonReply(SuccessBody)
      && data.Some?
      && |r.store.exercises| == |s.exercises|
      && Patched(s.exercises[i], r.store.exercises[i], data.value, intText, repr, toFloat)
      && forall j :: 0 <= j < |s.exercises| && j != i ==> r.store.exercises[j] == s.exercises[j]
    ensures r.store.activities == s.activities && r.store.plans == s.plans
    ensures r.store.planExercises == s.planExercises
    ensures Wf(s) ==> Wf(r.store)
  {
    var i := Find(s.exercises, ExerciseId, id);
    if i == -1 then Step(NotFound, s)
    else
      match data
      case None => Step(Failed, s)
      case Some(d) =>
        match Patch(s.exercises[i], d, intText, repr, toFloat)
        case None => Step(Failed, s)
        case Some(e) =>
          var es := s.exercises[i := e];
          assert forall j :: 0 <= j < |es| ==> es[j].id == s.exercises[j].id;
          Step(JsonReply(SuccessBody), s.(exercises := es))
  }

  /** The position of the last binding of `key` among the first `n` fields, or -1. */
  function LastIndex(fs: seq<(string, Json)>, key: string, n: nat): (i: int)
    requires n <= |fs|
    ensures -1 <= i < n
    ensures i >= 0 ==> fs[i].0 == key && forall j :: i < j < n ==> fs[j].0 != key
    ensures i == -1 ==> forall j :: 0 <= j < n ==> fs[j].0 != key
    decreases n
  {
    if n == 0 then -1
    else if fs[n - 1].0 == key then n - 1
    else LastIndex(fs, key, n - 1)
  }

  /** `fields[key]` of a JSON object: as in the dict `json.loads` builds, the
      last binding of a repeated key wins. */
  function Get(fs: seq<(string, Json)>, key: string): (v: Option<Json>)
    ensures v.None? <==> forall i :: 0 <= i < |fs| ==> fs[i].0 != key
    ensures v.Some? ==> exists i :: 0 <= i < |fs| && fs[i] == (key, v.value)
                                   && forall j :: i < j < |fs| ==> fs[j].0 != key
  {
    var i := LastIndex(fs, key, |fs|);
    if i == -1 then None
    else
      assert fs[i] == (key, fs[i].1);
      Some(fs[i].1)
  }

  /** A JSON value written to a text column. SQLite's text affinity stores a
      number as its decimal text (the driver binds `True` as 1, and a float
      is written as `realText`); a list or a dict cannot be bound, so the
      commit raises. */
  function TextColumn(v: Json, realText: real -> string): (r: Option<Option<string>>)
    ensures r.None? <==> v.JArray? || v.JObject?
    ensures r == Some(None) <==> v.JNull?
    ensures v.JStr? ==> r == Some(Some(v.s))
    ensures v.JInt? ==> r.Some? && r.value.Some? && ParseInt(r.value.value) == Some(v.i)
  {
    match v
    case JNull => Some(None)
    case JStr(s) => Some(Some(s))
    case JInt(i) => IntToStringRoundTrip(i); Some(Some(IntToString(i)))
    case JBool(b) => Some(Some(if b then "1" else "0"))
    case JFloat(x) => Some(Some(realText(x)))
    case _ => None
  }

  /** A JSON value written to an integer column; `True` is 1 as in Python.
      Strings, floats, lists and dicts are treated as errors. */
  function IntColumn(v: Json): (r: Option<Option<int>>)
    ensures r.None? <==> v.JStr? || v.JFloat? || v.JArray? || v.JObject?
    ensures r == Some(None) <==> v.JNull?
    ensures v.JInt? ==> r == Some(Some(v.i))
  {
    match v
    case JNull => Some(None)
    case JInt(i) => Some(Some(i))
    case JBool(b) => Some(Some(if b then 1 else 0))
    case _ => None
  }

  /** A JSON value written to a float column. Strings, lists and dicts are
      treated as errors. */
  function RealColumn(v: Json): (r: Option<Option<real>>)
    ensures r.None? <==> v.JStr? || v.JArray? || v.JObject?
    ensures r == Some(None) <==> v.JNull?
    ensures v.JInt? ==> r == Some(Some(v.i as real))
    ensures v.JFloat? ==> r == Some(Some(v.r))
  {
    match v
    case JNull => Some(None)
    case JFloat(x) => Some(Some(x))
    case JInt(i) => Some(Some(i as real))
    case JBool(b) => Some(Some(if b then 1.0 else 0.0))
    case _ => None
  }

  /** The columns an `add_exercise_api` item supplies. */
  datatype Fields = Fields(name: Option<string>, sets: Option<int>, reps: Option<int>, weight: Option<real>)

  /** Reads one item: `item['name']`, `item['sets']`, `item['reps']` and
      `item.get('weight', 0)`. None when the item is not an object, a
      required key is missing (a `KeyError`) or a value does not fit. */
  function ItemFields(item: Json, realText: real -> string): (r: Option<Fields>)
    ensures r.Some? <==>
      && item.JObject?
      && Get(item.fields, "name").Some? && Get(item.fields, "sets").Some? && Get(item.fields, "reps").Some?
      && TextColumn(Get(item.fields, "name").value, realText).Some?
      && IntColumn(Get(item.fields, "sets").value).Some?
      && IntColumn(Get(item.fields, "reps").value).Some?
      && RealColumn(Get(item.fields, "weight").GetOr(JInt(0))).Some?
    ensures r.Some? ==>
      && TextColumn(Get(item.fields, "name").value, realText) == Some(r.value.name)
      && IntColumn(Get(item.fields, "sets").value) == Some(r.value.sets)
      && IntColumn(Get(item.fields, "reps").value) == Some(r.value.reps)
    ensures r.Some? && Get(item.fields, "weight").None? ==> r.value.weight == Some(0.0)
    ensures r.Some? && Get(item.fields, "weight").Some? ==> RealColumn(Get(item.fields, "weight").value) == Some(r.value.weight)
  {
    match item
    case JObject(fs) =>
      (match (Get(fs, "name"), Get(fs, "sets"), Get(fs, "reps"))
       case (Some(n), Some(a), Some(b)) =>
         (match (TextColumn(n, realText), IntColumn(a), IntColumn(b), RealColumn(Get(fs, "weight").GetOr(JInt(0))))
          case (Some(n'), Some(a'), Some(b'), Some(w')) => Some(Fields(n', a', b', w'))
          case _ => None)
       case _ => None)
    case _ => None
  }

  /** What `for item in v` visits, for the `exercises` value: the elements of
      a list; an empty string or object visits nothing; None for a value that
      cannot be iterated or whose items cannot be indexed by a string. */
  function Iterated(v: Json): Option<seq<Json>> {
    match v
    case JArray(xs) => Some(xs)
    case JStr(s) => if s == "" then Some([]) else None
    case JObject(fs) => if |fs| == 0 then Some([]) else None
    case _ => None
  }

  /** `data.get('exercises', [])`, iterated. */
  function PayloadItems(d: map<string, Json>): Option<seq<Json>> {
    if "exercises" in d then Iterated(d["exercises"]) else Some([])
  }

  /** The new exercises of `add_exercise_api`, keys from `first` on. */
  function NewExercises(vals: seq<Fields>, activityId: nat, first: nat): (es: seq<Exercise>)
    ensures |es| == |vals|
    ensures forall k :: 0 <= k < |vals| ==>
      es[k] == Exercise(first + k, activityId, vals[k].name, vals[k].sets, vals[k].reps, vals[k].weight)
  {
    seq(|vals|, k requires 0 <= k < |vals| =>
      Exercise(first + k, activityId, vals[k].name, vals[k].sets, vals[k].reps, vals[k].weight))
  }

  /** The store with one new exercise per item, attached to `activityId`. */
  function AddExercises(s: Store, activityId: nat, vals: seq<Fields>): (t: Store)
    ensures t.activities == s.activities && t.plans == s.plans && t.planExercises == s.planExercises
    ensures |t.exercises| == |s.exercises| + |vals|
    ensures t.exercises[..|s.exercises|] == s.exercises
    ensures forall k :: 0 <= k < |vals| ==>
      var e := t.exercises[|s.exercises| + k];
      e.activityId == activityId && Fields(e.name, e.sets, e.reps, e.weight) == vals[k]
    ensures Wf(s) ==> Wf(t)
  {
    var first := NextId(s.exercises, ExerciseId);
    var added := NewExercises(vals, activityId, first);
    var es := s.exercises + added;
    assert es[..|s.exercises|] == s.exercises;
    assert forall k :: 0 <= k < |added| ==> es[|s.exercises| + k] == added[k];
    assert Wf(s) ==> UniqueIds(es, ExerciseId) by {
      if Wf(s) {
        AppendNumbered(s.exercises, added, first);
      }
    }
    s.(exercises := es)
  }

  const StatusOk := JObject([("status", JStr("ok"))])

  /** `add_exercise_api`: 404 for an unknown activity; a 500, with nothing
      written, when the body or any item is unusable; otherwise one exercise
      per item, in order, attached to the activity. */
  function AddExerciseApi(s: Store, id: nat, data: Option<map<string, Json>>, realText: real -> string): (r: Step)
    ensures r.reply == NotFound <==> !HasId(s.activities, ActivityId, id)
    ensures r.reply == NotFound || r.reply == Failed ==> r.store == s
    ensures r.reply.JsonReply? <==>
      && HasId(s.activities, ActivityId, id) && data.Some? && PayloadItems(data.value).Some?
      && forall k :: 0 <= k < |PayloadItems(data.value).value| ==> ItemFields(PayloadItems(data.value).value[k], realText).Some?
    ensures r.reply.JsonReply? ==>
      var items := PayloadItems(data.value).value;
      var n := |s.exercises|;
      && r.reply == JsonReply(StatusOk)
      && |r.store.exercises| == n + |items|
      && r.store.exercises[..n] == s.exercises
      && forall k :: 0 <= k < |items| ==>
           var e := r.store.exercises[n + k];
           && e.activityId == id
           && ItemFields(items[k], realText) == Some(Fields(e.name, e.sets, e.reps, e.weight))
    ensures !r.reply.Redirect?
    ensures r.store.activities == s.activities && r.store.plans == s.plans
    ensures r.store.planExercises == s.planExercises
    ensures Wf(s) ==> Wf(r.store)
  {
    if Find(s.activities, ActivityId, id) == -1 then Step(NotFound, s)
    else
      match data
      case None => Step(Failed, s)
      case Some(d) =>
        match PayloadItems(d)
        case None => Step(Failed, s)
        case Some(items) =>
          match MapAll(items, item => ItemFields(item, realText))
          case None => Step(Failed, s)
          case Some(vals) => Step(JsonReply(StatusOk), AddExercises(s, id, vals))
  }

  // ---------------------------------------------------------------------------
  // dashboard count
  // ---------------------------------------------------------------------------

  const DashboardDays := 30

  /** `Activity.start_time >= cutoff`: a null start time never qualifies. */
  predicate InWindow(a: Activity, now: int) {
    a.startTime.Some? && a.startTime.value >= now - DashboardDays * SecondsPerDay
  }

  /** `len(activities)` on the index page. */
  function DashboardCount(acts: seq<Activity>, now: int): (n: nat)
    ensures n <= |acts|
    decreases |acts|
  {
    if |acts| == 0 then 0
    else DashboardCount(acts[..|acts| - 1], now) + (if InWindow(acts[|acts| - 1], now) then 1 else 0)
  }

  /** The count is the number of activities that started in the last 30 days. */
  lemma {:induction false} DashboardCountIsWindowSize(acts: seq<Activity>, now: int)
    ensures DashboardCount(acts, now) == |set i | 0 <= i < |acts| && InWindow(acts[i], now)|
    decreases |acts|
  {
    if |acts| > 0 {
      var pre := acts[..|acts| - 1];
      DashboardCountIsWindowSize(pre, now);
      var a := set i | 0 <= i < |acts| && InWindow(acts[i], now);
      var b := set i | 0 <= i < |pre| && InWindow(pre[i], now);
      var last := |acts| - 1;
      if InWindow(acts[last], now) {
        assert a == b + {last};
      } else {
        assert a == b;
      }
    }
  }

  // ---------------------------------------------------------------------------
  // AI routes
  // ---------------------------------------------------------------------------

  const DefaultWorkoutType := "bieg"
  const DefaultGoal := "Utrzymanie formy"
  const SuggestRecentLimit := 10
  const PlanRecentLimit := 20
  const DefaultHorizonDays := 30

  /** The goal `suggest_workout` passes on: the user's, if set and non-empty. */
  function SuggestGoal(user: Option<UserData>): (g: string)
    ensures user.Some? && Filled(user.value.goal) ==> g == user.value.goal.value
    ensures !(user.Some? && Filled(user.value.goal)) ==> g == DefaultGoal
  {
    if user.Some? && Filled(user.value.goal) then user.value.goal.value else DefaultGoal
  }

  /** `suggest_workout`, for the activities newest first. */
  function SuggestWorkoutRoute(typeArg: Option<string>, user: Option<UserData>, recent: seq<Activity>,
                               llm: string -> Option<string>, parseJson: string -> Option<Json>): (r: Outcome<Json>)
    ensures r.Raised? <==> exists i :: 0 <= i < |recent| && i < AiCoach.SuggestHistoryLimit && recent[i].duration.None?
    ensures r.Returned? ==>
      AiCoach.GuardedAnswer(AiCoach.SuggestPrompt(typeArg.GetOr(DefaultWorkoutType), SuggestGoal(user),
                                                  AiCoach.SuggestSummary(recent).value),
                            llm, parseJson, AiCoach.SuggestFallback, r.value)
  {
    var acts := Take(recent, SuggestRecentLimit);
    SummaryOfPrefix(recent, acts);
    AiCoach.SuggestWorkout(typeArg.GetOr(DefaultWorkoutType), SuggestGoal(user), acts, llm, parseJson)
  }

  /** The five-line summary reads only what a ten-item prefix keeps. */
  lemma SummaryOfPrefix(recent: seq<Activity>, acts: seq<Activity>)
    requires acts == Take(recent, SuggestRecentLimit)
    ensures AiCoach.SuggestSummary(acts) == AiCoach.SuggestSummary(recent)
  {
    assert Take(acts, AiCoach.SuggestHistoryLimit) == Take(recent, AiCoach.SuggestHistoryLimit);
  }

  /** The ten-line plan summary reads only what a twenty-item prefix keeps. */
  lemma PlanSummaryOfPrefix(recent: seq<Activity>, acts: seq<Activity>, formatKm: real -> string)
    requires acts == Take(recent, PlanRecentLimit)
    ensures AiCoach.PlanSummary(acts, formatKm) == AiCoach.PlanSummary(recent, formatKm)
  {
    assert Take(acts, AiCoach.PlanHistoryLimit) == Take(recent, AiCoach.PlanHistoryLimit);
  }

  /** A missing `type` and `type=bieg` give the same suggestion; a user
      without a goal and one whose goal is the default do too. */
  lemma SuggestDefaults(user: Option<UserData>, recent: seq<Activity>,
                        llm: string -> Option<string>, parseJson: string -> Option<Json>)
    ensures SuggestWorkoutRoute(None, user, recent, llm, parseJson)
         == SuggestWorkoutRoute(Some(DefaultWorkoutType), user, recent, llm, parseJson)
    ensures forall t :: (SuggestWorkoutRoute(t, None, recent, llm, parseJson)
         == SuggestWorkoutRoute(t, Some(UserData(Some(DefaultGoal), None)), recent, llm, parseJson))
  {
  }

  /** Python truthiness of a JSON value. */
  predicate JTruthy(v: Json) {
    match v
    case JNull => false
    case JBool(b) => b
    case JInt(i) => i != 0
    case JFloat(x) => x != 0.0
    case JStr(s) => s != ""
    case JArray(xs) => |xs| > 0
    case JObject(fs) => |fs| > 0
  }

  /** What `create_plan` saved and what it answered. `saved` is None when an
      exception escaped before the commit. */
  datatype PlanReply = PlanReply(saved: Option<UserData>, answer: Outcome<Json>)

  /** The user record after `user.goal = data['goal']`, the optional target
      date and the commit; None when one of them raises. The goal is stored
      as a text column stores it. */
  function UpdatedUser(d: map<string, Json>, user: Option<UserData>, realText: real -> string,
                       parseDate: string -> Option<int>): (u: Option<UserData>)
    ensures "goal" !in d ==> u.None?
    ensures "goal" in d && TextColumn(d["goal"], realText).None? ==> u.None?
    ensures u.Some? ==> Some(u.value.goal) == TextColumn(d["goal"], realText)
    ensures "goal" in d && TextColumn(d["goal"], realText).Some? && !("target_date" in d && JTruthy(d["target_date"])) ==>
      u.Some? && u.value.targetDate == (if user.Some? then user.value.targetDate else None)
    ensures "goal" in d && TextColumn(d["goal"], realText).Some? && "target_date" in d && JTruthy(d["target_date"]) ==>
      (u.Some? <==> d["target_date"].JStr? && parseDate(d["target_date"].s).Some?)
      && (u.Some? ==> u.value.targetDate == parseDate(d["target_date"].s))
  {
    if "goal" !in d then None
    else
      match TextColumn(d["goal"], realText)
      case None => None
      case Some(goal) =>
        var base := user.GetOr(UserData(None, None));
        if "target_date" in d && JTruthy(d["target_date"]) then
          match d["target_date"]
          case JStr(t) =>
            (match parseDate(t)
             case Some(day) => Some(UserData(goal, Some(day)))
             case None => None)
          case _ => None
        else Some(UserData(goal, base.targetDate))
  }

  /** `create_plan`: the goal is required; the user is saved before the plan
      is generated from the twenty newest activities; without a target date
      the horizon is 30 days from today. */
  function CreatePlanRoute(data: Option<map<string, Json>>, user: Option<UserData>, today: int, recent: seq<Activity>,
                           realText: real -> string, parseDate: string -> Option<int>, formatKm: real -> string,
                           llm: string -> Option<string>, parseJson: string -> Option<Json>): (r: PlanReply)
    ensures data.None? || "goal" !in data.value ==> r == PlanReply(None, Raised)
    ensures r.saved.None? ==> r.answer.Raised?
    ensures data.Some? ==> r.saved == UpdatedUser(data.value, user, realText, parseDate)
    ensures r.saved.Some? ==> r.saved == UpdatedUser(data.value, user, realText, parseDate)
    ensures r.saved.Some? ==>
      (r.answer.Raised? <==> AiCoach.PlanSummary(recent, formatKm).None?)
    ensures r.saved.Some? && r.answer.Returned? ==>
      var u := r.saved.value;
      var days := if u.targetDate.Some? then u.targetDate.value - today else DefaultHorizonDays;
      AiCoach.GuardedAnswer(AiCoach.PlanPrompt(AiCoach.FStr(u.goal), days, AiCoach.PlanSummary(recent, formatKm).value),
                            llm, parseJson, AiCoach.PlanFallback, r.answer.value)
  {
    match data
    case None => PlanReply(None, Raised)
    case Some(d) =>
      match UpdatedUser(d, user, realText, parseDate)
      case None => PlanReply(None, Raised)
      case Some(u) =>
        var target := u.targetDate.GetOr(today + DefaultHorizonDays);
        var acts := Take(recent, PlanRecentLimit);
        PlanSummaryOfPrefix(recent, acts, formatKm);
        PlanReply(Some(u), AiCoach.GeneratePlan(AiCoach.FStr(u.goal), target, today, acts, formatKm, llm, parseJson))
  }
}

/** Plan generation and workout suggestion through the language model
    (ai_coach.py). The model call is `llm` (None when it raises), `json.loads`
    is `parseJson` (None when it raises) and the `.1f` kilometre formatting
    of a distance in metres is `formatKm`. Dates are day numbers. */
module AiCoach {
  import opened Wrappers
  import opened Strings
  import opened Models
  import opened Sequences

  // ---------------------------------------------------------------------------
  // Cleaning the model's reply
  // ---------------------------------------------------------------------------

  /** `text.replace('```json', '').replace('```', '').strip()`. */
  function Clean(text: string): (r: string)
    ensures Trimmed(r)
    ensures !Contains(r, Fence)
    ensures Trimmed(text) && !Contains(text, Fence) ==> r == text
  {
    var noFences := ReplaceAll(ReplaceAll(text, "```json", ""), Fence, "");
    RemovingFencesLeavesNone(ReplaceAll(text, "```json", ""));
    StripAvoids(noFences, Fence);
    assert Trimmed(text) && !Contains(text, Fence) ==> Strip(noFences) == text by {
      if Trimmed(text) && !Contains(text, Fence) {
        AvoidsExtension(text, Fence, "json");
        assert Fence + "json" == "```json";
        StripTrimmed(text);
      }
    }
    Strip(noFences)
  }

  /** Cleaning a cleaned reply changes nothing. */
  lemma CleanIdempotent(text: string)
    ensures Clean(Clean(text)) == Clean(text)
  {
  }

  /** A reply wrapped in a `json` code fence loses both fence markers and its
      surrounding whitespace, and nothing else, when its body holds no
      backtick. */
  lemma CleanFenced(body: string)
    requires forall i :: 0 <= i < |body| ==> body[i] != '`'
    ensures Clean("```json" + body + Fence) == Strip(body)
  {
    var text := "```json" + body + Fence;
    assert "```json" <= text;
    assert text[|"```json"|..] == body + Fence;
    NoTickPrefix(body, Fence, "```json", "");
    assert !Contains(Fence, "```json");
    var once := ReplaceAll(text, "```json", "");
    assert once == body + Fence;
    NoTickPrefix(body, Fence, Fence, "");
    assert Fence <= Fence && Fence[|Fence|..] == "";
    assert ReplaceAll(Fence, Fence, "") == "";
    assert ReplaceAll(once, Fence, "") == body;
  }

  // ---------------------------------------------------------------------------
  // Activity summaries
  // ---------------------------------------------------------------------------

  /** `duration // 60`: whole minutes, rounded down. */
  function Minutes(duration: int): (m: int)
    ensures 60 * m <= duration < 60 * m + 60
  {
    duration / 60
  }

  /** An optional string as an f-string renders it: `None` prints as "None". */
  function FStr(t: Option<string>): string {
    match t
    case Some(s) => s
    case None => "None"
  }

  /** One line of the plan prompt's history; `None` when the duration or the
      distance is null, where Python raises a `TypeError`. */
  function PlanLine(a: Activity, formatKm: real -> string): Option<string> {
    if a.duration.None? || a.distance.None? then None
    else Some("- " + FStr(a.activityType) + ": " + IntToString(Minutes(a.duration.value)) + "min, "
              + formatKm(a.distance.value) + "km")
  }

  /** One line of the suggestion prompt's history; `None` when the duration is null. */
  function SuggestLine(a: Activity): Option<string> {
    if a.duration.None? then None
    else Some("- " + FStr(a.activityType) + ": " + IntToString(Minutes(a.duration.value)) + "min")
  }

  const PlanHistoryLimit := 10
  const SuggestHistoryLimit := 5

  /** The history lines of `generate_plan`: one per activity among the first
      ten, in order, with whole minutes and the formatted distance. It fails
      exactly when one of those activities lacks a duration or a distance. */
  function PlanSummary(acts: seq<Activity>, formatKm: real -> string): (r: Option<seq<string>>)
    ensures var n := if |acts| < PlanHistoryLimit then |acts| else PlanHistoryLimit;
      && (r.Some? <==> forall i :: 0 <= i < n ==> acts[i].duration.Some? && acts[i].distance.Some?)
      && (r.Some? ==> |r.value| == n && forall i :: 0 <= i < n ==>
            r.value[i] == "- " + FStr(acts[i].activityType) + ": "
                          + IntToString(Minutes(acts[i].duration.value)) + "min, "
                          + formatKm(acts[i].distance.value) + "km")
  {
    MapAll(Take(acts, PlanHistoryLimit), a => PlanLine(a, formatKm))
  }

  /** The history lines of `suggest_workout`: one per activity among the
      first five, failing exactly when one of those lacks a duration. */
  function SuggestSummary(acts: seq<Activity>): (r: Option<seq<string>>)
    ensures var n := if |acts| < SuggestHistoryLimit then |acts| else SuggestHistoryLimit;
      && (r.Some? <==> forall i :: 0 <= i < n ==> acts[i].duration.Some?)
      && (r.Some? ==> |r.value| == n && forall i :: 0 <= i < n ==>
            r.value[i] == "- " + FStr(acts[i].activityType) + ": "
                          + IntToString(Minutes(acts[i].duration.value)) + "min")
  {
    MapAll(Take(acts, SuggestHistoryLimit), SuggestLine)
  }

  /** Activities past the first ten never reach the plan prompt. */
  lemma PlanSummaryIgnoresTail(acts: seq<Activity>, more: seq<Activity>, formatKm: real -> string)
    requires |acts| >= PlanHistoryLimit
    ensures PlanSummary(acts + more, formatKm) == PlanSummary(acts, formatKm)
  {
    assert Take(acts + more, PlanHistoryLimit) == Take(acts, PlanHistoryLimit);
  }

  /** `(target_date - today).days`: negative once the target has passed. */
  function DaysLeft(targetDate: int, today: int): (d: int)
    ensures today + d == targetDate
    ensures d < 0 <==> targetDate < today
  {
    targetDate - today
  }

  // ---------------------------------------------------------------------------
  // Prompts and the guarded model call
  // ---------------------------------------------------------------------------

  const PlanPromptPieces: seq<string> := [
    "Jesteś trenerem personalnym. Stwórz plan treningowy na 7 dni w formacie JSON.\nCel użytkownika: ",
    "\nDni do celu: ",
    "\nOstatnie 10 treningów:\n",
    "\n\nWymagany format JSON (zwróć TYLKO czysty JSON, bez znaczników markdown ```json):\n"
    + "{\n"
    + "  \"days\": [\n"
    + "    {\"day\": 1, \"type\": \"bieg/rower/siłownia/odpoczynek\", \"opis\": \"szczegóły treningu\"},\n"
    + "    ...\n"
    + "  ]\n"
    + "}"
  ]

  const SuggestPromptPieces: seq<string> := [
    "Jesteś trenerem. Zaproponuj jeden konkretny trening na dziś w formacie JSON.\nTyp treningu: ",
    "\nCel użytkownika: ",
    "\nOstatnie treningi:\n",
    "\n\nWymagany format JSON (zwróć TYLKO czysty JSON, bez znaczników markdown):\n"
    + "{\n"
    + "  \"rozgrzewka\": \"dokładny opis rozgrzewki\",\n"
    + "  \"glowna_czesc\": \"szczegóły głównego zadania\",\n"
    + "  \"chlodzenie\": \"opis wyciszenia\",\n"
    + "  \"czas\": 60\n"
    + "}"
  ]

  /** `{"days": []}`: what plan generation returns when anything in its
      guarded block fails. */
  const PlanFallback := JObject([("days", JArray([]))])

  /** `{}`: what a workout suggestion returns on failure. */
  const SuggestFallback := JObject([])

  /** `v` is what the guarded block yields for `prompt`: the parsed cleaned
      reply when the model answers and that text parses, `fallback` when the
      call or the parse raises. */
  predicate GuardedAnswer(prompt: string, llm: string -> Option<string>, parseJson: string -> Option<Json>,
                          fallback: Json, v: Json) {
    if llm(prompt).Some? && parseJson(Clean(llm(prompt).value)).Some?
    then v == parseJson(Clean(llm(prompt).value)).value
    else v == fallback
  }

  /** The `try` block of both methods: ask the model, clean the reply, parse
      it; any failure gives `fallback`. The parser only ever sees cleaned text. */
  function AskModel(prompt: string, llm: string -> Option<string>, parseJson: string -> Option<Json>,
                    fallback: Json): (r: Json)
    ensures llm(prompt).Some? && parseJson(Clean(llm(prompt).value)).Some?
      ==> r == parseJson(Clean(llm(prompt).value)).value
    ensures llm(prompt).None? ==> r == fallback
    ensures llm(prompt).Some? && parseJson(Clean(llm(prompt).value)).None? ==> r == fallback
    ensures GuardedAnswer(prompt, llm, parseJson, fallback, r)
  {
    match llm(prompt)
    case None => fallback
    case Some(reply) => parseJson(Clean(reply)).GetOr(fallback)
  }

  /** Two replies that clean to the same text give the same answer. */
  lemma AnswerDependsOnCleanedReply(prompt: string, llm1: string -> Option<string>, llm2: string -> Option<string>,
                                    parseJson: string -> Option<Json>, fallback: Json)
    requires llm1(prompt).Some? && llm2(prompt).Some?
    requires Clean(llm1(prompt).value) == Clean(llm2(prompt).value)
    ensures AskModel(prompt, llm1, parseJson, fallback) == AskModel(prompt, llm2, parseJson, fallback)
  {
  }

  function PlanPrompt(goal: string, daysLeft: int, history: seq<string>): string {
    Fill(PlanPromptPieces, [goal, IntToString(daysLeft), Join(history, "\n")])
  }

  function SuggestPrompt(activityType: string, goal: string, history: seq<string>): string {
    Fill(SuggestPromptPieces, [activityType, goal, Join(history, "\n")])
  }

  /** The plan prompt carries the goal, the day count and the history, in
      that order, each verbatim. */
  lemma PlanPromptCarries(goal: string, daysLeft: int, history: seq<string>)
    ensures PlacesArgs(PlanPromptPieces, [goal, IntToString(daysLeft), Join(history, "\n")],
                       PlanPrompt(goal, daysLeft, history))
  {
    FillPlacesArgs(PlanPromptPieces, [goal, IntToString(daysLeft), Join(history, "\n")]);
  }

  /** The suggestion prompt carries the type, the goal and the history, in
      that order, each verbatim. */
  lemma SuggestPromptCarries(activityType: string, goal: string, history: seq<string>)
    ensures PlacesArgs(SuggestPromptPieces, [activityType, goal, Join(history, "\n")],
                       SuggestPrompt(activityType, goal, history))
  {
    FillPlacesArgs(SuggestPromptPieces, [activityType, goal, Join(history, "\n")]);
  }

  /** `generate_plan`. A null duration or distance among the first ten
      activities raises before the guarded block and escapes; otherwise the
      result is the parsed cleaned reply, or `{"days": []}` on any failure. */
  function GeneratePlan(goal: string, targetDate: int, today: int, acts: seq<Activity>,
                        formatKm: real -> string, llm: string -> Option<string>,
                        parseJson: string -> Option<Json>): (r: Outcome<Json>)
    ensures r.Raised? <==> PlanSummary(acts, formatKm).None?
    ensures r.Returned? ==>
      GuardedAnswer(PlanPrompt(goal, targetDate - today, PlanSummary(acts, formatKm).value),
                    llm, parseJson, PlanFallback, r.value)
  {
    match PlanSummary(acts, formatKm)
    case None => Raised
    case Some(history) =>
      Returned(AskModel(PlanPrompt(goal, DaysLeft(targetDate, today), history), llm, parseJson, PlanFallback))
  }

  /** `suggest_workout`: like plan generation, with the first five
      activities and `{}` as the fallback. */
  function SuggestWorkout(activityType: string, goal: string, acts: seq<Activity>,
                          llm: string -> Option<string>, parseJson: string -> Option<Json>): (r: Outcome<Json>)
    ensures r.Raised? <==> SuggestSummary(acts).None?
    ensures r.Returned? ==>
      GuardedAnswer(SuggestPrompt(activityType, goal, SuggestSummary(acts).value),
                    llm, parseJson, SuggestFallback, r.value)
  {
    match SuggestSummary(acts)
    case None => Raised
    case Some(history) =>
      Returned(AskModel(SuggestPrompt(activityType, goal, history), llm, parseJson, SuggestFallback))
  }
}

/**
 * The trip-planner page's client state: form validation, the submission
 * update with its bounded most-recent-first history, loading from and
 * clearing the history, speech dictation into the notes, the microphone
 * toggle and the step-icon classifier.
 */
module TripPlannerUi {
  import opened Wrappers
  import opened Text
  import opened Domain

  datatype FormValues = FormValues(start: string, destination: string, notes: Option<string>)

  /** A validation message attached to one form field. */
  datatype FieldIssue = FieldIssue(field: string, message: string)

  const MinPlaceLength: nat := 3
  const StartIssue := FieldIssue("start", "Please enter a valid starting location.")
  const DestinationIssue := FieldIssue("destination", "Please enter a valid destination.")

  /**
   * The form schema's findings, in field order; `notes` is optional and never
   * fails. Lengths are JavaScript string lengths, in UTF-16 code units.
   */
  function FormIssues(v: FormValues): (issues: seq<FieldIssue>)
    ensures StartIssue in issues <==> Utf16Length(v.start) < MinPlaceLength
    ensures DestinationIssue in issues <==> Utf16Length(v.destination) < MinPlaceLength
    ensures forall i :: 0 <= i < |issues| ==> issues[i] == StartIssue || issues[i] == DestinationIssue
  {
    (if Utf16Length(v.start) < MinPlaceLength then [StartIssue] else [])
    + (if Utf16Length(v.destination) < MinPlaceLength then [DestinationIssue] else [])
  }

  predicate FormAccepts(v: FormValues) {
    FormIssues(v) == []
  }

  /** A submission is accepted exactly when both places have at least three code units, whatever the notes. */
  lemma FormAcceptsIff(v: FormValues)
    ensures FormAccepts(v) <==> Utf16Length(v.start) >= 3 && Utf16Length(v.destination) >= 3
  {
    if FormAccepts(v) {
      assert StartIssue !in FormIssues(v);
      assert DestinationIssue !in FormIssues(v);
    }
  }

  /** An emoji is two code units, so an emoji and one letter make a long enough place. */
  lemma AstralCharCountsTwice()
    ensures FormAccepts(FormValues("\U{1F600}a", "\U{1F600}a", None))
    ensures !FormAccepts(FormValues("ab", "\U{1F600}a", None))
  {
  }

  /** One remembered plan. `date` is the submission time, supplied by the caller. */
  datatype HistoryItem = HistoryItem(inputs: FormValues, plan: TripPlan, date: string)

  /** What the trip-planning server action returns. */
  datatype ActionResult = ActionResult(success: bool, data: Option<TripPlan>, error: Option<string>)

  /** The recognizer command a microphone click issues. */
  datatype MicCommand = StartListening | StopListening

  datatype PlannerState = PlannerState(
    form: FormValues,
    tripPlan: Option<TripPlan>,
    isLoading: bool,
    error: Option<string>,
    history: seq<HistoryItem>,
    isListening: bool)

  const HistoryLimit: nat := 5
  const UnknownError := "An unknown error occurred."

  function Min(a: nat, b: nat): nat {
    if a <= b then a else b
  }

  /** `[item, ...history].slice(0, 5)`. */
  function PushHistory(history: seq<HistoryItem>, item: HistoryItem): (r: seq<HistoryItem>)
    ensures |r| == Min(|history| + 1, HistoryLimit)
    ensures r[0] == item
    ensures forall i :: 1 <= i < |r| ==> r[i] == history[i - 1]
  {
    ([item] + history)[..Min(|history| + 1, HistoryLimit)]
  }

  /** The part of `onSubmit` before the action is awaited. */
  function BeginSubmit(s: PlannerState): (s': PlannerState)
    ensures s'.isLoading && s'.error.None? && s'.tripPlan.None?
    ensures s'.history == s.history && s'.form == s.form && s'.isListening == s.isListening
  {
    s.(isLoading := true, error := None, tripPlan := None)
  }

  /** The part of `onSubmit` after the action returned `result` at time `now`. */
  function FinishSubmit(s: PlannerState, values: FormValues, result: ActionResult, now: string): PlannerState {
    if result.success && result.data.Some? then
      s.(tripPlan := result.data,
         history := PushHistory(s.history, HistoryItem(values, result.data.value, now)),
         isLoading := false)
    else
      s.(error := Some(if Truthy(result.error) then result.error.value else UnknownError),
         isLoading := false)
  }

  /**
   * One submission of valid `values`: the error and plan are cleared, the
   * action runs, and the state records its success or failure.
   */
  function Submit(s: PlannerState, values: FormValues, result: ActionResult, now: string): (s': PlannerState)
    requires FormAccepts(values)
    ensures !s'.isLoading
    ensures s'.form == s.form && s'.isListening == s.isListening
    ensures result.success && result.data.Some? ==>
      && s'.tripPlan == result.data
      && s'.error.None?
      && 1 <= |s'.history| <= HistoryLimit
      && s'.history[0] == HistoryItem(values, result.data.value, now)
      && s'.history[1..] <= s.history
    ensures !(result.success && result.data.Some?) ==>
      && s'.tripPlan.None?
      && s'.history == s.history
      && s'.error.Some?
      && (Truthy(result.error) ==> s'.error.value == result.error.value)
      && (!Truthy(result.error) ==> s'.error.value == UnknownError)
  {
    var s' := FinishSubmit(BeginSubmit(s), values, result, now);
    assert result.success && result.data.Some? ==> s'.history[1..] == s.history[..|s'.history| - 1];
    s'
  }

  /**
   * The form's submit handler: invalid values never reach the action and
   * leave the state as it was.
   */
  function HandleSubmit(s: PlannerState, values: FormValues, result: ActionResult, now: string): (s': PlannerState)
    ensures !FormAccepts(values) ==> s' == s
    ensures FormAccepts(values) ==> !s'.isLoading && s'.form == s.form
    ensures FormAccepts(values) && result.success && result.data.Some? ==>
      && s'.tripPlan == result.data
      && s'.error.None?
      && 1 <= |s'.history| <= HistoryLimit
      && s'.history[0] == HistoryItem(values, result.data.value, now)
    ensures FormAccepts(values) && !(result.success && result.data.Some?) ==>
      && s'.tripPlan.None?
      && s'.history == s.history
      && s'.error.Some?
  {
    if FormAccepts(values) then Submit(s, values, result, now) else s
  }

  /** Pushes each item in order, as a series of successful submissions does. */
  function PushAll(history: seq<HistoryItem>, items: seq<HistoryItem>): seq<HistoryItem>
    decreases |items|
  {
    if items == [] then history
    else PushAll(PushHistory(history, items[0]), items[1..])
  }

  function Reverse<T>(xs: seq<T>): (r: seq<T>)
    ensures |r| == |xs|
    ensures forall i :: 0 <= i < |xs| ==> r[i] == xs[|xs| - 1 - i]
  {
    if xs == [] then [] else Reverse(xs[1..]) + [xs[0]]
  }

  /**
   * After any series of successful submissions the history is the newest
   * items first, followed by the older history, cut to five entries.
   */
  lemma {:induction false} HistoryMostRecentFirst(history: seq<HistoryItem>, items: seq<HistoryItem>)
    requires |history| <= HistoryLimit
    ensures var all := Reverse(items) + history;
      PushAll(history, items) == all[..Min(|all|, HistoryLimit)]
    decreases |items|
  {
    if items != [] {
      var h1 := PushHistory(history, items[0]);
      HistoryMostRecentFirst(h1, items[1..]);
      var all := Reverse(items) + history;
      var all1 := Reverse(items[1..]) + h1;
      var n := Min(|all|, HistoryLimit);
      assert |all1[..Min(|all1|, HistoryLimit)]| == n;
      forall i | 0 <= i < n
        ensures all1[i] == all[i]
      {
        if i < |items| - 1 {
          assert all1[i] == items[1..][|items| - 2 - i];
        } else if i == |items| - 1 {
          assert all1[i] == h1[0];
        } else {
          assert all1[i] == h1[i - |items| + 1];
        }
      }
      assert all1[..Min(|all1|, HistoryLimit)] == all[..n];
    }
  }

  /** Shows a remembered plan and puts its inputs back into the form; the history is untouched. */
  function LoadFromHistory(s: PlannerState, item: HistoryItem): (s': PlannerState)
    ensures s'.tripPlan == Some(item.plan) && s'.form == item.inputs
    ensures s'.history == s.history && s'.error == s.error && s'.isLoading == s.isLoading
  {
    s.(form := item.inputs, tripPlan := Some(item.plan))
  }

  function ClearHistory(s: PlannerState): (s': PlannerState)
    ensures s'.history == []
    ensures s'.tripPlan == s.tripPlan && s'.form == s.form && s'.error == s.error
    ensures s'.isLoading == s.isLoading && s'.isListening == s.isListening
  {
    s.(history := [])
  }

  /** A cleared history stays empty until the next successful submission. */
  lemma ClearedHistoryAfterFailure(s: PlannerState, values: FormValues, result: ActionResult, now: string)
    requires FormAccepts(values)
    requires !(result.success && result.data.Some?)
    ensures Submit(ClearHistory(s), values, result, now).history == []
  {
  }

  /** The notes after dictating `transcript`: the transcript alone, or appended after a space. */
  function AppendTranscript(notes: Option<string>, transcript: string): (r: string)
    ensures !Truthy(notes) ==> r == transcript
    ensures Truthy(notes) ==> |r| == |notes.value| + 1 + |transcript|
    ensures Truthy(notes) ==> r[..|notes.value|] == notes.value && r[|notes.value|] == ' '
    ensures r[|r| - |transcript|..] == transcript
  {
    if Truthy(notes) then notes.value + " " + transcript else transcript
  }

  /** The recognizer's result handler: the transcript goes into the notes and listening stops. */
  function OnSpeechResult(s: PlannerState, transcript: string): (s': PlannerState)
    ensures s'.form.notes == Some(AppendTranscript(s.form.notes, transcript))
    ensures !s'.isListening
    ensures s'.form.start == s.form.start && s'.form.destination == s.form.destination
  {
    s.(form := s.form.(notes := Some(AppendTranscript(s.form.notes, transcript))), isListening := false)
  }

  /** Two dictations in a row keep both transcripts, in order, after the earlier notes. */
  lemma DictationAccumulates(notes: string, a: string, b: string)
    requires notes != ""
    ensures AppendTranscript(Some(AppendTranscript(Some(notes), a)), b) == notes + " " + a + " " + b
  {
  }

  /**
   * The microphone button: without a recognizer nothing happens; otherwise
   * listening flips and the recognizer is started or stopped to match.
   */
  function HandleMicClick(hasRecognizer: bool, s: PlannerState): (out: (PlannerState, Option<MicCommand>))
    ensures !hasRecognizer ==> out == (s, None)
    ensures hasRecognizer ==> out.0 == s.(isListening := !s.isListening)
    ensures hasRecognizer ==> out.1 == Some(if s.isListening then StopListening else StartListening)
  {
    if !hasRecognizer then (s, None)
    else if s.isListening then (s.(isListening := false), Some(StopListening))
    else (s.(isListening := true), Some(StartListening))
  }

  /** Two clicks with a recognizer return to the original listening state. */
  lemma MicClickTwiceRestores(s: PlannerState)
    ensures HandleMicClick(true, HandleMicClick(true, s).0).0 == s
  {
  }

  /** The icon drawn beside an itinerary step. */
  datatype StepIcon = WalkIcon | BusIcon | StartPin | DestinationPin | TramIcon

  function StepIconOf(instruction: string): StepIcon {
    ClassifyLowered(ToLower(instruction))
  }

  /** The keyword priority, applied to the lower-cased instruction. */
  function ClassifyLowered(lower: string): StepIcon {
    if Contains(lower, "walk") then WalkIcon
    else if Contains(lower, "bus") then BusIcon
    else if Contains(lower, "start") then StartPin
    else if Contains(lower, "destination") || Contains(lower, "arrive") then DestinationPin
    else TramIcon
  }

  /** Walking takes priority over every other keyword. */
  lemma WalkWins(instruction: string)
    requires exists i :: OccursAt(ToLower(instruction), "walk", i)
    ensures StepIconOf(instruction) == WalkIcon
  {
  }

  /** A bus step is one that mentions a bus and does not mention walking. */
  lemma BusIconMeaning(instruction: string)
    ensures var lower := ToLower(instruction);
      StepIconOf(instruction) == BusIcon <==>
        (exists i :: OccursAt(lower, "bus", i)) && !(exists i :: OccursAt(lower, "walk", i))
  {
  }

  /** `lower.includes(word)`, stated by position. */
  ghost predicate Mentions(lower: string, word: string) {
    exists i :: OccursAt(lower, word, i)
  }

  /** The pins and the default icon: each is chosen exactly when no earlier keyword matched. */
  lemma StepIconMeaning(instruction: string)
    ensures var lower := ToLower(instruction);
      var earlier := Mentions(lower, "walk") || Mentions(lower, "bus");
      && (StepIconOf(instruction) == StartPin <==> !earlier && Mentions(lower, "start"))
      && (StepIconOf(instruction) == DestinationPin <==>
            !earlier && !Mentions(lower, "start") && (Mentions(lower, "destination") || Mentions(lower, "arrive")))
      && (StepIconOf(instruction) == TramIcon <==>
            !earlier && !Mentions(lower, "start") && !Mentions(lower, "destination") && !Mentions(lower, "arrive"))
  {
  }

  lemma {:induction false} LowerOfUpper(s: string)
    ensures ToLower(ToUpper(s)) == ToLower(s)
  {
    var a, b := ToLower(ToUpper(s)), ToLower(s);
    forall i | 0 <= i < |s|
      ensures a[i] == b[i]
    {
      assert a[i] == LowerChar(UpperChar(s[i]));
    }
  }

  /** The classifier ignores case: lower-, upper- and mixed-case spellings get the same icon. */
  lemma StepIconCaseInsensitive(instruction: string)
    ensures StepIconOf(ToLower(instruction)) == StepIconOf(instruction)
    ensures StepIconOf(ToUpper(instruction)) == StepIconOf(instruction)
  {
    var lower := ToLower(instruction);
    ToLowerIdempotent(instruction);
    LowerOfUpper(instruction);
    assert StepIconOf(ToLower(instruction)) == ClassifyLowered(ToLower(lower));
    assert StepIconOf(ToUpper(instruction)) == ClassifyLowered(ToLower(ToUpper(instruction)));
  }
}

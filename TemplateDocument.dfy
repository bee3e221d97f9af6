/** The template file as System.Text.Json presents it, the JsonElement
    accessors the importer calls, the column rules the database enforces on
    each insert, and the content a well-formed file describes. */
module TemplateDocument {
  import opened Wrappers
  import opened Errors
  import opened Columns
  import opened Entities
  import opened TemplateCatalog

  /** A parsed JSON value. Numbers written without a fraction or an exponent
      are JInteger; every other number is JFraction. */
  datatype Json =
    | JNull
    | JBool(b: bool)
    | JInteger(n: int)
    | JFraction
    | JString(s: string)
    | JArray(items: seq<Json>)
    | JObject(props: seq<Property>)

  datatype Property = Property(name: string, value: Json)

  const Int32Min := -0x8000_0000
  const Int32Max := 0x7FFF_FFFF

  /** JsonValueKind's name for the value, as the wrong-type message spells it. */
  function KindName(e: Json): string {
    match e
    case JNull => "Null"
    case JBool(b) => if b then "True" else "False"
    case JInteger(_) => "Number"
    case JFraction => "Number"
    case JString(_) => "String"
    case JArray(_) => "Array"
    case JObject(_) => "Object"
  }

  function WrongType(expected: string, e: Json): Error {
    InvalidOperation("The requested operation requires an element of type '" + expected + "', but the target element has type '" + KindName(e) + "'.")
  }

  const MissingProperty: Error := KeyNotFound("The given key was not present in the dictionary.")
  const NotAnInt32: Error := Format("One of the identified items was in an invalid format.")

  /** Where a name occurs more than once in an object, the last occurrence is the one matched. */
  function LastNamed(props: seq<Property>, name: string): (r: Option<nat>)
    ensures r.None? <==> forall i :: 0 <= i < |props| ==> props[i].name != name
    ensures r.Some? ==> r.value < |props| && props[r.value].name == name &&
                        forall j :: r.value < j < |props| ==> props[j].name != name
  {
    if props == [] then None
    else if props[|props| - 1].name == name then Some(|props| - 1)
    else
      var r := LastNamed(props[..|props| - 1], name);
      assert forall j :: 0 <= j < |props| - 1 ==> props[..|props| - 1][j] == props[j];
      r
  }

  /** JsonElement.GetProperty. */
  function GetProperty(e: Json, name: string): (r: Result<Json, Error>)
    ensures r.Failure? <==> !e.JObject? || forall i :: 0 <= i < |e.props| ==> e.props[i].name != name
    ensures r.Failure? && !e.JObject? ==> r.error == WrongType("Object", e)
    ensures r.Failure? && e.JObject? ==> r.error == MissingProperty
  {
    if !e.JObject? then Failure(WrongType("Object", e))
    else match LastNamed(e.props, name)
      case None => Failure(MissingProperty)
      case Some(i) => Success(e.props[i].value)
  }

  /** JsonElement.GetString: the text of a string, null for a JSON null. */
  function GetString(e: Json): (r: Result<Option<string>, Error>)
    ensures r.Success? <==> e.JString? || e.JNull?
    ensures r.Success? ==> (r.value.Some? <==> e.JString?) && (e.JString? ==> r.value.value == e.s)
    ensures r.Failure? ==> r.error.InvalidOperation?
  {
    match e
    case JString(s) => Success(Some(s))
    case JNull => Success(None)
    case _ => Failure(WrongType("String", e))
  }

  /** JsonElement.GetInt32. */
  function GetInt32(e: Json): (r: Result<int, Error>)
    ensures r.Success? <==> e.JInteger? && Int32Min <= e.n <= Int32Max
    ensures r.Success? ==> r.value == e.n
    ensures r.Failure? ==> (r.error == NotAnInt32 <==> e.JInteger? || e.JFraction?)
  {
    match e
    case JInteger(n) => if Int32Min <= n <= Int32Max then Success(n) else Failure(NotAnInt32)
    case JFraction => Failure(NotAnInt32)
    case _ => Failure(WrongType("Number", e))
  }

  /** JsonElement.EnumerateArray. */
  function EnumerateArray(e: Json): (r: Result<seq<Json>, Error>)
    ensures r.Success? <==> e.JArray?
    ensures r.Success? ==> r.value == e.items
  {
    if e.JArray? then Success(e.items) else Failure(WrongType("Array", e))
  }

  function ReadString(e: Json, name: string): Result<Option<string>, Error> {
    var v :- GetProperty(e, name);
    GetString(v)
  }

  function ReadInt32(e: Json, name: string): Result<int, Error> {
    var v :- GetProperty(e, name);
    GetInt32(v)
  }

  function ReadArray(e: Json, name: string): Result<seq<Json>, Error> {
    var v :- GetProperty(e, name);
    EnumerateArray(v)
  }

  // Column limits of TemplateExercise (TemplateExerciseConfiguration).

  predicate PrescriptionFits(p: Prescription) {
    Fits(p.lastSetIntensity, 100) && Fits(p.warmupSets, 50) && Fits(p.workingSets, 50) &&
    Fits(p.reps, 50) && Fits(p.rpe, 50) && Fits(p.rest, 50) &&
    Fits(p.substitution1, 100) && Fits(p.substitution2, 100) && Fits(p.notes, 500)
  }

  // The content of a well-formed file, read in the order the importer reads it.

  /** Template header: Name, Description, DurationWeeks, then the insert. */
  function ParseHeader(root: Json): Result<TemplateFields, Error> {
    var name :- ReadString(root, "Name");
    var description :- ReadString(root, "Description");
    var weeks :- ReadInt32(root, "DurationWeeks");
    var n :- RequiredColumn(name, 100);
    var d :- RequiredColumn(description, 500);
    Success(TemplateFields(n, d, weeks))
  }

  /** One exercise: its ten properties in order, then the insert. */
  function ParseExercise(e: Json): Result<ExerciseContent, Error> {
    var name :- ReadString(e, "ExerciseName");
    var lastSetIntensity :- ReadString(e, "LastSetIntensity");
    var warmupSets :- ReadString(e, "WarmupSets");
    var workingSets :- ReadString(e, "WorkingSets");
    var reps :- ReadString(e, "Reps");
    var rpe :- ReadString(e, "Rpe");
    var rest :- ReadString(e, "Rest");
    var substitution1 :- ReadString(e, "Substitution1");
    var substitution2 :- ReadString(e, "Substitution2");
    var notes :- ReadString(e, "Notes");
    var p := Prescription(lastSetIntensity, warmupSets, workingSets, reps, rpe, rest, substitution1, substitution2, notes);
    var n :- RequiredColumn(name, 100);
    if PrescriptionFits(p) then Success(ExerciseContent(n, p)) else Failure(SaveFailed)
  }

  /** A workout's Name and its insert, before its exercises are read. */
  function ParseWorkoutName(e: Json): Result<string, Error> {
    var name :- ReadString(e, "Name");
    RequiredColumn(name, 100)
  }

  function ParseExercises(items: seq<Json>): (r: Result<seq<ExerciseContent>, Error>)
    ensures r.Success? ==> |r.value| == |items|
  {
    if items == [] then Success([])
    else
      var x :- ParseExercise(items[0]);
      var rest :- ParseExercises(items[1..]);
      Success([x] + rest)
  }

  function ParseWorkout(e: Json): Result<WorkoutContent, Error> {
    var name :- ParseWorkoutName(e);
    var items :- ReadArray(e, "TemplateExercises");
    var xs :- ParseExercises(items);
    Success(WorkoutContent(name, xs))
  }

  function ParseWorkouts(items: seq<Json>): (r: Result<seq<WorkoutContent>, Error>)
    ensures r.Success? ==> |r.value| == |items|
  {
    if items == [] then Success([])
    else
      var w :- ParseWorkout(items[0]);
      var rest :- ParseWorkouts(items[1..]);
      Success([w] + rest)
  }

  function ParseWeek(e: Json): Result<WeekContent, Error> {
    var n :- ReadInt32(e, "WeekNumber");
    var items :- ReadArray(e, "TemplateWorkouts");
    var ws :- ParseWorkouts(items);
    Success(WeekContent(n, ws))
  }

  function ParseWeeks(items: seq<Json>): (r: Result<seq<WeekContent>, Error>)
    ensures r.Success? ==> |r.value| == |items|
  {
    if items == [] then Success([])
    else
      var w :- ParseWeek(items[0]);
      var rest :- ParseWeeks(items[1..]);
      Success([w] + rest)
  }

  function ParseTemplate(root: Json): Result<TemplateContent, Error> {
    var header :- ParseHeader(root);
    var items :- ReadArray(root, "TemplateWeeks");
    var weeks :- ParseWeeks(items);
    Success(TemplateContent(header, weeks))
  }
}

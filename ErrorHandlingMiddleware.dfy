/** ErrorHandlingMiddleware.HandleExceptionAsync: exception kind -> (status, body).
    Writing the response is left out. */
module ErrorHandlingMiddleware {
  import opened Errors

  const NotFound := 404
  const Unauthorized := 401
  const InternalServerError := 500
  const UnexpectedText := "An unexpected error has occurred."

  datatype Response = Response(status: int, body: string)

  /** The exception types the switch names with a 404 case. */
  predicate IsNotFoundKind(e: Error) {
    e.WorkoutNotFound? || e.UserNotFound? || e.ExerciseNotFound? || e.SeriesNotFound?
  }

  function HandleException(e: Error): (r: Response)
    ensures r.status == NotFound <==> IsNotFoundKind(e)
    ensures r.status == Unauthorized <==> e.UnauthorizedAccess?
    ensures r.status == InternalServerError <==> !IsNotFoundKind(e) && !e.UnauthorizedAccess?
    ensures r.status != InternalServerError ==> r.body == "Error: " + e.message
    ensures r.status == InternalServerError ==> r.body == UnexpectedText
  {
    match e
    case WorkoutNotFound(m) => Response(NotFound, "Error: " + m)
    case UserNotFound(m) => Response(NotFound, "Error: " + m)
    case ExerciseNotFound(m) => Response(NotFound, "Error: " + m)
    case SeriesNotFound(m) => Response(NotFound, "Error: " + m)
    case UnauthorizedAccess(m) => Response(Unauthorized, "Error: " + m)
    case _ => Response(InternalServerError, UnexpectedText)
  }

  /** The template, subscription and progress exceptions have no case of their
      own, so they reach the client as a 500 with the fixed text. */
  lemma ServiceSpecificErrorsAre500(e: Error)
    requires e.WorkoutTemplateNotFound? || e.TemplateAlreadySelected? || e.UserExerciseProgressNotFound? || e.UserWorkoutTemplateNotFound?
    ensures HandleException(e) == Response(InternalServerError, UnexpectedText)
  {
  }

  /** A 404 or 401 body gives back the exception's message exactly. */
  lemma ClientErrorBodyDeterminesMessage(e1: Error, e2: Error)
    requires HandleException(e1).status != InternalServerError
    requires HandleException(e1) == HandleException(e2)
    ensures e1.message == e2.message
  {
    var p := "Error: ";
    assert HandleException(e1).body == p + e1.message;
    assert HandleException(e2).body == p + e2.message;
    assert e1.message == (p + e1.message)[|p|..];
    assert e2.message == (p + e2.message)[|p|..];
  }
}

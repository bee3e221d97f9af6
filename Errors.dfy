/** The exceptions the core raises, each with the message its constructor builds. */
module Errors {
  import opened Guids

  datatype Error =
    | WorkoutNotFound(message: string)
    | UserNotFound(message: string)
    | ExerciseNotFound(message: string)
    | SeriesNotFound(message: string)
    | UnauthorizedAccess(message: string)
    | WorkoutTemplateNotFound(message: string)
    | TemplateAlreadySelected(message: string)
    | UserWorkoutTemplateNotFound(message: string)
    | UserExerciseProgressNotFound(message: string)
    | ArgumentNull(message: string)
      // System.InvalidOperationException: a JSON value of the wrong kind
    | InvalidOperation(message: string)
      // System.Collections.Generic.KeyNotFoundException: a missing JSON property, with .NET's fixed message
    | KeyNotFound(message: string)
      // System.FormatException: a JSON number that does not fit an Int32
    | Format(message: string)
      // DbUpdateException: the database refused the saved changes
    | DbUpdate(message: string)

  function UserNotFoundError(userId: Guid): Error {
    UserNotFound("User with ID " + GuidText(userId) + " not found.")
  }

  function WorkoutTemplateNotFoundError(templateId: Guid): Error {
    WorkoutTemplateNotFound("Workout template with ID " + GuidText(templateId) + " not found.")
  }

  function TemplateAlreadySelectedError(userId: Guid, templateId: Guid): Error {
    TemplateAlreadySelected("User " + GuidText(userId) + " has already selected template " + GuidText(templateId) + ".")
  }

  function UserWorkoutTemplateNotFoundError(id: Guid): Error {
    UserWorkoutTemplateNotFound("UserWorkoutTemplate with ID " + GuidText(id) + " not found.")
  }

  function UserWorkoutTemplateNotFoundForUserError(id: Guid, userId: Guid): Error {
    UserWorkoutTemplateNotFound("UserWorkoutTemplate with ID " + GuidText(id) + " not found for user " + GuidText(userId) + ".")
  }

  function UserExerciseProgressNotFoundError(progressId: Guid): Error {
    UserExerciseProgressNotFound("User exercise progress with ID " + GuidText(progressId) + " not found.")
  }

  /** The message EF Core gives every DbUpdateException it raises from SaveChanges. */
  const SaveChangesFailed := "An error occurred while saving the entity changes. See the inner exception for details."
}

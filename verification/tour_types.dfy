/** The records of the `tours` and `tour_steps` tables and the inputs the
    data-access functions accept. Timestamps other than the creation time
    are not modelled; `created_at` is an abstract, comparable instant. */
module TourTypes {
  import opened Wrappers

  /** A row of `tour_steps`. */
  datatype Step = Step(
    id: int,
    tour_id: int,
    step_order: int,
    title: string,
    description: string,
    completion_rate: real)

  /** A row of `tours`; `tour_steps` is present only when a query embeds
      the tour's steps. */
  datatype Tour = Tour(
    id: int,
    user_id: string,
    title: string,
    description: string,
    total_steps: int,
    status: string,
    created_at: int,
    tour_steps: Option<seq<Step>>)

  /** The two status values of the record type. */
  const Active: string := "active"
  const Inactive: string := "inactive"

  /** `{title, description}` of a step being created. */
  datatype StepInput = StepInput(title: string, description: string)

  datatype CreateTourInput = CreateTourInput(
    title: string,
    description: string,
    status: Option<string>,
    steps: Option<seq<StepInput>>)

  /** A partial update of a tour's metadata: absent fields are not written. */
  datatype TourUpdate = TourUpdate(
    title: Option<string>,
    description: Option<string>,
    status: Option<string>)

  /** A partial update of a step's text: absent fields are not written. */
  datatype StepUpdate = StepUpdate(title: Option<string>, description: Option<string>)
}

/** The record the wall shows, and the calendar boundaries its views use. */
module IdeaModel {

  datatype Option<T> = None | Some(value: T)

  /** One row of the `ideas` table. `createdAt` is the timestamp in
      milliseconds, as a JavaScript `Date` compares it. */
  datatype Idea = Idea(id: int, content: string, createdAt: int)

  /** One day in milliseconds. */
  const DAY: int := 86_400_000

  /** Local midnight six days before `startOfToday`: the first instant of the
      seven-day window that ends today. */
  function SevenDaysAgo(startOfToday: int): (t: int)
    ensures t < startOfToday
  {
    startOfToday - 6 * DAY
  }
}

/**
 * What crosses the page's boundaries: notifications shown to the user, the
 * job records the API returns, and the outcome of an API wrapper call.
 */
module Boundary {
  import opened Wrappers

  datatype ToastKind = Info | Success | Error

  /** A transient notification (a toast, or the alert that stands in for one). */
  datatype Toast = Toast(text: string, kind: ToastKind)

  /** A job posting as the jobs endpoints return it. */
  datatype Job = Job(title: string, location: string, salary: string, qualification: string,
                     experience: string, keySkills: string)

  /**
   * The settled outcome of an awaited API wrapper call: the parsed JSON body
   * (an absent `message` or `error` is the empty string), or the message of
   * the error it threw (network failure, non-2xx status).
   */
  datatype Reply<T> = Answered(success: bool, message: string, error: string, data: T)
                    | Thrown(reason: string)
  {
    predicate Succeeded() { Answered? && success }
  }
}

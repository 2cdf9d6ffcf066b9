/**
 * extractHour of app/page.tsx. Parsing a date string (`new Date(s)`) and
 * formatting a time for the 'es-AR' locale are runtime behaviour the model
 * does not see, so they are a parameter: `parse` gives the time value, or
 * None where the runtime yields an invalid date (NaN), and `localeTime` is
 * toLocaleTimeString with two-digit hour and minute.
 */
module TimeFormat {
  import opened Wrappers

  datatype DateRuntime = DateRuntime(parse: string -> Option<int>, localeTime: int -> string)

  /** A string the runtime cannot read as a date comes back unchanged. */
  function ExtractHour(rt: DateRuntime, s: string): (r: string)
    ensures rt.parse(s).None? ==> r == s
  {
    match rt.parse(s)
    case None => s
    case Some(t) => rt.localeTime(t)
  }
}

/**
 * The load lifecycle of the page component (fetchMatches in app/page.tsx):
 * three independent pieces of state, `matches`, `loading` and `error`, set
 * step by step through a try/catch/finally around one network request.
 *
 * The request's result is a parameter (FetchOutcome): the promise of fetch
 * rejects with some thrown value, or a response arrives with a status and a
 * body that response.json() either parses or rejects on.
 */
module PageLoad {
  import opened Wrappers
  import opened Text
  import opened Domain

  /** The component's state: useState(matches = []), useState(loading = true), useState(error = null). */
  datatype PageState = PageState(matches: seq<Match>, loading: bool, error: Option<string>)

  const InitialState := PageState([], true, None)

  /** A value thrown in the try block: an Error object with its message, or anything else. */
  datatype Thrown = ErrorObject(message: string) | OtherValue

  datatype Body = Json(data: seq<Match>) | Malformed(thrown: Thrown)

  datatype FetchOutcome = Rejected(thrown: Thrown) | Responded(status: nat, body: Body)

  /** Response.ok: a status in the range 200 to 299. */
  predicate IsOk(status: nat) {
    200 <= status <= 299
  }

  const HttpErrorPrefix := "HTTP error! status: "
  const LoadErrorPrefix := "Error al cargar los partidos: "
  const UnknownLoadError := "Error desconocido al cargar los partidos"

  /** The outcome of the try block: the list passed to setMatches, or what reaches the catch. */
  function Attempt(o: FetchOutcome): (r: Result<seq<Match>, Thrown>)
    ensures r.Success? <==> o.Responded? && IsOk(o.status) && o.body.Json?
    ensures r.Success? ==> r.value == o.body.data
    ensures o.Rejected? ==> r == Failure(o.thrown)
    ensures o.Responded? && IsOk(o.status) && o.body.Malformed? ==> r == Failure(o.body.thrown)
  {
    match o
    case Rejected(t) => Failure(t)
    case Responded(status, body) =>
      if !IsOk(status) then Failure(ErrorObject(HttpErrorPrefix + NatToString(status)))
      else match body
        case Json(data) => Success(data)
        case Malformed(t) => Failure(t)
  }

  /** The text the catch block stores; never empty, so the page always treats it as an error. */
  function CatchMessage(t: Thrown): (msg: string)
    ensures msg != []
    ensures t.ErrorObject? ==>
      |LoadErrorPrefix| <= |msg| && msg[..|LoadErrorPrefix|] == LoadErrorPrefix && msg[|LoadErrorPrefix|..] == t.message
    ensures t.OtherValue? ==> msg == UnknownLoadError
  {
    match t
    case ErrorObject(message) => LoadErrorPrefix + message
    case OtherValue => UnknownLoadError
  }

  /** The state after setLoading(true) and setError(null). */
  function Started(s: PageState): PageState {
    s.(loading := true, error := None)
  }

  /** The state after the rest of the try block, the catch block and the finally block. */
  function Settled(s: PageState, o: FetchOutcome): PageState {
    match Attempt(o)
    case Success(data) => s.(matches := data, loading := false)
    case Failure(t) => s.(loading := false, error := Some(CatchMessage(t)))
  }

  /** The page component's state, updated in place by the setters. */
  class Page {
    var matches: seq<Match>
    var loading: bool
    var error: Option<string>

    function State(): PageState
      reads this
    {
      PageState(matches, loading, error)
    }

    constructor ()
      ensures State() == InitialState
    {
      matches := [];
      loading := true;
      error := None;
    }

    /** The start of the try block. */
    method Begin()
      modifies this
      ensures State() == Started(old(State()))
    {
      loading := true;
      error := None;
    }

    /** From the awaited fetch to the end of the finally block. */
    method Complete(o: FetchOutcome)
      modifies this
      ensures State() == Settled(old(State()), o)
    {
      var caught: Option<Thrown> := None;
      match o {
        case Rejected(t) =>
          caught := Some(t);
        case Responded(status, body) =>
          if !IsOk(status) {
            caught := Some(ErrorObject(HttpErrorPrefix + NatToString(status)));
          } else {
            match body {
              case Json(data) => matches := data;
              case Malformed(t) => caught := Some(t);
            }
          }
      }
      if caught.Some? {
        error := Some(CatchMessage(caught.value));
      }
      loading := false;
    }

    /** fetchMatches: one whole load. */
    method FetchMatches(o: FetchOutcome)
      modifies this
      ensures State() == Settled(Started(old(State())), o)
    {
      Begin();
      Complete(o);
    }
  }

  /**
   * Every load ends with `loading` false. It stores the parsed list and no
   * error exactly when the response is ok and its body parses; otherwise the
   * list is left as it was and the error names the failure: the HTTP status,
   * the thrown Error's message, or the generic text for any other thrown value.
   */
  lemma LoadOutcomes(s: PageState, o: FetchOutcome)
    ensures var r := Settled(Started(s), o);
      && !r.loading
      && (r.error == None <==> o.Responded? && IsOk(o.status) && o.body.Json?)
      && (o.Responded? && IsOk(o.status) && o.body.Json? ==> r.matches == o.body.data)
      && (o.Responded? && !IsOk(o.status) ==>
            r.matches == s.matches && r.error == Some(LoadErrorPrefix + HttpErrorPrefix + NatToString(o.status)))
      && (o.Rejected? ==> r.matches == s.matches && r.error == Some(CatchMessage(o.thrown)))
      && (o.Responded? && IsOk(o.status) && o.body.Malformed? ==>
            r.matches == s.matches && r.error == Some(CatchMessage(o.body.thrown)))
  {
    if o.Responded? {
      var text := NatToString(o.status);
      assert LoadErrorPrefix + (HttpErrorPrefix + text) == LoadErrorPrefix + HttpErrorPrefix + text;
    }
  }

  /** The status a stored HTTP error message names, read back from its text. */
  function StatusInMessage(msg: string): Option<nat> {
    var prefix := LoadErrorPrefix + HttpErrorPrefix;
    if |prefix| <= |msg| && msg[..|prefix|] == prefix && AllDigits(msg[|prefix|..])
    then Some(DigitsValue(msg[|prefix|..]))
    else None
  }

  /** A failed status is recoverable from the error the page shows. */
  lemma HttpErrorNamesStatus(s: PageState, status: nat, body: Body)
    requires !IsOk(status)
    ensures var r := Settled(Started(s), Responded(status, body));
      r.error.Some? && StatusInMessage(r.error.value) == Some(status)
  {
    var prefix := LoadErrorPrefix + HttpErrorPrefix;
    var msg := prefix + NatToString(status);
    assert LoadErrorPrefix + (HttpErrorPrefix + NatToString(status)) == msg;
    assert msg[..|prefix|] == prefix && msg[|prefix|..] == NatToString(status);
    DigitsValueOfNatToString(status);
  }
}

/**
 * What the page component renders for a state (the body of Component in
 * app/page.tsx after its effect): the spinner while loading, else the error
 * panel when `error` is truthy, else the grouped match list. Markup and
 * styling are left out; a view keeps the values the markup shows.
 */
module Render {
  import opened Wrappers
  import opened Domain
  import opened Grouping
  import opened TimeFormat
  import opened PageLoad

  /**
   * One match card: the match whose round, teams, set scores and status it
   * shows, and the Buenos Aires time when that is shown at all.
   */
  datatype MatchRow = MatchRow(source: Match, time: Option<string>)

  /** One group card: header fields, the court's start time, then the match cards. */
  datatype GroupPanel = GroupPanel(torneoNombre: string, fecha: string, cancha: string, startTime: string, rows: seq<MatchRow>)

  datatype View = Spinner | ErrorPanel(message: string) | MatchList(panels: seq<GroupPanel>)

  /** `if (error)`: JavaScript truthiness, so null and the empty string both count as no error. */
  predicate ErrorShown(error: Option<string>) {
    error.Some? && error.value != []
  }

  function RenderRow(rt: DateRuntime, m: Match): MatchRow {
    MatchRow(m, if m.estado != "Completed" then Some(ExtractHour(rt, m.horaBuenosAires)) else None)
  }

  /** A group card; it reads the first match of its bucket, which must exist. */
  function RenderGroup(rt: DateRuntime, g: GroupedMatches): GroupPanel
    requires g.matches != []
  {
    GroupPanel(g.torneo.nombre, g.fecha, g.cancha, ExtractHour(rt, g.matches[0].horarioInicioCancha),
               seq(|g.matches|, t requires 0 <= t < |g.matches| => RenderRow(rt, g.matches[t])))
  }

  function Render(rt: DateRuntime, s: PageState): (v: View)
    ensures v.Spinner? <==> s.loading
    ensures v.ErrorPanel? <==> !s.loading && ErrorShown(s.error)
    ensures v.ErrorPanel? ==> Some(v.message) == s.error
    ensures v.MatchList? ==> |v.panels| == |Grouped(Key, s.matches)|
  {
    if s.loading then Spinner
    else if ErrorShown(s.error) then ErrorPanel(s.error.value)
    else
      var gs := Grouped(Key, s.matches);
      MatchList(seq(|gs|, i requires 0 <= i < |gs| => RenderGroup(rt, gs[i])))
  }

  /** The matches of all cards, in the order they appear on the page. */
  function Shown(panels: seq<GroupPanel>): seq<Match> {
    if panels == [] then []
    else seq(|panels[0].rows|, t requires 0 <= t < |panels[0].rows| => panels[0].rows[t].source) + Shown(panels[1..])
  }

  lemma {:induction false} ShownIsFlatten(rt: DateRuntime, gs: seq<GroupedMatches>, panels: seq<GroupPanel>)
    requires |panels| == |gs|
    requires forall i :: 0 <= i < |gs| ==> gs[i].matches != [] && panels[i] == RenderGroup(rt, gs[i])
    ensures Shown(panels) == Flatten(gs)
  {
    if gs != [] {
      ShownIsFlatten(rt, gs[1..], panels[1..]);
    }
  }

  /** The list shows every fetched match exactly once. */
  lemma ListShowsEveryMatchOnce(rt: DateRuntime, s: PageState)
    requires !s.loading && !ErrorShown(s.error)
    ensures Render(rt, s).MatchList?
    ensures multiset(Shown(Render(rt, s).panels)) == multiset(s.matches)
  {
    var gs := Grouped(Key, s.matches);
    ShownIsFlatten(rt, gs, Render(rt, s).panels);
    GroupingIsPermutation(Key, s.matches);
  }

  /**
   * The i-th card shows the i-th bucket: its header, the start time of its
   * first match, and one card per match in bucket order, each with its
   * Buenos Aires time exactly when its status is not "Completed".
   */
  lemma ListCards(rt: DateRuntime, s: PageState)
    ensures var v := Render(rt, s); var gs := Grouped(Key, s.matches);
      v.MatchList? ==>
        forall i :: 0 <= i < |v.panels| ==>
          && v.panels[i].torneoNombre == gs[i].torneo.nombre
          && v.panels[i].fecha == gs[i].fecha && v.panels[i].cancha == gs[i].cancha
          && v.panels[i].startTime == ExtractHour(rt, gs[i].matches[0].horarioInicioCancha)
          && |v.panels[i].rows| == |gs[i].matches|
          && forall t :: 0 <= t < |gs[i].matches| ==>
               && v.panels[i].rows[t].source == gs[i].matches[t]
               && (v.panels[i].rows[t].time.Some? <==> gs[i].matches[t].estado != "Completed")
               && (v.panels[i].rows[t].time.Some? ==>
                     v.panels[i].rows[t].time.value == ExtractHour(rt, gs[i].matches[t].horaBuenosAires))
  {
  }

  /**
   * Across one load: the spinner from the start of the load on (and on first
   * render); afterwards the list exactly when the load succeeded, otherwise
   * the error panel with the caught failure's message.
   */
  lemma ViewAcrossLoad(rt: DateRuntime, s: PageState, o: FetchOutcome)
    ensures Render(rt, InitialState).Spinner?
    ensures Render(rt, Started(s)).Spinner?
    ensures var v := Render(rt, Settled(Started(s), o));
      && (v.MatchList? <==> Attempt(o).Success?)
      && (v.ErrorPanel? <==> Attempt(o).Failure?)
      && (v.ErrorPanel? ==> v.message == CatchMessage(Attempt(o).error))
  {
  }
}

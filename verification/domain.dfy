/**
 * The records the match-data API returns and the page keeps in memory
 * (interfaces Player, Team, Tournament, Match and GroupedMatches of app/page.tsx).
 * JavaScript numbers used as identifiers are modelled as unbounded integers.
 */
module Domain {
  import opened Wrappers

  datatype Player = Player(nombre: string, apellido: string, nacionalidad: Option<string>, id: int)

  datatype Team = Team(id: int, jugador1: Player, jugador2: Player)

  datatype Tournament = Tournament(
    nombre: string,
    fechaInicio: string,
    fechaFin: string,
    ubicacion: string,
    id: int)

  datatype Match = Match(
    fecha: string,
    cancha: string,
    horarioInicioCancha: string,
    horaLocalActual: string,
    horario: string,
    tipoHorario: string,
    round: string,
    sets1: seq<string>,
    sets2: seq<string>,
    estado: string,
    horaBuenosAires: string,
    id: int,
    equipo1: Team,
    equipo2: Team,
    torneo: Tournament)

  /** One bucket of the grouped list: the header fields and the matches filed under it. */
  datatype GroupedMatches = GroupedMatches(torneo: Tournament, fecha: string, cancha: string, matches: seq<Match>)
}

/** The record shapes and the fixed rosters of the service log (types.ts, constants.ts). */
module Types {

  datatype Option<+T> = None | Some(value: T) {
    function GetOr(default: T): T {
      match this
      case Some(v) => v
      case None => default
    }
  }

  /** The people who can hold a role, plus the sentinel "no such role at this service". */
  datatype Worker =
    | Benedito | Claudio | David | Etiel
    | LuizBorges | LuizCorrea | Transmissao
    | Manoel | Reginaldo | Roberto
    | Valdemiro | Vinicius | Visitante
    | NaoHouve

  /** Service-day tags. QUA (Wednesday, the women's service) is produced and tested by the
      form logic although the declared union omits it; it is part of the model. */
  datatype Day = EBD | DOM | SEG | TER | QUA | QUI | SAB

  /** The three roles of a service: gate, worship, sermon. */
  datatype Task = Portao | Louvor | Palavra

  /** One saved service. `date` is a day number (days since 1970-01-01), `timestamp` the
      creation instant in milliseconds. */
  datatype Report = Report(
    id: string,
    date: int,
    dayOfWeek: Day,
    portao: Worker,
    louvor: Worker,
    palavra: Worker,
    textoBiblico: string,
    timestamp: int)

  /** The worker list offered by every role selector: every name except the sentinel. */
  const Workers: seq<Worker> := [
    Benedito, Claudio, David, Etiel,
    LuizBorges, LuizCorrea, Transmissao,
    Manoel, Reginaldo, Roberto,
    Valdemiro, Vinicius, Visitante
  ]

  /** The service days the rotation table has rows for (no QUA). */
  const DaysOfWeek: seq<Day> := [EBD, DOM, SEG, TER, QUI, SAB]

  const Tasks: seq<Task> := [Portao, Louvor, Palavra]

  /** Scripture text stored for the women's service. */
  const WomensService: string := "CULTO DE SENHORAS"

  /** Scripture text stored when none was given on an ordinary service. */
  const NotInformed: string := "Não informado"

  /** The worker who held `task` in report `r`. */
  function Role(r: Report, task: Task): Worker {
    match task
    case Portao => r.portao
    case Louvor => r.louvor
    case Palavra => r.palavra
  }

  /** The string a worker is displayed and searched by. */
  function Label(w: Worker): string {
    match w
    case Benedito => "BENEDITO"
    case Claudio => "CLÁUDIO"
    case David => "DAVID"
    case Etiel => "ETIEL"
    case LuizBorges => "LUIZ BORGES"
    case LuizCorrea => "LUIZ CORREA"
    case Transmissao => "TRANSMISSÃO"
    case Manoel => "MANOEL"
    case Reginaldo => "REGINALDO"
    case Roberto => "ROBERTO"
    case Valdemiro => "VALDEMIRO"
    case Vinicius => "VINICIUS"
    case Visitante => "VISITANTE"
    case NaoHouve => "NÃO HOUVE"
  }

  /** The selectors list every worker except the sentinel. */
  lemma WorkersAreAllButSentinel(w: Worker)
    ensures w in Workers <==> w != NaoHouve
  {
  }
}

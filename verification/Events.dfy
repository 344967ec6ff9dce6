/** The common event schema, reduced to what correlation and materialization read.
    Times are integers in nanoseconds with 0 for the zero time. */
module Events {
  datatype Option<+T> = None | Some(value: T)

  datatype Layer = Edge | BotManagement | AppFirewall | Origin | Other(name: string)
  {
    predicate Known() {
      !Other?
    }

    /** The causal position; 0 with Known() false for an unknown layer. */
    function Order(): (o: nat)
      ensures o <= 3
    {
      match this
      case Edge => 0
      case BotManagement => 1
      case AppFirewall => 2
      case Origin => 3
      case Other(_) => 0
    }
  }

  /** The empty layer: nothing terminated the request. */
  const NO_LAYER := Other("")

  datatype QualityFlag = ClockSkew | HeuristicCorrelation | BridgedCorrelation | OtherFlag(name: string)

  datatype Client = Client(ip: string, asn: int, country: string, userAgent: string)
  datatype Request = Request(verb: string, host: string, path: string, query: string)
  datatype Response = Response(cacheStatus: string, durationMS: real)
  datatype Verdict = Verdict(action: string, terminating: bool)

  datatype Event = Event(
    eventID: string, provider: string, identifiers: seq<string>,
    eventTime: int, layer: Layer, client: Client, request: Request,
    response: Response, verdict: Verdict, flags: seq<QualityFlag>)

  ghost predicate DistinctIDs(events: seq<Event>) {
    forall i, j | 0 <= i < j < |events| :: events[i].eventID != events[j].eventID
  }
}

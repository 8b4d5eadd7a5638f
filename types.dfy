// The record types shared by every screen and service (types/index.ts), and
// the value that stands for the outcome of one HTTP GET.

module Types {

  datatype Option<+T> = None | Some(value: T) {
    function GetOr(default: T): T {
      match this
      case Some(v) => v
      case None => default
    }
  }

  /** A device known to the app (RvolutionDevice); `lastSeen` is optional. */
  datatype Device = Device(
    id: string,
    name: string,
    ipAddress: string,
    port: int,
    isOnline: bool,
    lastSeen: Option<int>)

  /** PlayerStatus: declared by the app, never produced by the player API. */
  datatype PlayerStatus = PlayerStatus(
    isPlaying: bool,
    volume: int,
    currentTrack: Option<string>,
    duration: Option<int>,
    position: Option<int>)

  /**
   * What one `fetch` of a URL gives: a response with its status and, when the
   * body parses as JSON with a string `name` member, that name; or a thrown
   * error (connection refused, abort by the timeout, ...).
   */
  datatype Reply = Response(status: int, bodyName: Option<string>) | Failure

  /** The network as the app sees it: the reply to a GET of each URL. */
  type Network = string -> Reply

  /** `response.ok`: the status is in the range 200 to 299 (WHATWG Fetch, "ok status"). */
  predicate IsOkStatus(status: int) {
    200 <= status <= 299
  }

  /** True when a GET of `url` answers with an ok status. */
  predicate RespondsOk(net: Network, url: string) {
    net(url).Response? && IsOkStatus(net(url).status)
  }

  /** Whether a promise-returning store or network step completed or threw. */
  datatype Outcome = Done | Threw
}

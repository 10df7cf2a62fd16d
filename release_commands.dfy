/**
 * `flynn release`: which sub-command `runRelease` runs for the parsed
 * arguments, and which release `runReleaseRollback` deploys. Argument parsing,
 * the controller calls and the confirmation prompt are outside the model;
 * their results are inputs.
 */
module ReleaseCommands {
  import opened Wrappers

  /** The parsed arguments `runRelease` consults: the sub-command flags and `-t <type>`. */
  datatype Args = Args(show: bool, add: bool, update: bool, delete: bool, rollback: bool, releaseType: string)

  /** The sub-command handlers `runRelease` can hand over to. */
  datatype Command = Show | AddDocker | Update | Delete | Rollback | List

  /** The errors the modelled code returns itself, and controller errors it passes on. */
  datatype CliError =
    | UnsupportedReleaseType(releaseType: string)
    | NotEnoughReleases
    | GivenIsCurrent
    | ClientError(message: string)

  /** The only release type `add` accepts (also the default of `-t`). */
  const DockerType: string := "docker"

  /** The text of each error as the command prints it. */
  function Message(e: CliError): string {
    match e
    case UnsupportedReleaseType(t) => "Release type " + t + " not supported."
    case NotEnoughReleases => "Not enough releases to perform a rollback."
    case GivenIsCurrent => "Release id given is the current release."
    case ClientError(m) => m
  }

  /** The position of a command in `runRelease`'s chain of checks. */
  function Rank(c: Command): nat {
    match c
    case Show => 0
    case AddDocker => 1
    case Update => 2
    case Delete => 3
    case Rollback => 4
    case List => 5
  }

  /** The flag that selects `c`; listing is what runs when no flag is set. */
  predicate Flag(args: Args, c: Command) {
    match c
    case Show => args.show
    case AddDocker => args.add
    case Update => args.update
    case Delete => args.delete
    case Rollback => args.rollback
    case List => true
  }

  /**
   * `runRelease`: the first set flag in the order show, add, update, delete,
   * rollback picks the handler, listing otherwise; `add` with a type other than
   * docker is an error and runs nothing.
   */
  function Dispatch(args: Args): (r: Result<Command, CliError>)
    ensures r.Err? <==> !args.show && args.add && args.releaseType != DockerType
    ensures r.Err? ==> r.error == UnsupportedReleaseType(args.releaseType)
    ensures r.Ok? ==> Flag(args, r.value)
    ensures r.Ok? ==> forall c :: Rank(c) < Rank(r.value) ==> !Flag(args, c)
  {
    if args.show then Ok(Show)
    else if args.add then
      (if args.releaseType == DockerType then Ok(AddDocker) else Err(UnsupportedReleaseType(args.releaseType)))
    else if args.update then Ok(Update)
    else if args.delete then Ok(Delete)
    else if args.rollback then Ok(Rollback)
    else Ok(List)
  }

  /** `c` is the only sub-command flag set in `args`. */
  predicate OnlyFlag(args: Args, c: Command) {
    Flag(args, c) && forall d :: d != c && d != List ==> !Flag(args, d)
  }

  /**
   * Each usage line of the command names one sub-command, so at most one flag
   * is set: then that sub-command runs (add only for docker), and with none set
   * the releases are listed.
   */
  lemma DispatchRunsTheNamedCommand(args: Args, c: Command)
    requires OnlyFlag(args, c)
    ensures c == AddDocker && args.releaseType != DockerType ==> Dispatch(args) == Err(UnsupportedReleaseType(args.releaseType))
    ensures c != AddDocker || args.releaseType == DockerType ==> Dispatch(args) == Ok(c)
  {
    assert c != Show ==> !Flag(args, Show);
    assert c != AddDocker ==> !Flag(args, AddDocker);
    assert c != Update ==> !Flag(args, Update);
    assert c != Delete ==> !Flag(args, Delete);
  }

  /**
   * The release `runReleaseRollback` rolls back to. `releases` is the result of
   * listing the app's releases, newest first; it is consulted only when no id is
   * given.
   */
  function RollbackTarget(currentId: string, givenId: string, releases: Result<seq<string>, string>): (r: Result<string, CliError>)
    ensures givenId == "" && releases.Err? ==> r == Err(ClientError(releases.error))
    ensures givenId == "" && releases.Ok? ==> (r == Err(NotEnoughReleases) <==> |releases.value| < 2)
    ensures givenId == "" && releases.Ok? && |releases.value| >= 2 ==> r == Ok(releases.value[1])
    ensures givenId != "" ==> (r == Err(GivenIsCurrent) <==> givenId == currentId)
    ensures givenId != "" && givenId != currentId ==> r == Ok(givenId)
    ensures givenId != "" && r.Ok? ==> r.value != currentId
  {
    if givenId == "" then
      match releases
      case Err(e) => Err(ClientError(e))
      case Ok(list) => if |list| < 2 then Err(NotEnoughReleases) else Ok(list[1])
    else if givenId == currentId then Err(GivenIsCurrent)
    else Ok(givenId)
  }

  /** What `runReleaseRollback` ends with when it does not fail. */
  datatype RollbackPlan = Deploy(releaseId: string) | Declined

  /**
   * `runReleaseRollback` up to the deploy call: `current` is the app's current
   * release id (or the error fetching it), `yes` is `--yes` and `confirmed` the
   * answer the prompt would get.
   */
  function RunRollback(current: Result<string, string>, givenId: string, releases: Result<seq<string>, string>,
                       yes: bool, confirmed: bool): (r: Result<RollbackPlan, CliError>)
    ensures current.Err? ==> r == Err(ClientError(current.error))
    ensures current.Ok? && RollbackTarget(current.value, givenId, releases).Err? ==>
      r == Err(RollbackTarget(current.value, givenId, releases).error)
    ensures r == Ok(Declined) <==> current.Ok? && RollbackTarget(current.value, givenId, releases).Ok? && !yes && !confirmed
    ensures forall t :: r == Ok(Deploy(t)) <==>
      current.Ok? && RollbackTarget(current.value, givenId, releases) == Ok(t) && (yes || confirmed)
  {
    match current
    case Err(e) => Err(ClientError(e))
    case Ok(currentId) =>
      match RollbackTarget(currentId, givenId, releases)
      case Err(e) => Err(e)
      case Ok(target) => if !yes && !confirmed then Ok(Declined) else Ok(Deploy(target))
  }
}
